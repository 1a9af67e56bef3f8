/**
 The switch tables and the named-label table: what `collect_switch_cases` and `collect_labels`
 build, and that the label reached through them is the one the statement emits.
 */
module Switches {
  import opened Wrappers
  import opened Bits
  import opened Ast
  import opened Ir
  import opened IrGen
  import opened Semantics

  /** A `case` (with its expression) or `default` node. */
  datatype CaseNode = CaseNode(id: nat, e: Option<Expr>)

  /** The case and default nodes of the innermost enclosing switch, in source order. */
  function Cases(s: Stmt): seq<CaseNode> {
    match s
    case Case(id, e, b) => [CaseNode(id, Some(e))] + Cases(b)
    case Default(id, b) => [CaseNode(id, None)] + Cases(b)
    case Then(a, b) => Cases(a) + Cases(b)
    case Compound(b) => Cases(b)
    case If(_, a, b) => Cases(a) + if b.Some? then Cases(b.value) else []
    case While(_, b) => Cases(b)
    case DoWhile(b, _) => Cases(b)
    case For(_, _, _, b) => Cases(b)
    case Labelled(_, b) => Cases(b)
    case _ => []
  }

  /** The named labels of a function body, in source order. */
  function LabelNames(s: Stmt): seq<string> {
    match s
    case Labelled(x, b) => [x] + LabelNames(b)
    case Then(a, b) => LabelNames(a) + LabelNames(b)
    case Compound(b) => LabelNames(b)
    case If(_, a, b) => LabelNames(a) + if b.Some? then LabelNames(b.value) else []
    case While(_, b) => LabelNames(b)
    case DoWhile(b, _) => LabelNames(b)
    case For(_, _, _, b) => LabelNames(b)
    case Switch(_, b) => LabelNames(b)
    case Case(_, _, b) => LabelNames(b)
    case Default(_, b) => LabelNames(b)
    case _ => []
  }

  /**
   The constraints of C99 section 6.8.4.2 on one switch body, with case expressions that the
   compiler's constant evaluator gets right.
   */
  ghost predicate SwitchOk(body: Stmt) {
    && (forall i :: 0 <= i < |Cases(body)| && Cases(body)[i].e.Some? ==> FoldsRight(Cases(body)[i].e.value))
    && (forall i, j :: 0 <= i < j < |Cases(body)| ==> Differ(Cases(body)[i], Cases(body)[j]))
  }

  /** The nodes of one switch are distinct nodes. */
  ghost predicate DistinctNodes(ns: seq<CaseNode>) {
    forall i, j :: 0 <= i < j < |ns| ==> ns[i].id != ns[j].id
  }

  predicate Differ(a: CaseNode, b: CaseNode) {
    && a.id != b.id
    && (a.e.None? ==> b.e.Some?)
    && (a.e.Some? && b.e.Some? ==> EvalConst(a.e.value) != EvalConst(b.e.value))
  }

  // ----- the compiler's constant evaluator -----

  /** The expression under leading `+`, `-` and `~`. */
  function Core(e: Expr): (r: Expr)
    ensures r == e || r < e
  {
    if e.Unary? && e.uop != Bang then Core(e.operand) else e
  }

  function Signed(minus: bool, x: int): int {
    if minus then -x else x
  }

  /** The operators before the core map its value `x` to `Signed(Flips(e), x) + Offset(e)`. */
  predicate Flips(e: Expr) {
    e.Unary? && e.uop != Bang && (if e.uop == Plus then Flips(e.operand) else !Flips(e.operand))
  }

  function Offset(e: Expr): int {
    if !e.Unary? || e.uop == Bang then 0
    else if e.uop == Minus then -Offset(e.operand)
    else if e.uop == Tilde then -Offset(e.operand) - 1
    else Offset(e.operand)
  }

  /** The expression under all unary operators. */
  function Root(e: Expr): Expr {
    if e.Unary? then Root(e.operand) else e
  }

  /** An odd number of the unary operators are `-`. */
  predicate Minuses(e: Expr) {
    e.Unary? && (if e.uop == Minus then !Minuses(e.operand) else Minuses(e.operand))
  }

  /** The evaluator heeds `-` alone, and knows no operand but a literal. */
  lemma {:induction false} EvalConstIs(e: Expr)
    ensures EvalConst(e) == Signed(Minuses(e), if Root(e).IntLit? then Root(e).val else 0)
  {
    if e.Unary? {
      EvalConstIs(e.operand);
    }
  }

  /**
   When the evaluator is right. A literal under signs and `~` alone: the `~` cancel out. A literal
   under a `!`: with its minuses it happens to be what C makes of the truth value. Anything else: its
   value is the one that the operators take to 0.
   */
  predicate FoldsRight(e: Expr) {
    && CaseValue(e).Some? && CaseValue(Core(e)).Some?
    && if Core(e).IntLit? then Offset(e) == 0
       else if Root(e).IntLit? then
         Signed(Minuses(e), Root(e).val) == Signed(Flips(e), CaseValue(Core(e)).value) + Offset(e)
       else CaseValue(Core(e)).value == Signed(!Flips(e), Offset(e))
  }

  lemma {:induction false} Affine(e: Expr)
    requires CaseValue(e).Some?
    ensures CaseValue(Core(e)).Some?
    ensures CaseValue(e).value == Signed(Flips(e), CaseValue(Core(e)).value) + Offset(e)
    decreases e
  {
    if e.Unary? && e.uop != Bang {
      Affine(e.operand);
    }
  }

  /** Without a `!` the core is the root, and each `~` changes the sign once more than the minuses do. */
  lemma {:induction false} LiteralRoot(e: Expr)
    requires Core(e).IntLit?
    ensures Root(e) == Core(e) && (Flips(e) == Minuses(e)) == (Offset(e) % 2 == 0)
  {
    if e.Unary? {
      LiteralRoot(e.operand);
    }
  }

  lemma LiteralValue(v: int)
    ensures CaseValue(IntLit(v)).Some? ==> CaseValue(IntLit(v)).value == v
  {
  }

  /** The evaluator gives a constant expression its value exactly when `FoldsRight` says so. */
  lemma EvalConstExact(e: Expr)
    ensures CaseValue(e) == Some(EvalConst(e)) <==> FoldsRight(e)
  {
    hide Core, Root, Flips, Minuses, Offset, CaseValue, EvalConst;
    EvalConstIs(e);
    if CaseValue(e).Some? {
      Affine(e);
      if Core(e).IntLit? {
        LiteralRoot(e);
        LiteralValue(Core(e).val);
      }
    }
  }

  /** Signs before a literal do no harm. */
  predicate LiteralCase(e: Expr) {
    match e
    case IntLit(_) => true
    case Unary(op, a) => (op == Minus || op == Plus) && LiteralCase(a)
    case _ => false
  }

  lemma {:induction false} LiteralCaseValue(e: Expr)
    requires LiteralCase(e) && CaseValue(e).Some?
    ensures FoldsRight(e) && CaseValue(e) == Some(EvalConst(e))
  {
    SignedLiteral(e);
    Affine(e);
    EvalConstExact(e);
  }

  lemma {:induction false} SignedLiteral(e: Expr)
    requires LiteralCase(e)
    ensures Core(e).IntLit? && Offset(e) == 0
  {
    if e.Unary? {
      SignedLiteral(e.operand);
    }
  }

  /** `case 1 + 1:`, `case ~1:` and `case !5:` are valid C, but their entries in the table hold 0, 1 and 5. */
  lemma EvalConstIgnoresOperators()
    ensures var e := Binary(Add, IntLit(1), IntLit(1)); CaseValue(e) == Some(2) && EvalConst(e) == 0
    ensures var e := Unary(Tilde, IntLit(1)); CaseValue(e) == Some(-2) && EvalConst(e) == 1
    ensures var e := Unary(Bang, IntLit(5)); CaseValue(e) == Some(0) && EvalConst(e) == 5
  {
    assert EvalExpr(IntLit(1), [], map[]) == Some((1, map[]));
  }

  /** The label a switch on `v` jumps to: entries are compared from the head of the list. */
  function FindVal(cases: seq<CaseEntry>, v: int): Option<nat> {
    if cases == [] then None
    else if !cases[0].isDefault && cases[0].val == v then Some(cases[0].target)
    else FindVal(cases[1..], v)
  }

  function TargetLabel(env: Env, t: Target): Option<nat> {
    match t
    case CaseT(v) => FindVal(env.cases, v)
    case DefaultT => if env.dflt != 0 then Some(env.dflt) else None
    case LabelT(x) => Lookup(env.gotos, x)
  }

  /** The table entry of node `n` is the one its own value leads to. */
  predicate EntryOk(cases: seq<CaseEntry>, dflt: nat, n: CaseNode) {
    if n.e.None? then dflt != 0 && FindCase(cases, n.id, true) == Some(dflt)
    else
      && CaseValue(n.e.value).Some?
      && FindCase(cases, n.id, false).Some?
      && FindVal(cases, CaseValue(n.e.value).value) == FindCase(cases, n.id, false)
  }

  ghost predicate CasesOk(env: Env, s: Stmt) {
    forall n :: n in Cases(s) ==> EntryOk(env.cases, env.dflt, n)
  }

  ghost predicate NamesOk(env: Env, s: Stmt) {
    forall x :: x in LabelNames(s) ==> Lookup(env.gotos, x).Some?
  }

  ghost predicate Tables(env: Env, s: Stmt) {
    CasesOk(env, s) && NamesOk(env, s)
  }

  /** The first clause of a `for` is empty, an expression or declarations. */
  predicate SimpleInit(s: Stmt) {
    match s
    case End => true
    case Decl(_, _, _) => true
    case ExprStmt(_) => true
    case Then(a, b) => SimpleInit(a) && SimpleInit(b)
    case _ => false
  }

  /** Every switch in `s` satisfies its constraints and every `for` has a proper first clause. */
  ghost predicate Shaped(s: Stmt) {
    match s
    case Then(a, b) => Shaped(a) && Shaped(b)
    case Compound(b) => Shaped(b)
    case If(_, a, b) => Shaped(a) && (b.Some? ==> Shaped(b.value))
    case While(_, b) => Shaped(b)
    case DoWhile(b, _) => Shaped(b)
    case For(start, _, _, b) => SimpleInit(start) && Shaped(b)
    case Switch(_, b) => SwitchOk(b) && Shaped(b)
    case Case(_, _, b) => Shaped(b)
    case Default(_, b) => Shaped(b)
    case Labelled(_, b) => Shaped(b)
    case _ => true
  }

  /** Every switch in `s` has distinct nodes and every `for` a proper first clause: all that labels depend on. */
  ghost predicate Formed(s: Stmt) {
    match s
    case Then(a, b) => Formed(a) && Formed(b)
    case Compound(b) => Formed(b)
    case If(_, a, b) => Formed(a) && (b.Some? ==> Formed(b.value))
    case While(_, b) => Formed(b)
    case DoWhile(b, _) => Formed(b)
    case For(start, _, _, b) => SimpleInit(start) && Formed(b)
    case Switch(_, b) => DistinctNodes(Cases(b)) && Formed(b)
    case Case(_, _, b) => Formed(b)
    case Default(_, b) => Formed(b)
    case Labelled(_, b) => Formed(b)
    case _ => true
  }

  lemma {:induction false} ShapedFormed(s: Stmt)
    requires Shaped(s)
    ensures Formed(s)
    decreases s
  {
    match s
    case Then(a, b) => ShapedFormed(a); ShapedFormed(b);
    case Compound(b) => ShapedFormed(b);
    case If(_, a, b) => ShapedFormed(a); if b.Some? { ShapedFormed(b.value); }
    case While(_, b) => ShapedFormed(b);
    case DoWhile(b, _) => ShapedFormed(b);
    case For(_, _, _, b) => ShapedFormed(b);
    case Switch(_, b) =>
      ShapedFormed(b);
      assert forall i, j :: 0 <= i < j < |Cases(b)| ==> Differ(Cases(b)[i], Cases(b)[j]);
    case Case(_, _, b) => ShapedFormed(b);
    case Default(_, b) => ShapedFormed(b);
    case Labelled(_, b) => ShapedFormed(b);
    case _ =>
  }

  // ----- what the collector builds -----

  function EntryFor(n: CaseNode, l: nat): CaseEntry {
    CaseEntry(n.id, if n.e.Some? then EvalConst(n.e.value) else 0, n.e.None?, l)
  }

  /** Node `i` gets label `nl + i`; later nodes stand nearer the head. */
  function Entries(ns: seq<CaseNode>, nl: nat): (es: seq<CaseEntry>)
    ensures |es| == |ns|
    ensures forall i :: 0 <= i < |ns| ==> es[|ns| - 1 - i] == EntryFor(ns[i], nl + i)
  {
    if ns == [] then []
    else
      var rest := Entries(ns[1..], nl + 1);
      assert forall i :: 1 <= i < |ns| ==> ns[i] == ns[1..][i - 1];
      rest + [EntryFor(ns[0], nl)]
  }

  function LastDefault(ns: seq<CaseNode>, nl: nat, d: nat): nat {
    if ns == [] then d
    else LastDefault(ns[1..], nl + 1, if ns[0].e.None? then nl else d)
  }

  lemma {:induction false} EntriesAppend(a: seq<CaseNode>, b: seq<CaseNode>, nl: nat, d: nat)
    ensures Entries(a + b, nl) == Entries(b, nl + |a|) + Entries(a, nl)
    ensures LastDefault(a + b, nl, d) == LastDefault(b, nl + |a|, LastDefault(a, nl, d))
  {
    if a == [] {
      assert a + b == b;
    } else {
      EntriesAppend(a[1..], b, nl + 1, if a[0].e.None? then nl else d);
      assert (a + b)[1..] == a[1..] + b;
      assert (a + b)[0] == a[0];
    }
  }

  /** `r` is `c` with the nodes `ns` entered, each with the next free label. */
  predicate Collects(ns: seq<CaseNode>, c: Collected, r: Collected) {
    && r.nl == c.nl + |ns|
    && r.cases == Entries(ns, c.nl) + c.cases
    && r.dflt == LastDefault(ns, c.nl, c.dflt)
  }

  lemma CollectsNone(c: Collected)
    ensures Collects([], c, c)
  {
  }

  lemma CollectsOne(n: CaseNode, c: Collected)
    ensures Collects([n], c, Collected(c.nl + 1, [EntryFor(n, c.nl)] + c.cases, if n.e.None? then c.nl else c.dflt))
  {
    assert [n][1..] == [];
  }

  lemma CollectsBoth(a: seq<CaseNode>, b: seq<CaseNode>, c: Collected, r1: Collected, r2: Collected)
    requires Collects(a, c, r1) && Collects(b, r1, r2)
    ensures Collects(a + b, c, r2)
  {
    EntriesAppend(a, b, c.nl, c.dflt);
  }

  /** The collector's result depends only on the nodes of this switch, in order. */
  lemma {:induction false} CollectIs(s: Stmt, c: Collected)
    ensures Collects(Cases(s), c, CollectCases(s, c))
    decreases s
  {
    hide Collects;
    CollectsNone(c);
    match s
    case Case(id, e, b) =>
      var c1 := Collected(c.nl + 1, [CaseEntry(id, EvalConst(e), false, c.nl)] + c.cases, c.dflt);
      CollectsOne(CaseNode(id, Some(e)), c);
      CollectIs(b, c1);
      CollectsBoth([CaseNode(id, Some(e))], Cases(b), c, c1, CollectCases(b, c1));
    case Default(id, b) =>
      var c1 := Collected(c.nl + 1, [CaseEntry(id, 0, true, c.nl)] + c.cases, c.nl);
      CollectsOne(CaseNode(id, None), c);
      CollectIs(b, c1);
      CollectsBoth([CaseNode(id, None)], Cases(b), c, c1, CollectCases(b, c1));
    case Then(a, b) =>
      var c1 := CollectCases(a, c);
      CollectIs(a, c);
      CollectIs(b, c1);
      CollectsBoth(Cases(a), Cases(b), c, c1, CollectCases(b, c1));
    case Compound(b) => CollectIs(b, c);
    case If(_, a, b) =>
      var c1 := CollectCases(a, c);
      CollectIs(a, c);
      if b.Some? {
        CollectIs(b.value, c1);
        CollectsBoth(Cases(a), Cases(b.value), c, c1, CollectCases(b.value, c1));
      } else {
        assert Cases(s) == Cases(a);
      }
    case While(_, b) => CollectIs(b, c);
    case DoWhile(b, _) => CollectIs(b, c);
    case For(_, _, _, b) => CollectIs(b, c);
    case Labelled(_, b) => CollectIs(b, c);
    case _ =>
  }

  lemma {:induction false} FindCaseAt(es: seq<CaseEntry>, i: nat)
    requires i < |es|
    requires forall j :: 0 <= j < i ==> es[j].id != es[i].id
    ensures FindCase(es, es[i].id, es[i].isDefault) == Some(es[i].target)
  {
    if i > 0 {
      FindCaseAt(es[1..], i - 1);
    }
  }

  lemma {:induction false} FindValAt(es: seq<CaseEntry>, i: nat)
    requires i < |es| && !es[i].isDefault
    requires forall j :: 0 <= j < i ==> es[j].isDefault || es[j].val != es[i].val
    ensures FindVal(es, es[i].val) == Some(es[i].target)
  {
    if i > 0 {
      FindValAt(es[1..], i - 1);
    }
  }

  lemma {:induction false} LastDefaultAt(ns: seq<CaseNode>, nl: nat, d: nat, i: nat)
    requires i < |ns| && ns[i].e.None?
    requires forall j :: i < j < |ns| ==> ns[j].e.Some?
    ensures LastDefault(ns, nl, d) == nl + i
  {
    if i > 0 {
      LastDefaultAt(ns[1..], nl + 1, if ns[0].e.None? then nl else d, i - 1);
    } else {
      NoDefault(ns[1..], nl + 1, nl);
    }
  }

  lemma {:induction false} NoDefault(ns: seq<CaseNode>, nl: nat, d: nat)
    requires forall j :: 0 <= j < |ns| ==> ns[j].e.Some?
    ensures LastDefault(ns, nl, d) == d
  {
    if ns != [] {
      NoDefault(ns[1..], nl + 1, d);
    }
  }

  /** Entries nearer the head than node `i`'s belong to later nodes, which differ from it. */
  lemma EntriesDiffer(ns: seq<CaseNode>, nl: nat, i: nat, j: nat)
    requires forall p, q :: 0 <= p < q < |ns| ==> Differ(ns[p], ns[q])
    requires i < |ns| && j < |ns| - 1 - i
    ensures var es := Entries(ns, nl); var k := |ns| - 1 - i;
            es[j].id != es[k].id && (es[j].isDefault || es[k].isDefault || es[j].val != es[k].val)
  {
    var i2 := |ns| - 1 - j;
    assert Entries(ns, nl)[|ns| - 1 - i2] == EntryFor(ns[i2], nl + i2);
    assert Entries(ns, nl)[|ns| - 1 - i] == EntryFor(ns[i], nl + i);
    assert Differ(ns[i], ns[i2]);
  }

  /** Entries are found by node alone: node `i` has label `nl + i`. */
  lemma NodeNumber(ns: seq<CaseNode>, nl: nat, i: nat)
    requires i < |ns| && DistinctNodes(ns)
    ensures FindCase(Entries(ns, nl), ns[i].id, ns[i].e.None?) == Some(nl + i)
  {
    var es, k := Entries(ns, nl), |ns| - 1 - i;
    assert es[|ns| - 1 - i] == EntryFor(ns[i], nl + i);
    forall j | 0 <= j < k
      ensures es[j].id != es[k].id
    {
      var i2 := |ns| - 1 - j;
      assert es[|ns| - 1 - i2] == EntryFor(ns[i2], nl + i2);
    }
    FindCaseAt(es, k);
  }

  lemma NodeLeads(ns: seq<CaseNode>, nl: nat, env: Env, i: nat)
    requires forall p, q :: 0 <= p < q < |ns| ==> Differ(ns[p], ns[q])
    requires i < |ns| && nl >= 1
    requires ns[i].e.Some? ==> CaseValue(ns[i].e.value) == Some(EvalConst(ns[i].e.value))
    requires env.cases == Entries(ns, nl) && env.dflt == LastDefault(ns, nl, 0)
    ensures EntryOk(env.cases, env.dflt, ns[i])
  {
    hide Entries, LastDefault;
    var es := Entries(ns, nl);
    var k := |ns| - 1 - i;
    assert es[|ns| - 1 - i] == EntryFor(ns[i], nl + i);
    forall j | 0 <= j < k
      ensures es[j].id != es[k].id && (es[j].isDefault || es[k].isDefault || es[j].val != es[k].val)
    {
      EntriesDiffer(ns, nl, i, j);
    }
    FindCaseAt(es, k);
    if ns[i].e.Some? {
      FindValAt(es, k);
    } else {
      assert forall j :: i < j < |ns| ==> Differ(ns[i], ns[j]);
      LastDefaultAt(ns, nl, 0, i);
    }
  }

  /** Every value a table is searched for is an `int`. */
  predicate IntCases(cases: seq<CaseEntry>) {
    forall i :: 0 <= i < |cases| && !cases[i].isDefault ==> Int32(cases[i].val)
  }

  lemma CaseValues(b: Stmt)
    requires SwitchOk(b)
    ensures forall i :: 0 <= i < |Cases(b)| && Cases(b)[i].e.Some? ==>
              CaseValue(Cases(b)[i].e.value) == Some(EvalConst(Cases(b)[i].e.value))
  {
    forall i | 0 <= i < |Cases(b)| && Cases(b)[i].e.Some?
      ensures CaseValue(Cases(b)[i].e.value) == Some(EvalConst(Cases(b)[i].e.value))
    {
      EvalConstExact(Cases(b)[i].e.value);
    }
  }

  lemma CollectedInts(b: Stmt, nl: nat)
    requires SwitchOk(b)
    ensures IntCases(CollectCases(b, Collected(nl, [], 0)).cases)
  {
    CaseValues(b);
    var ns := Cases(b);
    CollectIs(b, Collected(nl, [], 0));
    var es := Entries(ns, nl);
    forall k | 0 <= k < |es| && !es[k].isDefault
      ensures Int32(es[k].val)
    {
      var i := |ns| - 1 - k;
      assert es[|ns| - 1 - i] == EntryFor(ns[i], nl + i);
      EvalInt(ns[i].e.value, [], map[]);
    }
  }

  /** The tables of a switch lead every node of its body to the label assigned to that very node. */
  lemma CollectedTables(b: Stmt, nl: nat, env: Env)
    requires SwitchOk(b) && nl >= 1
    requires var c := CollectCases(b, Collected(nl, [], 0)); env.cases == c.cases && env.dflt == c.dflt
    ensures forall n :: n in Cases(b) ==> EntryOk(env.cases, env.dflt, n)
  {
    var ns := Cases(b);
    CaseValues(b);
    CollectIs(b, Collected(nl, [], 0));
    forall i | 0 <= i < |ns|
      ensures EntryOk(env.cases, env.dflt, ns[i])
    {
      NodeLeads(ns, nl, env, i);
    }
  }

  /** A body without a given case value, or without a default, has no table entry for it. */
  lemma {:induction false} NoSuchCase(ns: seq<CaseNode>, nl: nat, v: int)
    requires forall i :: 0 <= i < |ns| && ns[i].e.Some? ==> EvalConst(ns[i].e.value) != v
    ensures FindVal(Entries(ns, nl), v) == None
  {
    var es := Entries(ns, nl);
    forall k | 0 <= k < |es|
      ensures es[k].isDefault || es[k].val != v
    {
      var i := |ns| - 1 - k;
      assert es[|ns| - 1 - i] == EntryFor(ns[i], nl + i);
    }
    FindValNone(es, v);
  }

  lemma {:induction false} FindValNone(es: seq<CaseEntry>, v: int)
    requires forall k :: 0 <= k < |es| ==> es[k].isDefault || es[k].val != v
    ensures FindVal(es, v) == None
  {
    if es != [] {
      FindValNone(es[1..], v);
    }
  }

  /** Having a case label, in the meaning of the source, is having its node. */
  lemma {:induction false} HasCase(s: Stmt, t: Target)
    requires !t.LabelT?
    ensures Has(s, t) <==> exists n :: n in Cases(s) && NodeIs(n, t)
    decreases s
  {
    match s
    case Then(a, b) => HasCase(a, t); HasCase(b, t);
    case Compound(b) => HasCase(b, t);
    case If(_, a, b) => HasCase(a, t); if b.Some? { HasCase(b.value, t); }
    case While(_, b) => HasCase(b, t);
    case DoWhile(b, _) => HasCase(b, t);
    case For(_, _, _, b) => HasCase(b, t);
    case Case(id, e, b) => HasCase(b, t); assert CaseNode(id, Some(e)) in Cases(s);
    case Default(id, b) => HasCase(b, t); assert CaseNode(id, None) in Cases(s);
    case Labelled(_, b) => HasCase(b, t);
    case _ =>
  }

  predicate NodeIs(n: CaseNode, t: Target) {
    match t
    case CaseT(v) => n.e.Some? && CaseValue(n.e.value) == Some(v)
    case DefaultT => n.e.None?
    case LabelT(_) => false
  }

  /** The dispatch reaches the entry C99 prescribes: the matching case, else default, else the end. */
  lemma DispatchTarget(b: Stmt, nl: nat, v: int, env: Env)
    requires SwitchOk(b) && nl >= 1
    requires var c := CollectCases(b, Collected(nl, [], 0)); env.cases == c.cases && env.dflt == c.dflt
    ensures match Entry(b, v)
            case Some(CaseT(w)) => w == v && FindVal(env.cases, v).Some?
            case Some(_) => Entry(b, v).value == DefaultT && FindVal(env.cases, v).None? && env.dflt != 0
            case None => FindVal(env.cases, v).None? && env.dflt == 0
  {
    hide CollectCases, Cases, Has;
    CollectIs(b, Collected(nl, [], 0));
    CaseValues(b);
    CollectedTables(b, nl, env);
    HasCase(b, CaseT(v));
    HasCase(b, DefaultT);
    assert env.cases == Entries(Cases(b), nl);
    TableEntry(Cases(b), nl, v, env);
  }

  /** A table holds an entry for a value exactly when a node has it, and a default when a node is one. */
  lemma TableEntry(ns: seq<CaseNode>, nl: nat, v: int, env: Env)
    requires env.cases == Entries(ns, nl) && env.dflt == LastDefault(ns, nl, 0)
    requires forall n :: n in ns ==> EntryOk(env.cases, env.dflt, n)
    requires forall i :: 0 <= i < |ns| && ns[i].e.Some? ==> CaseValue(ns[i].e.value) == Some(EvalConst(ns[i].e.value))
    ensures FindVal(env.cases, v).Some? <==> exists n :: n in ns && NodeIs(n, CaseT(v))
    ensures env.dflt != 0 <==> exists n :: n in ns && NodeIs(n, DefaultT)
  {
    hide Entries, LastDefault, EvalConst, CaseValue;
    if n :| n in ns && NodeIs(n, CaseT(v)) {
      assert EntryOk(env.cases, env.dflt, n);
    } else {
      assert forall i :: 0 <= i < |ns| && ns[i].e.Some? ==> !NodeIs(ns[i], CaseT(v));
      NoSuchCase(ns, nl, v);
    }
    if n :| n in ns && NodeIs(n, DefaultT) {
      assert EntryOk(env.cases, env.dflt, n);
    } else {
      assert forall i :: 0 <= i < |ns| ==> !NodeIs(ns[i], DefaultT);
      NoDefault(ns, nl, 0);
    }
  }

  // ----- the label is emitted -----

  predicate Emitted(code: seq<Instr>, l: nat) {
    Label(l) in code
  }

  lemma EmittedGrows(o1: Out, o2: Out, l: nat)
    requires Extends(o1, o2) && Emitted(o1.code, l)
    ensures Emitted(o2.code, l)
  {
    var i :| 0 <= i < |o1.code| && o1.code[i] == Label(l);
    assert o2.code[i] == Label(l);
  }

  /** What a label in the code comes from: a node of the current switch, or a name. */
  datatype Mark = NodeMark(n: CaseNode) | NameMark(x: string)

  predicate Carries(s: Stmt, k: Mark) {
    match k
    case NodeMark(n) => n in Cases(s)
    case NameMark(x) => x in LabelNames(s)
  }

  function MarkLabel(env: Env, k: Mark): Option<nat> {
    match k
    case NodeMark(n) => FindCase(env.cases, n.id, n.e.None?)
    case NameMark(x) => Lookup(env.gotos, x)
  }

  /** Whatever `s` carries has its label emitted in its code, under the number the tables give it. */
  lemma {:induction false} MarkEmitted(env: Env, gs: Scope, o: Out, s: Stmt, k: Mark)
    requires ScopeBelow(gs, o.nt) && Carries(s, k) && MarkLabel(env, k).Some?
    ensures Emitted(GenStmt(env, gs, o, s).0.code, MarkLabel(env, k).value)
    decreases s, 0
  {
    hide Extends;
    var l := MarkLabel(env, k).value;
    match s
    case Then(a, b) =>
      var (o1, gs1) := GenStmt(env, gs, o, a);
      if Carries(a, k) {
        MarkEmitted(env, gs, o, a, k);
        EmittedGrows(o1, GenStmt(env, gs1, o1, b).0, l);
      } else {
        MarkEmitted(env, gs1, o1, b, k);
      }
    case Compound(b) => MarkEmitted(env, gs, o, b, k);
    case If(_, a, b) =>
      var (o2, gs2) := IfThen(env, gs, o, s);
      if Carries(a, k) {
        MarkEmitted(env, gs, GenTest(gs, NewLabels(o, 2), Some(s.cond), o.nl), a, k);
        EmittedGrows(o2, GenIf(env, gs, o, s).0, l);
      } else {
        MarkEmitted(env, gs2, Emit(Emit(o2, Jmp(o.nl + 1)), Label(o.nl)), b.value, k);
        EmittedGrows(IfElse(env, gs, o, s).0, GenIf(env, gs, o, s).0, l);
      }
    case While(_, b) =>
      MarkEmitted(env.(brk := o.nl + 2, cont := o.nl), gs, WhileStart(gs, o, s), b, k);
      EmittedGrows(WhileBody(env, gs, o, s).0, GenWhile(env, gs, o, s).0, l);
    case DoWhile(b, _) =>
      MarkEmitted(env.(brk := o.nl + 2, cont := o.nl + 1), gs, Emit(NewLabels(o, 3), Label(o.nl)), b, k);
      EmittedGrows(DoBody(env, gs, o, s).0, GenDoWhile(env, gs, o, s).0, l);
    case For(start, test, incr, b) =>
      var (o1, gs1) := ForInit(env, gs, o, s);
      var env1 := ForEnv(env, o.nl);
      MarkEmitted(env1, gs1, ForStart(gs1, o1, s, o.nl), b, k);
      EmittedGrows(ForBody(env1, gs1, o1, s, o.nl).0, GenForLoop(env1, gs1, o1, s, o.nl), l);
    case Switch(e, b) =>
      MarkEmitted(SwitchEnv(env, o, s), gs, SwitchStart(gs, o, s), b, k);
      EmittedGrows(SwitchBody(env, gs, o, s).0, GenSwitch(env, gs, o, s).0, l);
    case Case(id, e, b) => OwnOrInner(env, gs, o, NodeMark(CaseNode(id, Some(e))), k, b);
    case Default(id, b) => OwnOrInner(env, gs, o, NodeMark(CaseNode(id, None)), k, b);
    case Labelled(x, b) => OwnOrInner(env, gs, o, NameMark(x), k, b);
  }

  lemma {:induction false} OwnOrInner(env: Env, gs: Scope, o: Out, own: Mark, k: Mark, b: Stmt)
    requires ScopeBelow(gs, o.nt) && MarkLabel(env, k).Some? && (k == own || Carries(b, k))
    ensures Emitted(GenStmt(env, gs, EmitOptLabel(o, MarkLabel(env, own)), b).0.code, MarkLabel(env, k).value)
    decreases b, 1
  {
    if k == own {
      LabelThenBody(env, gs, o, MarkLabel(env, own), b);
    } else {
      MarkEmitted(env, gs, EmitOptLabel(o, MarkLabel(env, own)), b, k);
    }
  }

  lemma LabelThenBody(env: Env, gs: Scope, o: Out, l: Option<nat>, b: Stmt)
    requires ScopeBelow(gs, o.nt) && l.Some?
    ensures Emitted(GenStmt(env, gs, EmitOptLabel(o, l), b).0.code, l.value)
  {
    var o1 := EmitOptLabel(o, l);
    assert o1.code[|o.code|] == Label(l.value);
    EmittedGrows(o1, GenStmt(env, gs, o1, b).0, l.value);
  }

  lemma {:induction false} HasLabel(s: Stmt, x: string)
    ensures Has(s, LabelT(x)) <==> x in LabelNames(s)
    decreases s
  {
    match s
    case Then(a, b) => HasLabel(a, x); HasLabel(b, x);
    case Compound(b) => HasLabel(b, x);
    case If(_, a, b) => HasLabel(a, x); if b.Some? { HasLabel(b.value, x); }
    case While(_, b) => HasLabel(b, x);
    case DoWhile(b, _) => HasLabel(b, x);
    case For(_, _, _, b) => HasLabel(b, x);
    case Switch(_, b) => HasLabel(b, x);
    case Case(_, _, b) => HasLabel(b, x);
    case Default(_, b) => HasLabel(b, x);
    case Labelled(_, b) => HasLabel(b, x);
    case _ =>
  }

  /** Every target that `s` contains is emitted in its code, where the tables lead to it. */
  lemma TargetEmitted(env: Env, gs: Scope, o: Out, s: Stmt, t: Target)
    requires ScopeBelow(gs, o.nt) && Has(s, t)
    requires if t.LabelT? then NamesOk(env, s) else CasesOk(env, s)
    ensures TargetLabel(env, t).Some?
    ensures Emitted(GenStmt(env, gs, o, s).0.code, TargetLabel(env, t).value)
  {
    hide GenStmt, Has, Emitted;
    if t.LabelT? {
      HasLabel(s, t.name);
      MarkEmitted(env, gs, o, s, NameMark(t.name));
    } else {
      HasCase(s, t);
      var n :| n in Cases(s) && NodeIs(n, t);
      assert EntryOk(env.cases, env.dflt, n);
      MarkEmitted(env, gs, o, s, NodeMark(n));
    }
  }
}
