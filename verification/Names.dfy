/**
 Which names are types, as scopes and definitions settle it, and the shapes of declarators: whether
 one declares a function, and with which parameters.
 */
module Names {
  import opened Wrappers
  import opened Syntax

  /** As much of a declarator's type as later choices look at. A grouped declarator starts with a hole. */
  datatype Shape = Hole | Object | Pointer(of: Shape) | Array(of: Shape) | Function(of: Shape, params: seq<Option<string>>)

  /** Fill the hole of a grouped declarator's outermost type constructor. */
  function Patch(inner: Shape, suffix: Shape): Shape {
    if inner.Hole? then suffix
    else if (inner.Pointer? || inner.Array? || inner.Function?) && inner.of.Hole? then inner.(of := suffix)
    else inner
  }

  datatype Symbol = TypeName(shape: Shape) | OtherName

  /** The innermost scope comes first, and in a scope the latest definition. */
  type Scopes = seq<seq<(string, Symbol)>>

  /** All scopes but the innermost. */
  function Outer(scopes: Scopes): Scopes
    requires scopes != []
  {
    scopes[1..]
  }

  function InScope(scope: seq<(string, Symbol)>, x: string): Option<Symbol> {
    if scope == [] then None else if scope[0].0 == x then Some(scope[0].1) else InScope(scope[1..], x)
  }

  function Resolve(scopes: Scopes, x: string): Option<Symbol> {
    if scopes == [] then None
    else if InScope(scopes[0], x).Some? then InScope(scopes[0], x)
    else Resolve(scopes[1..], x)
  }

  /** The visible names that are types. */
  ghost function TypesOf(scopes: Scopes): iset<string> {
    iset x: string | Resolve(scopes, x).Some? && Resolve(scopes, x).value.TypeName?
  }

  /** A definition in the innermost scope makes its name a type or hides one. */
  lemma DefinedTypes(scopes: Scopes, x: string, s: Symbol)
    requires scopes != []
    ensures TypesOf([[(x, s)] + scopes[0]] + scopes[1..]) ==
            Naming(TypesOf(scopes), x, s.TypeName?)
  {
    var scopes1 := [[(x, s)] + scopes[0]] + scopes[1..];
    forall y: string
      ensures Resolve(scopes1, y) == if y == x then Some(s) else Resolve(scopes, y)
    {
      assert ([(x, s)] + scopes[0])[1..] == scopes[0];
      assert scopes1[1..] == scopes[1..];
    }
  }

  /** An empty scope changes nothing. */
  lemma EnteredTypes(scopes: Scopes)
    ensures TypesOf([[]] + scopes) == TypesOf(scopes)
  {
    assert ([[]] + scopes)[1..] == scopes;
  }

  lemma NoTypes()
    ensures TypesOf([[]]) == iset{}
  {
    forall x: string
      ensures Resolve([[]], x) == None
    {
      var scopes: Scopes := [[]];
      assert scopes[1..] == [];
    }
  }

  // ----- the shapes of declarators -----

  /** A declarator of a function has the shape of one with these parameters, and a bare name that of its base. */
  predicate DeclaratorShape(d: Declarator, base: Shape, shape: Shape) {
    && (Transparent(d) ==> shape == base)
    && (FunctionParams(d).Some? ==> shape.Function? && shape.params == ParamNames(FunctionParams(d).value))
  }

  predicate GroupShape(d: Declarator, base: Shape, shape: Shape)
    requires d.core.Grouped?
  {
    && (Transparent(d.core.d) && d.suffixes == [] ==> shape == base)
    && (FunctionParams(d).Some? ==> shape.Function? && shape.params == ParamNames(FunctionParams(d).value))
  }

  lemma GroupShapes(d: Declarator, base: Shape, inner: Shape, suffix: Shape)
    requires d.core.Grouped? && DeclaratorShape(d.core.d, Hole, inner)
    requires d.suffixes == [] ==> suffix == base
    requires |d.suffixes| == 1 && d.suffixes[0].Params? ==> suffix == Function(base, ParamNames(d.suffixes[0].ps))
    ensures GroupShape(d, base, Patch(inner, suffix))
  {
    hide ParamNames;
  }

  lemma GroupDeclares(d: Declarator, base: Shape, n: nat, shape: Shape)
    requires d.core.Grouped? && n == |d.stars| && GroupShape(d, Pointers(n, base), shape)
    ensures DeclaratorShape(d, base, shape)
  {
    hide ParamNames;
  }

  lemma NameDeclares(d: Declarator, base: Shape, n: nat, shape: Shape)
    requires !d.core.Grouped? && n == |d.stars|
    requires d.suffixes == [] ==> shape == Pointers(n, base)
    requires |d.suffixes| == 1 && d.suffixes[0].Params? ==>
               shape == Function(Pointers(n, base), ParamNames(d.suffixes[0].ps))
    ensures DeclaratorShape(d, base, shape)
  {
    hide ParamNames;
  }

  function ParamNames(ps: seq<Param>): seq<Option<string>> {
    if ps == [] then [] else ParamNames(ps[..|ps| - 1]) + [Declared(ps[|ps| - 1].d)]
  }

  function Pointers(n: nat, base: Shape): Shape {
    if n == 0 then base else Pointer(Pointers(n - 1, base))
  }

  lemma {:induction false} ParamNamesAre(ps: seq<Param>)
    ensures |ParamNames(ps)| == |ps| && forall i :: 0 <= i < |ps| ==> ParamNames(ps)[i] == Declared(ps[i].d)
    decreases |ps|
  {
    hide Declared;
    if ps != [] {
      ParamNamesAre(ps[..|ps| - 1]);
    }
  }

  lemma HideStep(ps: seq<Param>, i: nat, ts: iset<string>)
    requires i < |ps|
    ensures HideNames(ps[i..], ts) == HideNames(ps[i + 1..], AfterName(ps[i].d, false, ts))
  {
    hide AfterName;
    assert ps[i..][0] == ps[i] && ps[i..][1..] == ps[i + 1..];
  }

  lemma HideDone(ps: seq<Param>, ts: iset<string>)
    ensures HideNames(ps[|ps|..], ts) == ts
  {
  }
}
