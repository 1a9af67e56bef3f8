/**
 Concrete C: the trees of expressions, types, declarations, statements and translation units, the
 tokens each of them stands for, and which of them are C99. The grammar is that of sections 6.5 to
 6.9 with the levels of `CGrammar`; it says nothing about how anything is parsed.

 Names are types or not by declaration, so the trees are judged with the set of visible type names.
 The differences between this grammar and C99 are listed in README.md.
 */
module Syntax {
  import opened Wrappers
  import opened Pratt
  import G = CGrammar

  datatype Word =
    | Auto | Break | Case | KwChar | Const | Continue | Default | Do | KwDouble | Else | Enum | Extern | KwFloat
    | For | Goto | If | Inline | KwInt | KwLong | Register | Restrict | Return | KwShort | KwSigned | Sizeof
    | Static | Struct | Switch | Typedef | Union | KwUnsigned | KwVoid | Volatile | While | KwBool | KwComplex
    | KwImaginary | Pragma | Alignof
    | Attribute | Asm | BuiltinVaList | Extension | Nonnull | Noreturn | Nullable | Typeof
    | Ellipsis | Hash | Bad | Eof

  datatype Tok = Plain(t: Token) | Key(k: Word)

  // ----- trees -----

  /** `SizeofGroup` is `sizeof` with an expression in parentheses, `SizeofExpr` with any other. */
  datatype Expr =
    | Leaf(t: Token)
    | Group(e: Expr)
    | UnaryOp(op: Token, e: Expr)
    | BinaryOp(op: Token, l: Expr, r: Expr)
    | Choice(c: Expr, a: Expr, b: Expr)
    | CallOf(f: Expr, args: seq<Expr>)
    | Subscript(e: Expr, i: Expr)
    | Select(e: Expr, op: Token, x: string)
    | After(e: Expr, op: Token)
    | CastTo(ty: CType, e: Expr)
    | Compound(ty: CType, body: Braces)
    | SizeofExpr(e: Expr)
    | SizeofGroup(e: Expr)
    | SizeofType(ty: CType)
    | AlignofType(ty: CType)

  /** A type name: specifiers and an abstract declarator. */
  datatype CType = CType(specs: seq<Spec>, d: Declarator)

  datatype Spec =
    | SpecWord(k: Word)
    | SpecName(x: string)
    | Record(k: Word, tag: Option<string>, members: Option<MemberList>)
    | Enumeration(tag: Option<string>, enums: Option<EnumeratorList>)

  datatype MemberList = MemberList(list: seq<MemberDecl>)

  datatype MemberDecl = MemberDecl(specs: seq<Spec>, fields: seq<FieldDecl>)

  datatype FieldDecl = FieldDecl(d: Declarator, width: Option<Expr>)

  datatype EnumeratorList = EnumeratorList(list: seq<Enumerator>, trailing: bool)

  datatype Enumerator = Enumerator(x: string, value: Option<Expr>)

  /** Each star has its own qualifiers. */
  datatype Declarator = Declarator(stars: seq<seq<Word>>, core: Core, suffixes: seq<Suffix>)

  datatype Core = NoName | NameOf(x: string) | Grouped(d: Declarator)

  datatype Suffix = Bounds(size: Option<Expr>) | Params(ps: seq<Param>, ellipsis: bool)

  datatype Param = Param(specs: seq<Spec>, d: Declarator)

  datatype Init = Value(e: Expr) | List(b: Braces)

  datatype Braces = Braces(items: seq<Item>, trailing: bool)

  datatype Item = Item(at: Option<Designator>, init: Init)

  datatype Designator = Place(i: Expr) | FieldNamed(x: string)

  datatype Declaration = Declaration(specs: seq<Spec>, ds: seq<InitDeclarator>)

  datatype InitDeclarator = InitDeclarator(d: Declarator, init: Option<Init>)

  /**
   A `case` or `default` label without a statement stands directly before another one, or at the end
   of a block: `case 1: case 2: s` in a block is two items.
   */
  datatype Stmt =
    | EmptyStmt
    | ExprStmt(e: Expr)
    | Block(items: seq<Stmt>)
    | DeclStmt(d: Declaration)
    | IfStmt(c: Expr, a: Stmt, b: Option<Stmt>)
    | WhileStmt(c: Expr, s: Stmt)
    | DoStmt(s: Stmt, c: Expr)
    | ForStmt(init: ForInit, test: Option<Expr>, step: Option<Expr>, s: Stmt)
    | SwitchStmt(c: Expr, s: Stmt)
    | CaseStmt(e: Expr, then_: Option<Stmt>)
    | DefaultStmt(then_: Option<Stmt>)
    | LabelStmt(x: string, s: Stmt)
    | GotoStmt(x: string)
    | ReturnStmt(value: Option<Expr>)
    | BreakStmt
    | ContinueStmt

  datatype ForInit = NoInit | InitExpr(e: Expr) | InitDecl(d: Declaration)

  datatype External = FunctionDef(specs: seq<Spec>, d: Declarator, body: seq<Stmt>) | Declares(decl: Declaration)

  // ----- tokens -----

  function Ts(t: Token): seq<Tok> { [Plain(t)] }

  function Ks(k: Word): seq<Tok> { [Key(k)] }

  function FlatExpr(e: Expr): seq<Tok> {
    match e
    case Leaf(t) => Ts(t)
    case Group(x) => Ts(LParen) + (FlatExpr(x) + Ts(RParen))
    case UnaryOp(op, x) => Ts(op) + FlatExpr(x)
    case BinaryOp(op, l, r) => FlatExpr(l) + (Ts(op) + FlatExpr(r))
    case Choice(c, a, b) => FlatExpr(c) + (Ts(Question) + (FlatExpr(a) + (Ts(Colon) + FlatExpr(b))))
    case CallOf(f, args) => FlatExpr(f) + (Ts(LParen) + (FlatArgs(args) + Ts(RParen)))
    case Subscript(x, i) => FlatExpr(x) + (Ts(LBracket) + (FlatExpr(i) + Ts(RBracket)))
    case Select(x, op, name) => FlatExpr(x) + (Ts(op) + Ts(Ident(name)))
    case After(x, op) => FlatExpr(x) + Ts(op)
    case CastTo(ty, x) => Ts(LParen) + (FlatType(ty) + (Ts(RParen) + FlatExpr(x)))
    case Compound(ty, b) => Ts(LParen) + (FlatType(ty) + (Ts(RParen) + FlatBraces(b)))
    case SizeofExpr(x) => Ks(Sizeof) + FlatExpr(x)
    case SizeofGroup(x) => Ks(Sizeof) + (Ts(LParen) + (FlatExpr(x) + Ts(RParen)))
    case SizeofType(ty) => Ks(Sizeof) + (Ts(LParen) + (FlatType(ty) + Ts(RParen)))
    case AlignofType(ty) => Ks(Alignof) + (Ts(LParen) + (FlatType(ty) + Ts(RParen)))
  }

  function FlatArgs(es: seq<Expr>): seq<Tok> {
    if es == [] then [] else FlatExpr(es[0]) + if |es| == 1 then [] else Ts(Comma) + FlatArgs(es[1..])
  }

  function FlatType(ty: CType): seq<Tok> {
    FlatSpecs(ty.specs) + FlatDeclarator(ty.d)
  }

  function FlatSpecs(specs: seq<Spec>): seq<Tok> {
    if specs == [] then [] else FlatSpec(specs[0]) + FlatSpecs(specs[1..])
  }

  function FlatTag(tag: Option<string>): seq<Tok> {
    if tag.Some? then Ts(Ident(tag.value)) else []
  }

  function FlatSpec(s: Spec): seq<Tok> {
    match s
    case SpecWord(k) => Ks(k)
    case SpecName(x) => Ts(Ident(x))
    case Record(k, tag, b) => Ks(k) + (FlatTag(tag) + if b.Some? then FlatBody(b.value) else [])
    case Enumeration(tag, b) => Ks(Enum) + (FlatTag(tag) + if b.Some? then FlatEnums(b.value) else [])
  }

  function FlatBody(b: MemberList): seq<Tok> {
    Ts(LBrace) + (FlatMembers(b.list) + Ts(RBrace))
  }

  function FlatMembers(ms: seq<MemberDecl>): seq<Tok> {
    if ms == [] then [] else FlatMember(ms[0]) + (Ts(Semicolon) + FlatMembers(ms[1..]))
  }

  function FlatMember(m: MemberDecl): seq<Tok> {
    FlatSpecs(m.specs) + FlatFields(m.fields)
  }

  function FlatFields(fs: seq<FieldDecl>): seq<Tok> {
    if fs == [] then [] else FlatField(fs[0]) + if |fs| == 1 then [] else Ts(Comma) + FlatFields(fs[1..])
  }

  function FlatField(f: FieldDecl): seq<Tok> {
    FlatDeclarator(f.d) + if f.width.Some? then Ts(Colon) + FlatExpr(f.width.value) else []
  }

  function FlatEnums(b: EnumeratorList): seq<Tok> {
    Ts(LBrace) + (FlatEnumerators(b.list, b.trailing) + Ts(RBrace))
  }

  function FlatEnumerators(es: seq<Enumerator>, trailing: bool): seq<Tok> {
    if es == [] then []
    else FlatEnumerator(es[0])
         + if |es| > 1 then Ts(Comma) + FlatEnumerators(es[1..], trailing) else if trailing then Ts(Comma) else []
  }

  function FlatEnumerator(e: Enumerator): seq<Tok> {
    Ts(Ident(e.x)) + if e.value.Some? then Ts(Token.Assign) + FlatExpr(e.value.value) else []
  }

  function FlatDeclarator(d: Declarator): seq<Tok> {
    FlatStars(d.stars) + (FlatCore(d.core) + FlatSuffixes(d.suffixes))
  }

  function FlatWords(ks: seq<Word>): seq<Tok> {
    if ks == [] then [] else Ks(ks[0]) + FlatWords(ks[1..])
  }

  function FlatStars(stars: seq<seq<Word>>): seq<Tok> {
    if stars == [] then [] else Ts(Star) + (FlatWords(stars[0]) + FlatStars(stars[1..]))
  }

  function FlatCore(c: Core): seq<Tok> {
    match c
    case NoName => []
    case NameOf(x) => Ts(Ident(x))
    case Grouped(d) => Ts(LParen) + (FlatDeclarator(d) + Ts(RParen))
  }

  function FlatSuffixes(ss: seq<Suffix>): seq<Tok> {
    if ss == [] then [] else FlatSuffix(ss[0]) + FlatSuffixes(ss[1..])
  }

  function FlatSuffix(s: Suffix): seq<Tok> {
    match s
    case Bounds(None) => Ts(LBracket) + Ts(RBracket)
    case Bounds(Some(e)) => Ts(LBracket) + (FlatExpr(e) + Ts(RBracket))
    case Params(ps, ellipsis) => Ts(LParen) + (FlatParams(ps, ellipsis) + Ts(RParen))
  }

  function FlatParams(ps: seq<Param>, ellipsis: bool): seq<Tok> {
    if ps == [] then []
    else FlatParam(ps[0])
         + if |ps| > 1 then Ts(Comma) + FlatParams(ps[1..], ellipsis)
           else if ellipsis then Ts(Comma) + Ks(Ellipsis) else []
  }

  function FlatParam(p: Param): seq<Tok> {
    FlatSpecs(p.specs) + FlatDeclarator(p.d)
  }

  function FlatInit(i: Init): seq<Tok> {
    match i
    case Value(e) => FlatExpr(e)
    case List(b) => FlatBraces(b)
  }

  function FlatBraces(b: Braces): seq<Tok> {
    Ts(LBrace) + (FlatItems(b.items, b.trailing) + Ts(RBrace))
  }

  function FlatItems(xs: seq<Item>, trailing: bool): seq<Tok> {
    if xs == [] then []
    else FlatItem(xs[0])
         + if |xs| > 1 then Ts(Comma) + FlatItems(xs[1..], trailing) else if trailing then Ts(Comma) else []
  }

  function FlatItem(x: Item): seq<Tok> {
    match x.at
    case None => FlatInit(x.init)
    case Some(Place(i)) => Ts(LBracket) + (FlatExpr(i) + (Ts(RBracket) + (Ts(Token.Assign) + FlatInit(x.init))))
    case Some(FieldNamed(n)) => Ts(Dot) + (Ts(Ident(n)) + (Ts(Token.Assign) + FlatInit(x.init)))
  }

  function FlatDeclaration(d: Declaration): seq<Tok> {
    FlatSpecs(d.specs) + (FlatInits(d.ds) + Ts(Semicolon))
  }

  function FlatInits(ds: seq<InitDeclarator>): seq<Tok> {
    if ds == [] then [] else FlatInitDeclarator(ds[0]) + if |ds| == 1 then [] else Ts(Comma) + FlatInits(ds[1..])
  }

  function FlatInitDeclarator(x: InitDeclarator): seq<Tok> {
    FlatDeclarator(x.d) + if x.init.Some? then Ts(Token.Assign) + FlatInit(x.init.value) else []
  }

  function FlatOption(e: Option<Expr>): seq<Tok> {
    if e.Some? then FlatExpr(e.value) else []
  }

  function FlatCondition(c: Expr): seq<Tok> {
    Ts(LParen) + (FlatExpr(c) + Ts(RParen))
  }

  function FlatStmt(s: Stmt): seq<Tok> {
    match s
    case EmptyStmt => Ts(Semicolon)
    case ExprStmt(e) => FlatExpr(e) + Ts(Semicolon)
    case Block(items) => Ts(LBrace) + (FlatStmts(items) + Ts(RBrace))
    case DeclStmt(d) => FlatDeclaration(d)
    case IfStmt(c, a, b) =>
      Ks(If) + (FlatCondition(c) + (FlatStmt(a) + if b.Some? then Ks(Else) + FlatStmt(b.value) else []))
    case WhileStmt(c, b) => Ks(While) + (FlatCondition(c) + FlatStmt(b))
    case DoStmt(b, c) => Ks(Do) + (FlatStmt(b) + (Ks(While) + (FlatCondition(c) + Ts(Semicolon))))
    case ForStmt(init, test, step, b) =>
      Ks(For) + (Ts(LParen) + (FlatForInit(init)
                 + (FlatOption(test) + (Ts(Semicolon) + (FlatOption(step) + (Ts(RParen) + FlatStmt(b)))))))
    case SwitchStmt(c, b) => Ks(Switch) + (FlatCondition(c) + FlatStmt(b))
    case CaseStmt(e, b) => Ks(Case) + (FlatExpr(e) + (Ts(Colon) + FlatThen(b)))
    case DefaultStmt(b) => Ks(Default) + (Ts(Colon) + FlatThen(b))
    case LabelStmt(x, b) => Ts(Ident(x)) + (Ts(Colon) + FlatStmt(b))
    case GotoStmt(x) => Ks(Goto) + (Ts(Ident(x)) + Ts(Semicolon))
    case ReturnStmt(e) => Ks(Return) + (FlatOption(e) + Ts(Semicolon))
    case BreakStmt => Ks(Break) + Ts(Semicolon)
    case ContinueStmt => Ks(Continue) + Ts(Semicolon)
  }

  function FlatThen(b: Option<Stmt>): seq<Tok> {
    if b.Some? then FlatStmt(b.value) else []
  }

  function FlatForInit(i: ForInit): seq<Tok> {
    match i
    case NoInit => Ts(Semicolon)
    case InitExpr(e) => FlatExpr(e) + Ts(Semicolon)
    case InitDecl(d) => FlatDeclaration(d)
  }

  function FlatStmts(ss: seq<Stmt>): seq<Tok> {
    if ss == [] then [] else FlatStmt(ss[0]) + FlatStmts(ss[1..])
  }

  function FlatExternal(x: External): seq<Tok> {
    match x
    case FunctionDef(specs, d, body) => FlatSpecs(specs) + (FlatDeclarator(d) + FlatStmt(Block(body)))
    case Declares(d) => FlatDeclaration(d)
  }

  /** The text of a translation unit. */
  function FlatUnit(u: seq<External>): seq<Tok> {
    if u == [] then [] else FlatExternal(u[0]) + FlatUnit(u[1..])
  }

  /** The type names after a declaration of `x`. */
  ghost function Naming(ts: iset<string>, x: string, isType: bool): iset<string> {
    if isType then ts + iset{x} else ts - iset{x}
  }

  // ----- expressions: section 6.5 -----

  /** The level whose production makes the outermost node. */
  function LevelOf(e: Expr): G.Level {
    match e
    case BinaryOp(op, _, _) => G.LevelOf(op)
    case Choice(_, _, _) => G.Conditional
    case CastTo(_, _) => G.Cast
    case UnaryOp(_, _) => G.Unary
    case SizeofExpr(_) => G.Unary
    case SizeofType(_) => G.Unary
    case AlignofType(_) => G.Unary
    case CallOf(_, _) => G.Postfixed
    case Subscript(_, _) => G.Postfixed
    case Select(_, _, _) => G.Postfixed
    case After(_, _) => G.Postfixed
    case Compound(_, _) => G.Postfixed
    case _ => G.Primary
  }

  /** `e` can stand where level `n` is asked for. */
  predicate Within(e: Expr, n: G.Level) {
    G.Rank(LevelOf(e)) <= G.Rank(n)
  }

  /** An expression in which the names in `ts` are types and all others are not. */
  ghost predicate GoodExpr(e: Expr, ts: iset<string>)
    decreases e
  {
    match e
    case Leaf(t) => t.IntLit? || t.FloatLit? || t.CharLit? || t.StrLit? || (t.Ident? && t.name !in ts)
    case Group(x) => GoodExpr(x, ts)
    case UnaryOp(op, x) =>
      GoodExpr(x, ts) && if op == PlusPlus || op == MinusMinus then Within(x, G.Unary)
                         else op in G.UNARY_OPERATORS && Within(x, G.Cast)
    case BinaryOp(op, l, r) =>
      var n := G.LevelOf(op);
      && n != G.Primary && GoodExpr(l, ts) && GoodExpr(r, ts)
      && (if n == G.Assignment then Within(l, G.Conditional) && Within(r, G.Assignment)
          else Within(l, n) && Within(r, G.Tighter(n)))
    case Choice(c, a, b) =>
      GoodExpr(c, ts) && Within(c, G.LogicalOr) && GoodExpr(a, ts) && GoodExpr(b, ts) && Within(b, G.Conditional)
    case CallOf(f, args) =>
      && GoodExpr(f, ts) && Within(f, G.Postfixed)
      && forall i :: 0 <= i < |args| ==> GoodExpr(args[i], ts) && Within(args[i], G.Assignment)
    case Subscript(x, i) => GoodExpr(x, ts) && Within(x, G.Postfixed) && GoodExpr(i, ts)
    case Select(x, op, _) => GoodExpr(x, ts) && Within(x, G.Postfixed) && (op == Dot || op == Arrow)
    case After(x, op) => GoodExpr(x, ts) && Within(x, G.Postfixed) && (op == PlusPlus || op == MinusMinus)
    case CastTo(ty, x) => GoodType(ty, ts) && GoodExpr(x, ts) && Within(x, G.Cast)
    case Compound(ty, b) => GoodType(ty, ts) && GoodBraces(b, ts)
    case SizeofExpr(x) => GoodExpr(x, ts) && Within(x, G.Unary) && FlatExpr(x)[..1] != Ts(LParen)
    case SizeofGroup(x) => GoodExpr(x, ts)
    case SizeofType(ty) => GoodType(ty, ts)
    case AlignofType(ty) => GoodType(ty, ts)
  }

  /** A constant or conditional expression, if there is one. */
  ghost predicate GoodOption(e: Option<Expr>, n: G.Level, ts: iset<string>)
    decreases e
  {
    e.Some? ==> GoodExpr(e.value, ts) && Within(e.value, n)
  }

  // ----- specifiers and declarators: section 6.7 -----

  predicate IsStorage(k: Word) {
    k == Auto || k == Static || k == Extern || k == Register || k == Typedef
  }

  predicate IsQualifier(k: Word) {
    k == Const || k == Volatile || k == Restrict
  }

  predicate IsTypeWord(k: Word) {
    || k == KwVoid || k == KwBool || k == KwChar || k == KwShort || k == KwInt || k == KwLong || k == KwFloat
    || k == KwDouble || k == KwSigned || k == KwUnsigned || k == KwComplex
  }

  /** The type keywords in a list of specifiers. */
  function TypeWords(specs: seq<Spec>): multiset<Word> {
    if specs == [] then multiset{}
    else
      var s := specs[|specs| - 1];
      TypeWords(specs[..|specs| - 1]) + if s.SpecWord? && IsTypeWord(s.k) then multiset{s.k} else multiset{}
  }

  /** The storage classes. */
  function Storage(specs: seq<Spec>): seq<Word> {
    if specs == [] then []
    else
      var s := specs[|specs| - 1];
      Storage(specs[..|specs| - 1]) + if s.SpecWord? && IsStorage(s.k) then [s.k] else []
  }

  /** How many specifiers name, define or refer to a type by themselves. */
  function Solid(specs: seq<Spec>): nat {
    if specs == [] then 0
    else Solid(specs[..|specs| - 1]) + if specs[|specs| - 1].SpecWord? then 0 else 1
  }

  predicate Only(m: multiset<Word>, ks: set<Word>) {
    forall k :: k in m ==> k in ks
  }

  /** The combinations of type keywords that section 6.7.2 lists, in any order. */
  predicate Combination(m: multiset<Word>) {
    || m == multiset{KwVoid}
    || m == multiset{KwBool}
    || (Only(m, {KwChar, KwSigned, KwUnsigned}) && m[KwChar] == 1 && m[KwSigned] + m[KwUnsigned] <= 1)
    || (&& Only(m, {KwInt, KwSigned, KwUnsigned, KwShort, KwLong}) && m != multiset{}
        && m[KwInt] <= 1 && m[KwSigned] + m[KwUnsigned] <= 1
        && m[KwShort] <= 1 && m[KwLong] <= 2 && (m[KwShort] == 0 || m[KwLong] == 0))
    || (Only(m, {KwFloat, KwComplex}) && m[KwFloat] == 1 && m[KwComplex] <= 1)
    || (Only(m, {KwDouble, KwLong, KwComplex}) && m[KwDouble] == 1 && m[KwLong] <= 1 && m[KwComplex] <= 1)
  }

  /** One storage class at most, and one type. */
  predicate OneType(specs: seq<Spec>) {
    var m := TypeWords(specs);
    && |Storage(specs)| <= 1
    && ((Solid(specs) == 1 && m == multiset{}) || (Solid(specs) == 0 && Combination(m)))
  }

  predicate IsTypedef(specs: seq<Spec>) {
    Typedef in Storage(specs)
  }

  ghost predicate GoodSpecs(specs: seq<Spec>, ts: iset<string>)
    decreases specs, 1
  {
    OneType(specs) && GoodList(specs, ts)
  }

  ghost predicate GoodList(specs: seq<Spec>, ts: iset<string>)
    decreases specs, 0
  {
    specs == [] || (GoodSpec(specs[0], ts) && GoodList(specs[1..], AfterSpec(specs[0], ts)))
  }

  ghost predicate GoodSpec(s: Spec, ts: iset<string>)
    decreases s
  {
    match s
    case SpecWord(k) => IsStorage(k) || IsQualifier(k) || IsTypeWord(k) || k == Inline
    case SpecName(x) => x in ts
    case Record(k, tag, b) =>
      (k == Struct || k == Union) && (tag.Some? || b.Some?) && (b.Some? ==> GoodMembers(b.value.list, ts))
    case Enumeration(tag, b) => (tag.Some? || b.Some?) && (b.Some? ==> GoodEnums(b.value, ts))
  }

  /** The type names after a list of specifiers: enumerators hide them. */
  ghost function AfterSpecs(specs: seq<Spec>, ts: iset<string>): iset<string>
    decreases specs
  {
    if specs == [] then ts else AfterSpecs(specs[1..], AfterSpec(specs[0], ts))
  }

  ghost function AfterSpec(s: Spec, ts: iset<string>): iset<string>
    decreases s
  {
    match s
    case Record(_, _, Some(b)) => AfterMembers(b.list, ts)
    case Enumeration(_, Some(b)) => AfterEnums(b.list, ts)
    case _ => ts
  }

  ghost function AfterMembers(ms: seq<MemberDecl>, ts: iset<string>): iset<string>
    decreases ms
  {
    if ms == [] then ts else AfterMembers(ms[1..], AfterMember(ms[0], ts))
  }

  ghost function AfterMember(m: MemberDecl, ts: iset<string>): iset<string>
    decreases m
  {
    AfterSpecs(m.specs, ts)
  }

  ghost function AfterEnums(es: seq<Enumerator>, ts: iset<string>): iset<string>
    decreases es
  {
    if es == [] then ts else AfterEnums(es[1..], Naming(ts, es[0].x, false))
  }

  ghost predicate GoodMembers(ms: seq<MemberDecl>, ts: iset<string>)
    decreases ms
  {
    ms == [] || (GoodMember(ms[0], ts) && GoodMembers(ms[1..], AfterMember(ms[0], ts)))
  }

  ghost predicate GoodMember(m: MemberDecl, ts: iset<string>)
    decreases m
  {
    var ts1 := AfterSpecs(m.specs, ts);
    && GoodSpecs(m.specs, ts)
    && (m.fields != [] ==> NameClear(m.specs, ts1, m.fields[0].d))
    && forall i :: 0 <= i < |m.fields| ==> GoodField(m.fields[i], ts1)
  }

  /** An unnamed member is a bit-field. */
  ghost predicate GoodField(f: FieldDecl, ts: iset<string>)
    decreases f
  {
    && (f.d == Declarator([], NoName, []) || (GoodDeclarator(f.d, ts) && Declared(f.d).Some?))
    && (Declared(f.d).None? ==> f.width.Some?)
    && GoodOption(f.width, G.Conditional, ts)
  }

  ghost predicate GoodEnums(b: EnumeratorList, ts: iset<string>)
    decreases b
  {
    (b.trailing ==> b.list != []) && GoodEnumerators(b.list, ts)
  }

  ghost predicate GoodEnumerators(es: seq<Enumerator>, ts: iset<string>)
    decreases es
  {
    es == [] || (GoodEnumerator(es[0], ts) && GoodEnumerators(es[1..], Naming(ts, es[0].x, false)))
  }

  ghost predicate GoodEnumerator(e: Enumerator, ts: iset<string>)
    decreases e
  {
    GoodOption(e.value, G.Conditional, ts)
  }

  /** The specifiers settle that what follows is no further type name. */
  predicate Settled(specs: seq<Spec>) {
    var m := TypeWords(specs);
    Solid(specs) > 0 || KwVoid in m || KwBool in m || KwFloat in m
  }

  /** A declarator does not begin with a visible type name, unless the specifiers have settled the type. */
  ghost predicate NameClear(specs: seq<Spec>, ts: iset<string>, d: Declarator) {
    d.stars == [] && d.core.NameOf? && d.core.x in ts ==> Settled(specs)
  }

  /** The name that a declarator declares. */
  function Declared(d: Declarator): Option<string> {
    match d.core
    case NoName => None
    case NameOf(x) => Some(x)
    case Grouped(d1) => Declared(d1)
  }

  ghost predicate GoodDeclarator(d: Declarator, ts: iset<string>)
    decreases d
  {
    && |d.stars| <= 16 && (forall i, j :: 0 <= i < |d.stars| && 0 <= j < |d.stars[i]| ==> IsQualifier(d.stars[i][j]))
    && (match d.core
        case NoName => d.suffixes != [] ==> d.suffixes[0].Bounds?
        case NameOf(_) => true
        case Grouped(d1) => GoodDeclarator(d1, ts))
    && forall i :: 0 <= i < |d.suffixes| ==> GoodSuffix(d.suffixes[i], ts)
  }

  ghost predicate GoodSuffix(s: Suffix, ts: iset<string>)
    decreases s
  {
    match s
    case Bounds(e) => GoodOption(e, G.Expression, ts)
    case Params(ps, ellipsis) =>
      (ellipsis ==> ps != []) && forall i :: 0 <= i < |ps| ==> GoodParam(ps[i], ts)
  }

  ghost predicate GoodParam(p: Param, ts: iset<string>)
    decreases p
  {
    GoodSpecs(p.specs, ts) && AfterSpecs(p.specs, ts) == ts && NameClear(p.specs, ts, p.d) && GoodDeclarator(p.d, ts)
  }

  ghost predicate GoodType(ty: CType, ts: iset<string>)
    decreases ty
  {
    && GoodSpecs(ty.specs, ts) && AfterSpecs(ty.specs, ts) == ts
    && GoodDeclarator(ty.d, ts) && Declared(ty.d).None?
  }

  // ----- initializers and declarations -----

  ghost predicate GoodInit(i: Init, ts: iset<string>)
    decreases i
  {
    match i
    case Value(e) => GoodExpr(e, ts) && Within(e, G.Conditional)
    case List(b) => GoodBraces(b, ts)
  }

  ghost predicate GoodBraces(b: Braces, ts: iset<string>)
    decreases b
  {
    (b.trailing ==> b.items != []) && forall i :: 0 <= i < |b.items| ==> GoodItem(b.items[i], ts)
  }

  ghost predicate GoodItem(x: Item, ts: iset<string>)
    decreases x
  {
    GoodInit(x.init, ts) && (x.at.Some? && x.at.value.Place? ==> GoodExpr(x.at.value.i, ts))
  }

  ghost predicate GoodDeclaration(d: Declaration, ts: iset<string>) {
    var ts1 := AfterSpecs(d.specs, ts);
    && GoodSpecs(d.specs, ts)
    && (d.ds != [] ==> NameClear(d.specs, ts1, d.ds[0].d))
    && GoodInits(d.ds, IsTypedef(d.specs), ts1)
  }

  ghost predicate GoodInits(ds: seq<InitDeclarator>, typedef: bool, ts: iset<string>) {
    ds == [] || (GoodInitDeclarator(ds[0], typedef, ts) && GoodInits(ds[1..], typedef, AfterName(ds[0].d, typedef, ts)))
  }

  ghost predicate GoodInitDeclarator(x: InitDeclarator, typedef: bool, ts: iset<string>) {
    && GoodDeclarator(x.d, ts) && Declared(x.d).Some?
    && (x.init.Some? ==> !typedef && GoodInit(x.init.value, ts))
  }

  /** A declarator makes its name a type or hides one. */
  ghost function AfterName(d: Declarator, typedef: bool, ts: iset<string>): iset<string> {
    if Declared(d).None? then ts
    else Naming(ts, Declared(d).value, typedef)
  }

  ghost function AfterInits(ds: seq<InitDeclarator>, typedef: bool, ts: iset<string>): iset<string> {
    if ds == [] then ts else AfterInits(ds[1..], typedef, AfterName(ds[0].d, typedef, ts))
  }

  ghost function AfterDeclaration(d: Declaration, ts: iset<string>): iset<string> {
    AfterInits(d.ds, IsTypedef(d.specs), AfterSpecs(d.specs, ts))
  }

  // ----- statements: section 6.8 -----

  /** An `else` would belong to an `if` at its end. */
  predicate OpenIf(s: Stmt) {
    match s
    case IfStmt(_, _, b) => b.None? || OpenIf(b.value)
    case WhileStmt(_, b) => OpenIf(b)
    case ForStmt(_, _, _, b) => OpenIf(b)
    case SwitchStmt(_, b) => OpenIf(b)
    case LabelStmt(_, b) => OpenIf(b)
    case CaseStmt(_, b) => b.Some? && OpenIf(b.value)
    case DefaultStmt(b) => b.Some? && OpenIf(b.value)
    case _ => false
  }

  predicate IsCase(s: Stmt) {
    s.CaseStmt? || s.DefaultStmt?
  }

  /** A label without a statement. */
  predicate Bare(s: Stmt) {
    IsCase(s) && s.then_.None?
  }

  /** The part of another statement: itself a statement, not a declaration. */
  ghost predicate GoodPart(s: Stmt, ts: iset<string>, inLoop: bool, inSwitch: bool)
    decreases s, 1
  {
    GoodStmt(s, ts, inLoop, inSwitch) && !s.DeclStmt? && !Bare(s)
  }

  /** `break` stands in a loop or a `switch`, `continue` in a loop; an `else` belongs to the nearest `if`. */
  ghost predicate GoodStmt(s: Stmt, ts: iset<string>, inLoop: bool, inSwitch: bool)
    decreases s, 0
  {
    match s
    case EmptyStmt => true
    case ExprStmt(e) => GoodExpr(e, ts)
    case Block(items) => GoodItems(items, ts, inLoop, inSwitch)
    case DeclStmt(d) => GoodDeclaration(d, ts)
    case IfStmt(c, a, b) =>
      && GoodExpr(c, ts) && GoodPart(a, ts, inLoop, inSwitch)
      && (b.Some? ==> !OpenIf(a) && GoodPart(b.value, ts, inLoop, inSwitch))
    case WhileStmt(c, b) => GoodExpr(c, ts) && GoodPart(b, ts, true, inSwitch)
    case DoStmt(b, c) => GoodExpr(c, ts) && GoodPart(b, ts, true, inSwitch)
    case ForStmt(init, test, step, b) =>
      && GoodForInit(init, ts) && GoodOption(test, G.Expression, ts) && GoodOption(step, G.Expression, ts)
      && GoodPart(b, ts, true, inSwitch)
    case SwitchStmt(c, b) => GoodExpr(c, ts) && GoodPart(b, ts, inLoop, true)
    case CaseStmt(e, b) => GoodExpr(e, ts) && (b.Some? ==> GoodPart(b.value, ts, inLoop, inSwitch) && !IsCase(b.value))
    case DefaultStmt(b) => b.Some? ==> GoodPart(b.value, ts, inLoop, inSwitch) && !IsCase(b.value)
    case LabelStmt(x, b) => x !in ts && GoodPart(b, ts, inLoop, inSwitch)
    case GotoStmt(_) => true
    case ReturnStmt(e) => GoodOption(e, G.Expression, ts)
    case BreakStmt => inLoop || inSwitch
    case ContinueStmt => inLoop
  }

  ghost predicate GoodForInit(i: ForInit, ts: iset<string>)
    decreases i
  {
    match i
    case NoInit => true
    case InitExpr(e) => GoodExpr(e, ts)
    case InitDecl(d) => GoodDeclaration(d, ts) && AfterDeclaration(d, ts) == ts
  }

  ghost function AfterStmt(s: Stmt, ts: iset<string>): iset<string> {
    if s.DeclStmt? then AfterDeclaration(s.d, ts) else ts
  }

  ghost predicate GoodItems(items: seq<Stmt>, ts: iset<string>, inLoop: bool, inSwitch: bool)
    decreases items
  {
    items == [] || (
      && GoodStmt(items[0], ts, inLoop, inSwitch)
      && (Bare(items[0]) && |items| > 1 ==> IsCase(items[1]))
      && GoodItems(items[1..], AfterStmt(items[0], ts), inLoop, inSwitch))
  }

  // ----- translation units: section 6.9 -----

  /** Nothing but a name in parentheses. */
  predicate Transparent(d: Declarator) {
    d.stars == [] && d.suffixes == [] && (d.core.NameOf? || (d.core.Grouped? && Transparent(d.core.d)))
  }

  /** The parameters, if a declarator declares a function. */
  function FunctionParams(d: Declarator): Option<seq<Param>> {
    var own := if |d.suffixes| == 1 && d.suffixes[0].Params? then Some(d.suffixes[0].ps) else None;
    match d.core
    case NoName => None
    case NameOf(_) => own
    case Grouped(d1) => if Transparent(d1) then own else FunctionParams(d1)
  }

  ghost function HideNames(ps: seq<Param>, ts: iset<string>): iset<string> {
    if ps == [] then ts else HideNames(ps[1..], AfterName(ps[0].d, false, ts))
  }

  ghost predicate GoodExternal(x: External, ts: iset<string>) {
    match x
    case FunctionDef(specs, d, body) =>
      var ts1 := AfterSpecs(specs, ts);
      && GoodSpecs(specs, ts) && !IsTypedef(specs) && NameClear(specs, ts1, d)
      && GoodDeclarator(d, ts1) && Declared(d).Some? && FunctionParams(d).Some?
      && GoodItems(body, HideNames(FunctionParams(d).value, ts1), false, false)
    case Declares(d) => GoodDeclaration(d, ts)
  }

  ghost function AfterExternal(x: External, ts: iset<string>): iset<string> {
    match x
    case FunctionDef(specs, d, _) => AfterName(d, false, AfterSpecs(specs, ts))
    case Declares(d) => AfterDeclaration(d, ts)
  }

  /** A translation unit; at its beginning no name is a type. */
  ghost predicate GoodUnit(u: seq<External>, ts: iset<string>) {
    u == [] || (GoodExternal(u[0], ts) && GoodUnit(u[1..], AfterExternal(u[0], ts)))
  }
}
