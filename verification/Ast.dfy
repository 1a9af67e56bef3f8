/**
 The signed-int subset of the syntax tree that `gen_expr` and `gen_stmt` lower: all statements,
 and expressions over local `int` variables. Nodes whose address the compiler uses as an
 identity (declarations, `case` and `default` labels) carry an `id`.
 A statement list linked through `next` is `Then(s, rest)` ending in `End`; a declaration with
 several declarators is the same list of single declarations.
 */
module Ast {
  import opened Wrappers
  import Ir

  datatype UnaryOp = Minus | Tilde | Bang | Plus

  datatype Expr =
    | IntLit(val: int)
    | Ident(name: string)
    | Unary(uop: UnaryOp, operand: Expr)
    | PreIncDec(inc: bool, name: string)
    | PostIncDec(inc: bool, name: string)
    | Binary(op: Ir.BinOp, left: Expr, right: Expr)
    | LogAnd(left: Expr, right: Expr)
    | LogOr(left: Expr, right: Expr)
    | Assign(name: string, right: Expr)
    | CompoundAssign(op: Ir.BinOp, name: string, right: Expr)
    | Ternary(cond: Expr, thn: Expr, els: Expr)
    | Comma(left: Expr, right: Expr)

  datatype Stmt =
    | End
    | Then(s: Stmt, rest: Stmt)
    | Compound(body: Stmt)
    | ExprStmt(e: Expr)
    | Decl(id: nat, name: string, init: Option<Expr>)
    | If(cond: Expr, thn: Stmt, els: Option<Stmt>)
    | While(cond: Expr, body: Stmt)
    | DoWhile(body: Stmt, cond: Expr)
    | For(start: Stmt, test: Option<Expr>, incr: Option<Expr>, body: Stmt)
    | Return(ret: Option<Expr>)
    | Break
    | Continue
    | Switch(e: Expr, body: Stmt)
    | Case(id: nat, e: Expr, s: Stmt)
    | Default(id: nat, s: Stmt)
    | Goto(name: string)
    | Labelled(name: string, s: Stmt)

  /** A chain of name bindings, innermost first, as `vscope_lookup` and C's scope rules walk it. */
  type Scope = seq<(string, nat)>

  function Lookup(scope: Scope, name: string): Option<nat> {
    if scope == [] then None
    else if scope[0].0 == name then Some(scope[0].1)
    else Lookup(scope[1..], name)
  }
}
