/** Functions as far as their locals, their closures and their jumps go. */
module FunctionSyntax {
  import opened Types
  import opened Values
  import opened Captures
  import Syntax

  /** The closures that an expression makes use variables of these names. */
  type Expr = seq<Text>

  datatype Stmt =
    | ExprStmt(e: Expr)                                 // also print
    | Block(ds: Decls)
    | If(cond: Expr, thn: Stmt, els: Stmt)
    | While(cond: Expr, body: Stmt)
    | DoWhile(body: Stmt, cond: Expr)
    | For(init: Decls, test: Option<Expr>, step: Option<Expr>, body: Stmt)
    | Break
    | Continue
    | ReturnStmt(e: Expr)

  datatype Decl =
    | Var(name: Text, init: Expr)
    | Fun(name: Text, uses: Expr)
    | Statement(s: Stmt)

  datatype Decls = Done | More(first: Decl, rest: Decls)

  /** The slots of the variables used that are locals here; the others are globals, or locals of an enclosing function. */
  function SlotsUsed(e: Expr, names: seq<Text>): seq<nat> {
    if e == [] then []
    else
      var i := Syntax.Innermost(names, e[|e| - 1]);
      SlotsUsed(e[..|e| - 1], names) + if i >= 0 then [i] else []
  }

  /** The value of an expression: the instruction that computes it, where the locals are called names. */
  function Asked(e: Expr, names: seq<Text>): seq<Op> {
    [Closure(SlotsUsed(e, names))]
  }

  function DeclaredBy(d: Decl, top: bool): seq<Text> {
    if top || d.Statement? then [] else [d.name]
  }

  function Declared(ds: Decls, top: bool): seq<Text> {
    if ds.Done? then [] else DeclaredBy(ds.first, top) + Declared(ds.rest, top)
  }
}
