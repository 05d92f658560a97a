/** The part of Lox whose compilation is modelled, as syntax trees. */
module Syntax {
  import opened Types
  import opened Values

  datatype Expr =
    | NilLit
    | BoolLit(b: bool)
    | NumberLit(n: Num)
    | StringLit(s: Text)
    | Variable(name: Text)
    | Assign(name: Text, value: Expr)
    | Unary(uop: UnOp, operand: Expr)
    | Binary(op: BinOp, left: Expr, right: Expr)
    | And(left: Expr, right: Expr)
    | Or(left: Expr, right: Expr)

  /** An `if` without `else` has an empty block as its else branch.  The initializer of a `for` is a list
      of declarations: none, one expression statement, or one `var` per declared variable. */
  datatype Stmt =
    | ExprStmt(e: Expr)
    | Print(e: Expr)
    | Block(ds: Decls)
    | If(cond: Expr, thn: Stmt, els: Stmt)
    | While(cond: Expr, body: Stmt)
    | DoWhile(body: Stmt, cond: Expr)
    | For(init: Decls, test: Option<Expr>, step: Option<Expr>, body: Stmt)
    | Break
    | Continue

  datatype Decl =
    | Var(name: Text, isConst: bool, init: Option<Expr>)
    | Statement(s: Stmt)

  datatype Decls = Done | More(first: Decl, rest: Decls)

  /** The position of the innermost (last) variable called name, or -1. */
  function Innermost(names: seq<Text>, name: Text): (i: int)
    ensures -1 <= i < |names|
    ensures i >= 0 ==> names[i] == name && name !in names[i+1..]
    ensures i < 0 ==> name !in names
  {
    if names == [] then -1
    else if names[|names| - 1] == name then |names| - 1
    else Innermost(names[..|names| - 1], name)
  }

  /** The locals a declaration list adds to the scope it stands in. */
  function Declared(ds: Decls, top: bool): seq<Text> {
    match ds
    case Done => []
    case More(d, rest) => (if d.Var? && !top then [d.name] else []) + Declared(rest, top)
  }

  /** The names in scope behind a declaration. */
  function Extended(names: seq<Text>, d: Decl, top: bool): seq<Text> {
    names + (if d.Var? && !top then [d.name] else [])
  }

  // ---- Joins ----
  //
  // The value of `a and b` or `a or b` reaches its user along two paths.  The peephole optimizer only looks
  // at the instructions it emitted last, so it must not rewrite the last instruction of b: the other path
  // arrives behind it.  JoinSafe describes the programs in which it never does.  The names are those of the
  // locals in scope: the optimizer does not rewrite accesses to globals.

  datatype Tail = PoolTail | LiteralTail | LocalTail | AssignTail | OtherTail

  predicate ConstTail(t: Tail) {
    t.PoolTail? || t.LiteralTail?
  }

  /** Constants that an operator is folded with: of the pool, and for equality also nil and the booleans. */
  predicate TailsFold(op: BinOp, l: Tail, r: Tail) {
    if op.Eq? || op.Ne? then ConstTail(l) && ConstTail(r) else l.PoolTail? && r.PoolTail?
  }

  /** What the last instruction of an expression can be, as far as the optimizer is concerned. */
  function TailOf(e: Expr, names: seq<Text>): Tail {
    match e
    case NilLit | BoolLit(_) => LiteralTail
    case NumberLit(_) | StringLit(_) => PoolTail
    case Variable(name) => if Innermost(names, name) >= 0 then LocalTail else OtherTail
    case Assign(name, _) => if Innermost(names, name) >= 0 then AssignTail else OtherTail
    case Unary(op, x) =>
      if !ConstTail(TailOf(x, names)) then OtherTail else if op.Not? then LiteralTail else PoolTail
    case Binary(op, l, r) =>
      if IsJoin(r) || !TailsFold(op, TailOf(l, names), TailOf(r, names)) then OtherTail
      else if IsComparison(op) then LiteralTail else PoolTail
    case And(_, r) => TailOf(r, names)
    case Or(_, r) => TailOf(r, names)
  }

  predicate IsJoin(e: Expr) {
    e.And? || e.Or?
  }

  /** No operation in the expression is rewritten together with the end of a join. */
  predicate JoinSafe(e: Expr, names: seq<Text>) {
    match e
    case NilLit | BoolLit(_) | NumberLit(_) | StringLit(_) | Variable(_) => true
    case Assign(_, x) => JoinSafe(x, names)
    case Unary(_, x) =>
      JoinSafe(x, names) && !(IsJoin(x) && (ConstTail(TailOf(x, names)) || TailOf(x, names).LocalTail?))
    case Binary(op, l, r) =>
      && JoinSafe(l, names) && JoinSafe(r, names)
      && !(IsJoin(r) && (TailOf(r, names).PoolTail? || TailOf(r, names).LocalTail?))
      && !(IsJoin(l) && !IsJoin(r) && TailsFold(op, TailOf(l, names), TailOf(r, names)))
    case And(l, r) => JoinSafe(l, names) && JoinSafe(r, names)
    case Or(l, r) => JoinSafe(l, names) && JoinSafe(r, names)
  }

  /** The expression may also be followed by a pop, which merges with an assignment to a local before it. */
  predicate PopSafe(e: Expr, names: seq<Text>) {
    JoinSafe(e, names) &&
    !(IsJoin(e) && TailOf(e, names).AssignTail?) &&
    (e.Assign? && TailOf(e, names).AssignTail? ==> !(IsJoin(e.value) && TailOf(e.value, names).LocalTail?))
  }

  predicate StmtSafe(s: Stmt, names: seq<Text>) {
    match s
    case ExprStmt(e) => PopSafe(e, names)
    case Print(e) => JoinSafe(e, names)
    case Block(ds) => DeclsSafe(ds, false, names)
    case If(c, t, e) => JoinSafe(c, names) && StmtSafe(t, names) && StmtSafe(e, names)
    case While(c, b) => JoinSafe(c, names) && StmtSafe(b, names)
    case DoWhile(b, c) => StmtSafe(b, names) && JoinSafe(c, names)
    case For(init, test, step, b) =>
      var inside := names + Declared(init, false);
      DeclsSafe(init, false, names) && (test.Some? ==> JoinSafe(test.value, inside)) &&
      (step.Some? ==> PopSafe(step.value, inside)) && StmtSafe(b, inside)
    case Break => true
    case Continue => true
  }

  /** The value of a local's initializer stays on the stack, and may be popped at the end of its scope. */
  predicate DeclSafe(d: Decl, top: bool, names: seq<Text>) {
    match d
    case Var(_, _, init) => init.Some? ==> (if top then JoinSafe(init.value, names) else PopSafe(init.value, names))
    case Statement(s) => StmtSafe(s, names)
  }

  predicate DeclsSafe(ds: Decls, top: bool, names: seq<Text>) {
    ds.More? ==> DeclSafe(ds.first, top, names) && DeclsSafe(ds.rest, top, Extended(names, ds.first, top))
  }

  // ---- Loops ----

  /** The statement has a break or continue that belongs to a loop around it. */
  predicate Loose(s: Stmt) {
    match s
    case ExprStmt(_) => false
    case Print(_) => false
    case Block(ds) => LooseDecls(ds)
    case If(_, t, e) => Loose(t) || Loose(e)
    case While(_, _) => false
    case DoWhile(_, _) => false
    case For(init, _, _, _) => LooseDecls(init)
    case Break => true
    case Continue => true
  }

  predicate LooseDecls(ds: Decls) {
    ds.More? && ((ds.first.Statement? && Loose(ds.first.s)) || LooseDecls(ds.rest))
  }
}
