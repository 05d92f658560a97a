/** What the compiler refuses, and why. */
module Refusals {
  import opened Types
  import opened Values
  import opened Syntax
  import opened Semantics
  import opened Bytecode
  import opened Peephole
  import opened Simulation
  import opened Layout
  import opened Tails
  import opened Buffer
  import opened Statements
  import opened Scopes

  // ---- Expressions ----

  /** An operation is refused when it is known to fail, or when the constant it folds to does not fit in the pool. */
  predicate Refused(rw: Rewrite, count: nat) {
    rw.Reject? || (rw.Fold? && (rw.v.Number? || rw.v.Str?) && count > UINT16_MAX)
  }

  /** The variable's innermost local is the one being initialized. */
  predicate Uninitialized(locals: seq<Local>, name: Text) {
    locals != [] && locals[|locals| - 1].name == name && locals[|locals| - 1].depth == -1
  }

  /** The name means a local that is a constant. */
  ghost predicate Fixed(locals: seq<Local>, name: Text) {
    var i := Innermost(InitializedNames(locals), name);
    i >= 0 && locals[i].isConst
  }

  /** The expression names a variable in its own initializer, or assigns to a constant. */
  ghost predicate Blocked(e: Expr, locals: seq<Local>) {
    match e
    case Variable(name) => Uninitialized(locals, name)
    case Assign(name, x) => Uninitialized(locals, name) || Fixed(locals, name) || Blocked(x, locals)
    case Unary(_, x) => Blocked(x, locals)
    case Binary(_, l, r) => Blocked(l, locals) || Blocked(r, locals)
    case And(l, r) => Blocked(l, locals) || Blocked(r, locals)
    case Or(l, r) => Blocked(l, locals) || Blocked(r, locals)
    case _ => false
  }

  /** The expression has an operation that is an error for the constants its operands end with. */
  predicate Unfoldable(A: Arith, e: Expr) {
    match e
    case Assign(_, x) => Unfoldable(A, x)
    case Unary(_, x) => EndsBadly(A, e) || Unfoldable(A, x)
    case Binary(_, l, r) => EndsBadly(A, e) || Unfoldable(A, l) || Unfoldable(A, r)
    case And(l, r) => Unfoldable(A, l) || Unfoldable(A, r)
    case Or(l, r) => Unfoldable(A, l) || Unfoldable(A, r)
    case _ => false
  }

  /** The expression has an operation that fails whatever its variables hold. */
  ghost predicate Hopeless(A: Arith, e: Expr, names: seq<Text>) {
    match e
    case Assign(_, x) => Hopeless(A, x, names)
    case Unary(_, x) => AlwaysFails(A, e, names) || Hopeless(A, x, names)
    case Binary(_, l, r) => AlwaysFails(A, e, names) || Hopeless(A, l, names) || Hopeless(A, r, names)
    case And(l, r) => Hopeless(A, l, names) || Hopeless(A, r, names)
    case Or(l, r) => Hopeless(A, l, names) || Hopeless(A, r, names)
    case _ => false
  }

  /** Where no operation reaches across a join, only operations are unfoldable that always fail. */
  lemma {:induction false} UnfoldableFails(A: Arith, e: Expr, names: seq<Text>)
    requires JoinSafe(e, names) && Unfoldable(A, e)
    ensures Hopeless(A, e, names)
  {
    hide EndsBadly, AlwaysFails, TailOf;
    if EndsBadly(A, e) {
      BadEndFails(A, e, names);
      NothingElse(A, e);
    } else {
      match e
      case Assign(_, x) => UnfoldableFails(A, x, names);
      case Unary(_, x) => UnfoldableFails(A, x, names);
      case Binary(_, l, r) => if Unfoldable(A, l) { UnfoldableFails(A, l, names); } else { UnfoldableFails(A, r, names); }
      case And(l, r) => if Unfoldable(A, l) { UnfoldableFails(A, l, names); } else { UnfoldableFails(A, r, names); }
      case Or(l, r) => if Unfoldable(A, l) { UnfoldableFails(A, l, names); } else { UnfoldableFails(A, r, names); }
    }
  }

  lemma NothingElse(A: Arith, e: Expr)
    requires EndsBadly(A, e)
    ensures e.Unary? || e.Binary?
  {
  }

  /** The reasons for which an expression may be refused; the pool and the code may have become too large. */
  ghost predicate MayRefuse(A: Arith, e: Expr, locals: seq<Local>, count: nat, size: nat) {
    count > UINT16_MAX || size > UINT16_MAX || Blocked(e, locals) || Unfoldable(A, e)
  }

  /** What refuses an operand or an assigned value refuses the whole. */
  lemma PartRefused(A: Arith, x: Expr, e: Expr, locals: seq<Local>, count: nat, size: nat)
    requires MayRefuse(A, x, locals, count, size)
    requires match e
             case Assign(_, v) => v == x
             case Unary(_, v) => v == x
             case Binary(_, l, r) => l == x || r == x
             case And(l, r) => l == x || r == x
             case Or(l, r) => l == x || r == x
             case _ => false
    ensures MayRefuse(A, e, locals, count, size)
  {
    hide EndsBadly;
  }

  lemma OperationRefused(A: Arith, e: Expr, locals: seq<Local>, count: nat, size: nat)
    requires (e.Unary? || e.Binary?) && (count > UINT16_MAX || EndsBadly(A, e))
    ensures MayRefuse(A, e, locals, count, size)
  {
    hide EndsBadly;
  }

  lemma TooLarge(A: Arith, e: Expr, locals: seq<Local>, count: nat, size: nat)
    requires count > UINT16_MAX || size > UINT16_MAX
    ensures MayRefuse(A, e, locals, count, size)
  {
  }

  lemma JoinFree(e: Expr, locals: seq<Local>)
    requires (e.And? || e.Or?) && !Blocked(e.left, locals) && !Blocked(e.right, locals)
    ensures !Blocked(e, locals)
  {
  }

  lemma ConstantAssigned(A: Arith, e: Expr, locals: seq<Local>, count: nat, size: nat)
    requires e.Assign? && Fixed(locals, e.name)
    ensures MayRefuse(A, e, locals, count, size)
  {
  }

  // ---- Statements ----

  /** The scope being compiled already has a local of the name. */
  ghost predicate Redeclared(locals: seq<Local>, depth: nat, name: Text) {
    exists i :: 0 <= i < |locals| && locals[i].depth == depth && locals[i].name == name
  }

  /** A constant needs an initializer. */
  ghost predicate InitBlocked(init: Option<Expr>, isConst: bool, locals: seq<Local>) {
    match init
    case Some(e) => Blocked(e, locals)
    case None => isConst
  }

  ghost predicate SomeBlocked(e: Option<Expr>, locals: seq<Local>) {
    e.Some? && Blocked(e.value, locals)
  }

  /** The statement breaks a rule of scopes, constants or loops: a local is declared twice in a scope, is the 256th,
      or is used in its own initializer; a constant is global, without initializer, or assigned to; a break or continue
      is outside of every loop. */
  ghost predicate StmtBlocked(s: Stmt, locals: seq<Local>, depth: nat, inLoop: bool) {
    match s
    case ExprStmt(e) => Blocked(e, locals)
    case Print(e) => Blocked(e, locals)
    case Block(ds) => DeclsBlocked(ds, locals, depth + 1, inLoop)
    case If(c, t, e) => Blocked(c, locals) || StmtBlocked(t, locals, depth, inLoop) || StmtBlocked(e, locals, depth, inLoop)
    case While(c, b) => Blocked(c, locals) || StmtBlocked(b, locals, depth, true)
    case DoWhile(b, c) => StmtBlocked(b, locals, depth, true) || Blocked(c, locals)
    case For(init, test, step, b) =>
      var inside := locals + LocalsOf(init, false, depth + 1);
      || DeclsBlocked(init, locals, depth + 1, inLoop) || SomeBlocked(test, inside) || SomeBlocked(step, inside)
      || StmtBlocked(b, inside, depth + 1, true)
    case Break => !inLoop
    case Continue => !inLoop
  }

  ghost predicate DeclBlocked(d: Decl, locals: seq<Local>, depth: nat, inLoop: bool) {
    match d
    case Var(name, isConst, init) =>
      if depth == 0 then isConst || InitBlocked(init, isConst, locals)
      else
        || Redeclared(locals, depth, name) || |locals| >= LOCAL_MAX
        || InitBlocked(init, isConst, locals + [Local(name, -1, false)])
    case Statement(s) => StmtBlocked(s, locals, depth, inLoop)
  }

  ghost predicate DeclsBlocked(ds: Decls, locals: seq<Local>, depth: nat, inLoop: bool) {
    ds.More? &&
    (DeclBlocked(ds.first, locals, depth, inLoop) ||
     DeclsBlocked(ds.rest, locals + LocalOf(ds.first, depth == 0, depth), depth, inLoop))
  }

  predicate SomeUnfoldable(A: Arith, e: Option<Expr>) {
    e.Some? && Unfoldable(A, e.value)
  }

  /** One of the statement's expressions is unfoldable. */
  predicate StmtUnfoldable(A: Arith, s: Stmt) {
    match s
    case ExprStmt(e) => Unfoldable(A, e)
    case Print(e) => Unfoldable(A, e)
    case Block(ds) => DeclsUnfoldable(A, ds)
    case If(c, t, e) => Unfoldable(A, c) || StmtUnfoldable(A, t) || StmtUnfoldable(A, e)
    case While(c, b) => Unfoldable(A, c) || StmtUnfoldable(A, b)
    case DoWhile(b, c) => StmtUnfoldable(A, b) || Unfoldable(A, c)
    case For(init, test, step, b) =>
      DeclsUnfoldable(A, init) || SomeUnfoldable(A, test) || SomeUnfoldable(A, step) || StmtUnfoldable(A, b)
    case Break => false
    case Continue => false
  }

  predicate DeclUnfoldable(A: Arith, d: Decl) {
    match d
    case Var(_, _, init) => SomeUnfoldable(A, init)
    case Statement(s) => StmtUnfoldable(A, s)
  }

  predicate DeclsUnfoldable(A: Arith, ds: Decls) {
    ds.More? && (DeclUnfoldable(A, ds.first) || DeclsUnfoldable(A, ds.rest))
  }

  /** One of the statement's expressions has an operation that fails whatever its variables hold. */
  ghost predicate StmtHopeless(A: Arith, s: Stmt, names: seq<Text>) {
    match s
    case ExprStmt(e) => Hopeless(A, e, names)
    case Print(e) => Hopeless(A, e, names)
    case Block(ds) => DeclsHopeless(A, ds, false, names)
    case If(c, t, e) => Hopeless(A, c, names) || StmtHopeless(A, t, names) || StmtHopeless(A, e, names)
    case While(c, b) => Hopeless(A, c, names) || StmtHopeless(A, b, names)
    case DoWhile(b, c) => StmtHopeless(A, b, names) || Hopeless(A, c, names)
    case For(init, test, step, b) =>
      var inside := names + Declared(init, false);
      || DeclsHopeless(A, init, false, names) || (test.Some? && Hopeless(A, test.value, inside))
      || (step.Some? && Hopeless(A, step.value, inside)) || StmtHopeless(A, b, inside)
    case Break => false
    case Continue => false
  }

  ghost predicate DeclHopeless(A: Arith, d: Decl, names: seq<Text>) {
    match d
    case Var(_, _, init) => init.Some? && Hopeless(A, init.value, names)
    case Statement(s) => StmtHopeless(A, s, names)
  }

  ghost predicate DeclsHopeless(A: Arith, ds: Decls, top: bool, names: seq<Text>) {
    ds.More? && (DeclHopeless(A, ds.first, names) || DeclsHopeless(A, ds.rest, top, Extended(names, ds.first, top)))
  }

  lemma {:induction false} StmtFails(A: Arith, s: Stmt, names: seq<Text>)
    requires StmtSafe(s, names) && StmtUnfoldable(A, s)
    ensures StmtHopeless(A, s, names)
  {
    hide Unfoldable, Hopeless, JoinSafe, TailOf;
    match s
    case ExprStmt(e) => UnfoldableFails(A, e, names);
    case Print(e) => UnfoldableFails(A, e, names);
    case Block(ds) => DeclsFail(A, ds, false, names);
    case If(c, t, e) =>
      if Unfoldable(A, c) { UnfoldableFails(A, c, names); }
      else if StmtUnfoldable(A, t) { StmtFails(A, t, names); } else { StmtFails(A, e, names); }
    case While(c, b) => if Unfoldable(A, c) { UnfoldableFails(A, c, names); } else { StmtFails(A, b, names); }
    case DoWhile(b, c) => if Unfoldable(A, c) { UnfoldableFails(A, c, names); } else { StmtFails(A, b, names); }
    case For(init, test, step, b) =>
      var inside := names + Declared(init, false);
      if DeclsUnfoldable(A, init) { DeclsFail(A, init, false, names); }
      else if SomeUnfoldable(A, test) { UnfoldableFails(A, test.value, inside); }
      else if SomeUnfoldable(A, step) { UnfoldableFails(A, step.value, inside); }
      else { StmtFails(A, b, inside); }
  }

  /** Where no operation reaches across a join, a script is only unfoldable by an operation that always fails. */
  lemma {:induction false} DeclsFail(A: Arith, ds: Decls, top: bool, names: seq<Text>)
    requires DeclsSafe(ds, top, names) && DeclsUnfoldable(A, ds)
    ensures DeclsHopeless(A, ds, top, names)
  {
    hide Unfoldable, Hopeless, JoinSafe, TailOf, StmtUnfoldable, StmtHopeless;
    if DeclUnfoldable(A, ds.first) {
      match ds.first
      case Var(_, _, init) => UnfoldableFails(A, init.value, names);
      case Statement(s) => StmtFails(A, s, names);
    } else {
      DeclsFail(A, ds.rest, top, Extended(names, ds.first, top));
    }
  }

  // ---- Refusals ----

  /** Constants, code, or the jumps that leave the loop being compiled have become too many. */
  predicate TooMuch(x: Context) {
    || |x.chunk.consts| > UINT16_MAX || |x.chunk.code| + 3 > UINT16_MAX
    || (x.loop.Some? && (|x.loop.value.breakJumps| >= JUMPS_MAX || |x.loop.value.continueJumps| >= JUMPS_MAX))
  }

  ghost predicate SomeRefused(A: Arith, e: Option<Expr>, locals: seq<Local>, x: Context) {
    e.Some? && MayRefuse(A, e.value, locals, |x.chunk.consts|, |x.chunk.code|)
  }

  ghost predicate ItemBlocked(item: Item, x: Context) {
    match item
    case OfStmt(s) => StmtBlocked(s, x.locals, x.depth, x.loop.Some?)
    case OfDecl(d, _) => DeclBlocked(d, x.locals, x.depth, x.loop.Some?)
    case OfDecls(ds, _) => DeclsBlocked(ds, x.locals, x.depth, x.loop.Some?)
  }

  predicate ItemUnfoldable(A: Arith, item: Item) {
    match item
    case OfStmt(s) => StmtUnfoldable(A, s)
    case OfDecl(d, _) => DeclUnfoldable(A, d)
    case OfDecls(ds, _) => DeclsUnfoldable(A, ds)
  }

  /** The reasons for which an item may be refused in context x0, when x is the context in which it is. */
  ghost predicate Stopped(A: Arith, item: Item, x0: Context, x: Context) {
    ItemBlocked(item, x0) || ItemUnfoldable(A, item) || TooMuch(x)
  }

  /** Compiling has gone on from context x0, outside of declarations. */
  predicate Alike(x0: Context, x1: Context) {
    x1.locals == x0.locals && x1.depth == x0.depth && (x1.loop.Some? <==> x0.loop.Some?)
  }

  lemma StaysAlike(A: Arith, x0: Context, x1: Context, s: Stmt, tin: seq<Instr>, h: Holes)
    requires Achieved(A, x0, x1, OfStmt(s), tin, h)
    ensures Alike(x0, x1)
  {
    hide Processed, LocalsValid, LooseItem, InitializedNames, Kept, Tidy;
  }

  lemma ExprStopped(A: Arith, s: Stmt, e: Expr, x0: Context, x: Context)
    requires MayRefuse(A, e, x0.locals, |x.chunk.consts|, |x.chunk.code|)
    requires match s
             case ExprStmt(y) => y == e
             case Print(y) => y == e
             case If(y, _, _) => y == e
             case While(y, _) => y == e
             case DoWhile(_, y) => y == e
             case _ => false
    ensures Stopped(A, OfStmt(s), x0, x)
  {
    hide Blocked, Unfoldable;
  }

  lemma BranchStopped(A: Arith, s: Stmt, part: Stmt, x0: Context, xB: Context, x: Context)
    requires s.If? && (part == s.thn || part == s.els) && Alike(x0, xB) && Stopped(A, OfStmt(part), xB, x)
    ensures Stopped(A, OfStmt(s), x0, x)
  {
    hide Blocked, Unfoldable, TooMuch;
  }

  lemma LoopStopped(A: Arith, s: Stmt, x0: Context, x: Context)
    requires s.While? || s.DoWhile?
    requires StmtBlocked(s.body, x0.locals, x0.depth, true) || StmtUnfoldable(A, s.body) || TooMuch(x)
    ensures Stopped(A, OfStmt(s), x0, x)
  {
    hide Blocked, Unfoldable, TooMuch;
  }

  lemma BodyStopped(A: Arith, s: Stmt, x0: Context, xB: Context, x: Context)
    requires s.DoWhile? && xB.locals == x0.locals && xB.depth == x0.depth && xB.loop.Some?
    requires Stopped(A, OfStmt(s.body), xB, x)
    ensures Stopped(A, OfStmt(s), x0, x)
  {
    hide Blocked, Unfoldable, TooMuch;
  }

  lemma BodyFree(s: Stmt, xB: Context)
    requires s.DoWhile? && xB.loop.Some? && !ItemBlocked(OfStmt(s.body), xB)
    ensures !StmtBlocked(s.body, xB.locals, xB.depth, true)
  {
  }

  lemma LoopFree(s: Stmt, x0: Context)
    requires s.While? || s.DoWhile?
    requires !Blocked(s.cond, x0.locals) && !StmtBlocked(s.body, x0.locals, x0.depth, true)
    ensures !ItemBlocked(OfStmt(s), x0)
  {
    hide Blocked;
  }

  lemma SizeStopped(A: Arith, item: Item, x0: Context, x: Context)
    requires |x.chunk.code| + 3 > UINT16_MAX
    ensures Stopped(A, item, x0, x)
  {
  }

  lemma DoneFree(x: Context, top: bool)
    ensures !ItemBlocked(OfDecls(Done, top), x)
  {
  }

  lemma RestStopped(A: Arith, x0: Context, x1: Context, x: Context, d: Decl, rest: Decls, top: bool)
    requires Stopped(A, OfDecls(rest, top), x1, x)
    requires ItemBlocked(OfDecls(rest, top), x1) ==> ItemBlocked(OfDecls(More(d, rest), top), x0)
    ensures Stopped(A, OfDecls(More(d, rest), top), x0, x)
  {
    hide TooMuch, ItemBlocked, DeclUnfoldable;
  }

  lemma IfFree(s: Stmt, x0: Context, xB: Context, xP: Context)
    requires s.If? && Alike(x0, xB) && Alike(x0, xP)
    requires !Blocked(s.cond, x0.locals) && !ItemBlocked(OfStmt(s.thn), xB) && !ItemBlocked(OfStmt(s.els), xP)
    ensures !ItemBlocked(OfStmt(s), x0)
  {
    hide Blocked;
  }

  lemma ForStopped(A: Arith, s: Stmt, x0: Context, x1: Context, x: Context)
    requires s.For? && x1.locals == x0.locals && x1.depth == x0.depth + 1 && x1.loop == x0.loop
    requires Stopped(A, OfDecls(s.init, false), x1, x)
    ensures Stopped(A, OfStmt(s), x0, x)
  {
    hide Blocked, Unfoldable, TooMuch;
  }

  /** The locals inside a for loop. */
  lemma ForLocals(A: Arith, x1: Context, xI: Context, ds: Decls, tin: seq<Instr>, holes: Holes)
    requires Achieved(A, x1, xI, OfDecls(ds, false), tin, holes)
    ensures xI.locals == x1.locals + LocalsOf(ds, false, x1.depth) && xI.depth == x1.depth
  {
    hide Processed, LocalsValid, LooseItem, InitializedNames, LocalsOf, Kept, Tidy, Declared;
  }

  lemma ForPartStopped(A: Arith, s: Stmt, x0: Context, xI: Context, x: Context)
    requires s.For? && xI.locals == x0.locals + LocalsOf(s.init, false, x0.depth + 1) && xI.depth == x0.depth + 1
    requires SomeRefused(A, s.test, xI.locals, x) || SomeRefused(A, s.step, xI.locals, x)
             || StmtBlocked(s.body, xI.locals, xI.depth, true) || StmtUnfoldable(A, s.body) || TooMuch(x)
    ensures Stopped(A, OfStmt(s), x0, x)
  {
    hide Blocked, Unfoldable, LocalsOf;
  }

  lemma ForFree(s: Stmt, x0: Context, x1: Context, xI: Context)
    requires s.For? && x1.locals == x0.locals && x1.depth == x0.depth + 1 && x1.loop == x0.loop
    requires xI.locals == x0.locals + LocalsOf(s.init, false, x0.depth + 1) && xI.depth == x0.depth + 1
    requires !ItemBlocked(OfDecls(s.init, false), x1) && !StmtBlocked(s.body, xI.locals, xI.depth, true)
    requires !SomeBlocked(s.test, xI.locals) && !SomeBlocked(s.step, xI.locals)
    ensures !ItemBlocked(OfStmt(s), x0)
  {
    hide Blocked, LocalsOf;
  }

  /** A declaration, and the declarations behind it. */
  lemma MoreRules(A: Arith, x0: Context, x1: Context, d: Decl, rest: Decls, tin: seq<Instr>, h: Holes)
    requires Achieved(A, x0, x1, OfDecl(d, x0.depth == 0), tin, h)
    ensures var all, top := More(d, rest), x0.depth == 0;
            ItemBlocked(OfDecls(all, top), x0) <==> ItemBlocked(OfDecl(d, top), x0) || ItemBlocked(OfDecls(rest, top), x1)
  {
    hide Processed, LocalsValid, LooseItem, InitializedNames, Kept, Tidy, DeclBlocked;
    GrownTwice(x0.loop, h, h);
  }

  lemma DeclStopped(A: Arith, x0: Context, x: Context, d: Decl, rest: Decls, top: bool)
    requires Stopped(A, OfDecl(d, top), x0, x)
    ensures Stopped(A, OfDecls(More(d, rest), top), x0, x)
  {
    hide TooMuch, DeclBlocked, DeclUnfoldable;
  }
}
