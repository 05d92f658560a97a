/** The meaning of a program, by evaluation of its tree.  No instruction, slot or jump occurs here. */
module Semantics {
  import opened Types
  import opened Values
  import opened Syntax

  /** The local variables in scope, outermost first. */
  datatype Binding = Binding(name: Text, value: Value)
  type Env = seq<Binding>
  type Globals = map<Text, Value>

  function NamesOf(env: Env): (names: seq<Text>)
    ensures |names| == |env|
  {
    seq(|env|, i requires 0 <= i < |env| => env[i].name)
  }

  function ValuesOf(env: Env): (vs: seq<Value>)
    ensures |vs| == |env|
  {
    seq(|env|, i requires 0 <= i < |env| => env[i].value)
  }

  // ---- Expressions ----

  datatype EvalResult = Val(v: Value, env: Env, g: Globals) | Err(g: Globals)

  function Eval(A: Arith, e: Expr, env: Env, g: Globals): EvalResult {
    match e
    case NilLit => Val(Nil, env, g)
    case BoolLit(b) => Val(Bool(b), env, g)
    case NumberLit(n) => Val(Number(n), env, g)
    case StringLit(s) => Val(Str(s), env, g)
    case Variable(name) =>
      var i := Innermost(NamesOf(env), name);
      if i >= 0 then Val(env[i].value, env, g)
      else if name in g then Val(g[name], env, g)
      else Err(g)
    case Assign(name, x) =>
      (match Eval(A, x, env, g)
       case Err(g1) => Err(g1)
       case Val(v, env1, g1) =>
         var i := Innermost(NamesOf(env1), name);
         if i >= 0 then Val(v, env1[i := Binding(name, v)], g1)
         else if name in g1 then Val(v, env1, g1[name := v])
         else Err(g1))
    case Unary(op, x) =>
      (match Eval(A, x, env, g)
       case Err(g1) => Err(g1)
       case Val(v, env1, g1) =>
         match ApplyUnary(A, op, v)
         case Some(u) => Val(u, env1, g1)
         case None => Err(g1))
    case Binary(op, l, r) =>
      (match Eval(A, l, env, g)
       case Err(g1) => Err(g1)
       case Val(v, env1, g1) =>
         match Eval(A, r, env1, g1)
         case Err(g2) => Err(g2)
         case Val(w, env2, g2) =>
           match Apply(A, op, v, w)
           case Some(u) => Val(u, env2, g2)
           case None => Err(g2))
    case And(l, r) =>
      (match Eval(A, l, env, g)
       case Err(g1) => Err(g1)
       case Val(v, env1, g1) => if Falsey(v) then Val(v, env1, g1) else Eval(A, r, env1, g1))
    case Or(l, r) =>
      (match Eval(A, l, env, g)
       case Err(g1) => Err(g1)
       case Val(v, env1, g1) => if Falsey(v) then Eval(A, r, env1, g1) else Val(v, env1, g1))
  }

  lemma {:induction false} EvalKeepsNames(A: Arith, e: Expr, env: Env, g: Globals)
    ensures var r := Eval(A, e, env, g); r.Val? ==> NamesOf(r.env) == NamesOf(env)
  {
    match e
    case NilLit | BoolLit(_) | NumberLit(_) | StringLit(_) | Variable(_) =>
    case Assign(name, x) => EvalKeepsNames(A, x, env, g);
    case Unary(_, x) => EvalKeepsNames(A, x, env, g);
    case _ =>
      EvalKeepsNames(A, e.left, env, g);
      var l := Eval(A, e.left, env, g);
      if l.Val? { EvalKeepsNames(A, e.right, l.env, l.g); }
  }

  // ---- Statements ----

  /** How a statement ends.  A program has run out of fuel when some loop made more turns than it was
      given; a program that terminates does so for every large enough amount of fuel. */
  datatype Outcome =
    | Normal(env: Env, g: Globals, out: seq<Value>)
    | Broke(env: Env, g: Globals, out: seq<Value>)
    | Continued(env: Env, g: Globals, out: seq<Value>)
    | Failed(g: Globals, out: seq<Value>)
    | OutOfFuel

  /** Leaving a scope drops the variables declared in it. */
  function LeaveScope(r: Outcome, depth: nat): Outcome {
    match r
    case Normal(env, g, out) => if depth <= |env| then Normal(env[..depth], g, out) else r
    case Broke(env, g, out) => if depth <= |env| then Broke(env[..depth], g, out) else r
    case Continued(env, g, out) => if depth <= |env| then Continued(env[..depth], g, out) else r
    case Failed(_, _) => r
    case OutOfFuel => r
  }

  function Exec(A: Arith, s: Stmt, env: Env, g: Globals, out: seq<Value>, fuel: nat): Outcome
    decreases fuel, s, 0
  {
    match s
    case ExprStmt(e) =>
      (match Eval(A, e, env, g)
       case Err(g1) => Failed(g1, out)
       case Val(_, env1, g1) => Normal(env1, g1, out))
    case Print(e) =>
      (match Eval(A, e, env, g)
       case Err(g1) => Failed(g1, out)
       case Val(v, env1, g1) => Normal(env1, g1, out + [v]))
    case Block(ds) => LeaveScope(ExecDecls(A, ds, false, env, g, out, fuel), |env|)
    case If(c, t, f) =>
      (match Eval(A, c, env, g)
       case Err(g1) => Failed(g1, out)
       case Val(v, env1, g1) => Exec(A, if Falsey(v) then f else t, env1, g1, out, fuel))
    case While(c, b) =>
      if fuel == 0 then OutOfFuel else
      (match Eval(A, c, env, g)
       case Err(g1) => Failed(g1, out)
       case Val(v, env1, g1) =>
         if Falsey(v) then Normal(env1, g1, out)
         else
           match Exec(A, b, env1, g1, out, fuel)
           case Normal(env2, g2, out2) => Exec(A, s, env2, g2, out2, fuel - 1)
           case Continued(env2, g2, out2) => Exec(A, s, env2, g2, out2, fuel - 1)
           case Broke(env2, g2, out2) => Normal(env2, g2, out2)
           case Failed(g2, out2) => Failed(g2, out2)
           case OutOfFuel => OutOfFuel)
    case DoWhile(b, c) =>
      if fuel == 0 then OutOfFuel else
      (match Exec(A, b, env, g, out, fuel)
       case Normal(env1, g1, out1) => AfterBody(A, s, env1, g1, out1, fuel)
       case Continued(env1, g1, out1) => AfterBody(A, s, env1, g1, out1, fuel)
       case Broke(env1, g1, out1) => Normal(env1, g1, out1)
       case Failed(g1, out1) => Failed(g1, out1)
       case OutOfFuel => OutOfFuel)
    case For(init, test, step, b) =>
      LeaveScope(
        match ExecDecls(A, init, false, env, g, out, fuel)
        case Normal(env1, g1, out1) => ExecFor(A, test, step, b, env1, g1, out1, fuel)
        case Broke(env1, g1, out1) => Broke(env1, g1, out1)
        case Continued(env1, g1, out1) => Continued(env1, g1, out1)
        case Failed(g1, out1) => Failed(g1, out1)
        case OutOfFuel => OutOfFuel,
        |env|)
    case Break => Broke(env, g, out)
    case Continue => Continued(env, g, out)
  }

  /** The condition of a do-while loop, and its next turn. */
  function AfterBody(A: Arith, s: Stmt, env: Env, g: Globals, out: seq<Value>, fuel: nat): Outcome
    requires s.DoWhile? && fuel > 0
    decreases fuel - 1, s, 1
  {
    match Eval(A, s.cond, env, g)
    case Err(g1) => Failed(g1, out)
    case Val(v, env1, g1) =>
      if Falsey(v) then Normal(env1, g1, out) else Exec(A, s, env1, g1, out, fuel - 1)
  }

  /** A for loop, its initializer done. */
  function ExecFor(A: Arith, test: Option<Expr>, step: Option<Expr>, b: Stmt,
                   env: Env, g: Globals, out: seq<Value>, fuel: nat): Outcome
    decreases fuel, b, 1
  {
    if fuel == 0 then OutOfFuel else
    match (if test.Some? then Eval(A, test.value, env, g) else Val(Bool(true), env, g))
    case Err(g1) => Failed(g1, out)
    case Val(v, env1, g1) =>
      if Falsey(v) then Normal(env1, g1, out)
      else
        match Exec(A, b, env1, g1, out, fuel)
        case Normal(env2, g2, out2) => NextTurn(A, test, step, b, env2, g2, out2, fuel)
        case Continued(env2, g2, out2) => NextTurn(A, test, step, b, env2, g2, out2, fuel)
        case Broke(env2, g2, out2) => Normal(env2, g2, out2)
        case Failed(g2, out2) => Failed(g2, out2)
        case OutOfFuel => OutOfFuel
  }

  /** The increment of a for loop, and its next turn. */
  function NextTurn(A: Arith, test: Option<Expr>, step: Option<Expr>, b: Stmt,
                    env: Env, g: Globals, out: seq<Value>, fuel: nat): Outcome
    requires fuel > 0
    decreases fuel - 1, b, 2
  {
    match (if step.Some? then Eval(A, step.value, env, g) else Val(Nil, env, g))
    case Err(g1) => Failed(g1, out)
    case Val(_, env1, g1) => ExecFor(A, test, step, b, env1, g1, out, fuel - 1)
  }

  /** Outside every scope (top) a variable declaration creates or overwrites a global. */
  function ExecDecl(A: Arith, d: Decl, top: bool, env: Env, g: Globals, out: seq<Value>, fuel: nat): Outcome
    decreases fuel, d, 0
  {
    match d
    case Var(name, _, init) =>
      (match (if init.Some? then Eval(A, init.value, env, g) else Val(Nil, env, g))
       case Err(g1) => Failed(g1, out)
       case Val(v, env1, g1) =>
         if top then Normal(env1, g1[name := v], out)
         else Normal(env1 + [Binding(name, v)], g1, out))
    case Statement(s) => Exec(A, s, env, g, out, fuel)
  }

  function ExecDecls(A: Arith, ds: Decls, top: bool, env: Env, g: Globals, out: seq<Value>, fuel: nat): Outcome
    decreases fuel, ds, 0
  {
    match ds
    case Done => Normal(env, g, out)
    case More(d, rest) =>
      match ExecDecl(A, d, top, env, g, out, fuel)
      case Normal(env1, g1, out1) => ExecDecls(A, rest, top, env1, g1, out1, fuel)
      case Broke(env1, g1, out1) => Broke(env1, g1, out1)
      case Continued(env1, g1, out1) => Continued(env1, g1, out1)
      case Failed(g1, out1) => Failed(g1, out1)
      case OutOfFuel => OutOfFuel
  }

  // ---- Scoping ----

  predicate HasEnv(r: Outcome) {
    r.Normal? || r.Broke? || r.Continued?
  }

  /** The variables of env are still there, perhaps below newer ones. */
  predicate Deepens(env: Env, env1: Env) {
    |env| <= |env1| && NamesOf(env) == NamesOf(env1)[..|env|]
  }

  /** A statement leaves the variables in scope as they were, however it ends. */
  lemma {:induction false} ExecKeepsNames(A: Arith, s: Stmt, env: Env, g: Globals, out: seq<Value>, fuel: nat)
    ensures var r := Exec(A, s, env, g, out, fuel); HasEnv(r) ==> NamesOf(r.env) == NamesOf(env)
    decreases fuel, s, 0
  {
    match s
    case ExprStmt(e) => EvalKeepsNames(A, e, env, g);
    case Print(e) => EvalKeepsNames(A, e, env, g);
    case Block(ds) =>
      DeclsDeepen(A, ds, false, env, g, out, fuel);
      LeaveScopeNames(ExecDecls(A, ds, false, env, g, out, fuel), env);
    case If(c, t, f) =>
      EvalKeepsNames(A, c, env, g);
      var r := Eval(A, c, env, g);
      if r.Val? { ExecKeepsNames(A, if Falsey(r.v) then f else t, r.env, r.g, out, fuel); }
    case While(c, b) =>
      EvalKeepsNames(A, c, env, g);
      var r := Eval(A, c, env, g);
      if fuel > 0 && r.Val? && !Falsey(r.v) {
        ExecKeepsNames(A, b, r.env, r.g, out, fuel);
        var o := Exec(A, b, r.env, r.g, out, fuel);
        if o.Normal? || o.Continued? { ExecKeepsNames(A, s, o.env, o.g, o.out, fuel - 1); }
      }
    case DoWhile(b, c) =>
      if fuel > 0 {
        ExecKeepsNames(A, b, env, g, out, fuel);
        var o := Exec(A, b, env, g, out, fuel);
        if o.Normal? || o.Continued? {
          EvalKeepsNames(A, c, o.env, o.g);
          var r := Eval(A, c, o.env, o.g);
          if r.Val? && !Falsey(r.v) { ExecKeepsNames(A, s, r.env, r.g, o.out, fuel - 1); }
        }
      }
    case For(init, test, step, b) =>
      DeclsDeepen(A, init, false, env, g, out, fuel);
      var o := ExecDecls(A, init, false, env, g, out, fuel);
      if o.Normal? {
        ForKeepsNames(A, test, step, b, o.env, o.g, o.out, fuel);
        LeaveScopeNames(ExecFor(A, test, step, b, o.env, o.g, o.out, fuel), env);
      } else {
        LeaveScopeNames(o, env);
      }
    case Break =>
    case Continue =>
  }

  lemma LeaveScopeNames(r: Outcome, env: Env)
    requires HasEnv(r) ==> Deepens(env, r.env)
    ensures var o := LeaveScope(r, |env|);
            HasEnv(o) ==> o.env == r.env[..|env|] && NamesOf(o.env) == NamesOf(env)
  {
    if HasEnv(r) {
      assert NamesOf(r.env[..|env|]) == NamesOf(r.env)[..|env|];
    }
  }

  lemma {:induction false} ForKeepsNames(A: Arith, test: Option<Expr>, step: Option<Expr>, b: Stmt,
                                         env: Env, g: Globals, out: seq<Value>, fuel: nat)
    ensures var r := ExecFor(A, test, step, b, env, g, out, fuel); HasEnv(r) ==> NamesOf(r.env) == NamesOf(env)
    decreases fuel, b, 1
  {
    if fuel > 0 {
      if test.Some? { EvalKeepsNames(A, test.value, env, g); }
      var r := if test.Some? then Eval(A, test.value, env, g) else Val(Bool(true), env, g);
      if r.Val? && !Falsey(r.v) {
        ExecKeepsNames(A, b, r.env, r.g, out, fuel);
        var o := Exec(A, b, r.env, r.g, out, fuel);
        if o.Normal? || o.Continued? {
          if step.Some? { EvalKeepsNames(A, step.value, o.env, o.g); }
          var r2 := if step.Some? then Eval(A, step.value, o.env, o.g) else Val(Nil, o.env, o.g);
          if r2.Val? { ForKeepsNames(A, test, step, b, r2.env, r2.g, o.out, fuel - 1); }
        }
      }
    }
  }

  lemma {:induction false} DeclDeepens(A: Arith, d: Decl, top: bool, env: Env, g: Globals, out: seq<Value>, fuel: nat)
    ensures var r := ExecDecl(A, d, top, env, g, out, fuel);
            && (HasEnv(r) ==> Deepens(env, r.env))
            && (r.Normal? ==> NamesOf(r.env) == NamesOf(env) + (if d.Var? && !top then [d.name] else []))
    decreases fuel, d, 0
  {
    match d
    case Var(name, _, init) =>
      if init.Some? { EvalKeepsNames(A, init.value, env, g); }
      var r := if init.Some? then Eval(A, init.value, env, g) else Val(Nil, env, g);
      if r.Val? { assert NamesOf(r.env + [Binding(name, r.v)]) == NamesOf(r.env) + [name]; }
    case Statement(s) => ExecKeepsNames(A, s, env, g, out, fuel);
  }

  lemma {:induction false} DeclsDeepen(A: Arith, ds: Decls, top: bool, env: Env, g: Globals, out: seq<Value>, fuel: nat)
    ensures var r := ExecDecls(A, ds, top, env, g, out, fuel);
            && (HasEnv(r) ==> Deepens(env, r.env))
            && (r.Normal? ==> NamesOf(r.env) == NamesOf(env) + Declared(ds, top))
    decreases fuel, ds, 0
  {
    if ds.More? {
      DeclDeepens(A, ds.first, top, env, g, out, fuel);
      var r := ExecDecl(A, ds.first, top, env, g, out, fuel);
      if r.Normal? {
        DeclsDeepen(A, ds.rest, top, r.env, r.g, r.out, fuel);
        var o := ExecDecls(A, ds.rest, top, r.env, r.g, r.out, fuel);
        if HasEnv(o) {
          assert NamesOf(o.env)[..|env|] == NamesOf(o.env)[..|r.env|][..|env|];
        }
      }
    }
  }

  /** A statement without such a break or continue ends in neither. */
  lemma {:induction false} ExecClosed(A: Arith, s: Stmt, env: Env, g: Globals, out: seq<Value>, fuel: nat)
    requires !Loose(s)
    ensures var r := Exec(A, s, env, g, out, fuel); !r.Broke? && !r.Continued?
    decreases fuel, s, 0
  {
    hide Eval;
    match s
    case ExprStmt(e) =>
    case Print(e) =>
    case Block(ds) => DeclsClosed(A, ds, false, env, g, out, fuel);
    case If(c, t, f) =>
      var r := Eval(A, c, env, g);
      if r.Val? { ExecClosed(A, if Falsey(r.v) then f else t, r.env, r.g, out, fuel); }
    case While(c, b) =>
      var r := Eval(A, c, env, g);
      if fuel > 0 && r.Val? && !Falsey(r.v) {
        var o := Exec(A, b, r.env, r.g, out, fuel);
        if o.Normal? || o.Continued? { ExecClosed(A, s, o.env, o.g, o.out, fuel - 1); }
      }
    case DoWhile(b, c) =>
      if fuel > 0 {
        var o := Exec(A, b, env, g, out, fuel);
        if o.Normal? || o.Continued? {
          var r := Eval(A, c, o.env, o.g);
          if r.Val? && !Falsey(r.v) { ExecClosed(A, s, r.env, r.g, o.out, fuel - 1); }
        }
      }
    case For(init, test, step, b) =>
      DeclsClosed(A, init, false, env, g, out, fuel);
      var o := ExecDecls(A, init, false, env, g, out, fuel);
      if o.Normal? { ForClosed(A, test, step, b, o.env, o.g, o.out, fuel); }
    case Break =>
    case Continue =>
  }

  lemma {:induction false} ForClosed(A: Arith, test: Option<Expr>, step: Option<Expr>, b: Stmt,
                                     env: Env, g: Globals, out: seq<Value>, fuel: nat)
    ensures var r := ExecFor(A, test, step, b, env, g, out, fuel); !r.Broke? && !r.Continued?
    decreases fuel, b, 1
  {
    hide Eval;
    if fuel > 0 {
      var r := if test.Some? then Eval(A, test.value, env, g) else Val(Bool(true), env, g);
      if r.Val? && !Falsey(r.v) {
        var o := Exec(A, b, r.env, r.g, out, fuel);
        if o.Normal? || o.Continued? {
          var r2 := if step.Some? then Eval(A, step.value, o.env, o.g) else Val(Nil, o.env, o.g);
          if r2.Val? { ForClosed(A, test, step, b, r2.env, r2.g, o.out, fuel - 1); }
        }
      }
    }
  }

  lemma {:induction false} DeclsClosed(A: Arith, ds: Decls, top: bool, env: Env, g: Globals, out: seq<Value>, fuel: nat)
    requires !LooseDecls(ds)
    ensures var r := ExecDecls(A, ds, top, env, g, out, fuel); !r.Broke? && !r.Continued?
    decreases fuel, ds, 0
  {
    hide Eval;
    if ds.More? {
      if ds.first.Statement? { ExecClosed(A, ds.first.s, env, g, out, fuel); }
      var r := ExecDecl(A, ds.first, top, env, g, out, fuel);
      if r.Normal? { DeclsClosed(A, ds.rest, top, r.env, r.g, r.out, fuel); }
    }
  }
}
