/** Laws that scripts can count on, whatever the arithmetic. */
module Laws {
  import opened Types
  import opened Values
  import opened Syntax
  import opened Semantics

  // ---- Names ----

  /** The value that a name has, of the innermost local or else of the global. */
  function ValueOf(name: Text, env: Env, g: Globals): Option<Value> {
    if env != [] && env[|env| - 1].name == name then Some(env[|env| - 1].value)
    else if env != [] then ValueOf(name, env[..|env| - 1], g)
    else if name in g then Some(g[name])
    else None
  }

  lemma {:induction false} InnermostTells(name: Text, env: Env, g: Globals)
    ensures var i := Innermost(NamesOf(env), name);
            ValueOf(name, env, g) ==
              if i >= 0 then Some(env[i].value) else if name in g then Some(g[name]) else None
  {
    if env != [] {
      var n := |env| - 1;
      InnermostTells(name, env[..n], g);
      assert NamesOf(env)[..n] == NamesOf(env[..n]);
    }
  }

  /** Reading a name gives its value; a name without one is an error, and nothing changes. */
  lemma ReadLaw(A: Arith, name: Text, env: Env, g: Globals)
    ensures Eval(A, Variable(name), env, g) ==
            if ValueOf(name, env, g).Some? then Val(ValueOf(name, env, g).value, env, g) else Err(g)
  {
    hide Innermost, ValueOf;
    InnermostTells(name, env, g);
  }

  /** Assigning gives the name the value of the expression, and all other names keep theirs; it defines no name, and is an
      error for a name without a value. */
  lemma AssignLaw(A: Arith, name: Text, x: Expr, env: Env, g: Globals)
    ensures var r, u := Eval(A, x, env, g), Eval(A, Assign(name, x), env, g);
      if r.Err? || ValueOf(name, r.env, r.g).None? then u == Err(r.g)
      else
        && u.Val? && u.v == r.v && |u.env| == |r.env| && u.g.Keys == r.g.Keys
        && ValueOf(name, u.env, u.g) == Some(r.v)
        && forall other :: other != name ==> ValueOf(other, u.env, u.g) == ValueOf(other, r.env, r.g)
  {
    hide Innermost, ValueOf;
    var r := Eval(A, x, env, g);
    if r.Val? {
      InnermostTells(name, r.env, r.g);
      var i := Innermost(NamesOf(r.env), name);
      if i >= 0 {
        LocalSet(r.env, i, name, r.v, r.g);
      } else if name in r.g {
        GlobalSet(r.env, name, r.v, r.g);
      }
    }
  }

  lemma {:induction false} LocalSet(env: Env, i: nat, name: Text, v: Value, g: Globals)
    requires i == Innermost(NamesOf(env), name)
    ensures i < |env| && ValueOf(name, env[i := Binding(name, v)], g) == Some(v)
    ensures forall other :: other != name ==> ValueOf(other, env[i := Binding(name, v)], g) == ValueOf(other, env, g)
  {
    hide Innermost;
    var n := |env| - 1;
    var more := env[i := Binding(name, v)];
    LastOne(env, name);
    if i < n {
      LocalSet(env[..n], i, name, v, g);
      assert more[..n] == env[..n][i := Binding(name, v)] && more[n] == env[n];
    } else {
      assert more[..n] == env[..n];
    }
  }

  lemma LastOne(env: Env, name: Text)
    ensures var n := |env| - 1;
            env != [] ==>
              if env[n].name == name then Innermost(NamesOf(env), name) == n
              else Innermost(NamesOf(env), name) == Innermost(NamesOf(env[..n]), name)
    ensures env != [] && Innermost(NamesOf(env), name) >= 0 ==>
              NamesOf(env)[Innermost(NamesOf(env), name)] == name
  {
    if env != [] { assert NamesOf(env)[..|env| - 1] == NamesOf(env[..|env| - 1]); }
  }

  lemma {:induction false} GlobalSet(env: Env, name: Text, v: Value, g: Globals)
    requires name !in NamesOf(env)
    ensures ValueOf(name, env, g[name := v]) == Some(v)
    ensures forall other :: other != name ==> ValueOf(other, env, g[name := v]) == ValueOf(other, env, g)
  {
    if env != [] {
      var n := |env| - 1;
      assert NamesOf(env)[..n] == NamesOf(env[..n]) && NamesOf(env)[n] == env[n].name;
      GlobalSet(env[..n], name, v, g);
    }
  }

  /** A declaration gives the name the value of the initializer, nil without one, and all other names keep theirs. */
  lemma DeclareLaw(A: Arith, name: Text, isConst: bool, init: Option<Expr>, top: bool, env: Env, g: Globals, out: seq<Value>,
                   fuel: nat)
    requires top ==> name !in NamesOf(env)
    ensures var r := if init.Some? then Eval(A, init.value, env, g) else Val(Nil, env, g);
            var o := ExecDecl(A, Var(name, isConst, init), top, env, g, out, fuel);
      if r.Err? then o == Failed(r.g, out)
      else
        && o.Normal? && o.out == out && ValueOf(name, o.env, o.g) == Some(r.v)
        && forall other :: other != name ==> ValueOf(other, o.env, o.g) == ValueOf(other, r.env, r.g)
  {
    hide Eval;
    var r := if init.Some? then Eval(A, init.value, env, g) else Val(Nil, env, g);
    if r.Val? {
      if init.Some? { EvalKeepsNames(A, init.value, env, g); }
      if top {
        GlobalSet(r.env, name, r.v, r.g);
      } else {
        var more := r.env + [Binding(name, r.v)];
        assert more[..|more| - 1] == r.env;
      }
    }
  }

  // ---- Control ----

  lemma WhileUnfolds(A: Arith, c: Expr, t: Stmt, env: Env, g: Globals, out: seq<Value>, fuel: nat)
    requires fuel > 0
    ensures var o, r := Exec(A, While(c, t), env, g, out, fuel), Eval(A, c, env, g);
      if r.Err? then o == Failed(r.g, out)
      else if Falsey(r.v) then o == Normal(r.env, r.g, out)
      else
        var u := Exec(A, t, r.env, r.g, out, fuel);
        if u.Normal? || u.Continued? then o == Exec(A, While(c, t), u.env, u.g, u.out, fuel - 1)
        else o == if u.Broke? then Normal(u.env, u.g, u.out) else u
  {
    hide Apply, ApplyUnary, Innermost, NamesOf;
  }

  lemma ForUnfolds(A: Arith, c: Expr, step: Expr, b: Stmt, env: Env, g: Globals, out: seq<Value>, fuel: nat)
    requires fuel > 0
    ensures var o, r := ExecFor(A, Some(c), Some(step), b, env, g, out, fuel), Eval(A, c, env, g);
      if r.Err? then o == Failed(r.g, out)
      else if Falsey(r.v) then o == Normal(r.env, r.g, out)
      else
        var u := Exec(A, b, r.env, r.g, out, fuel);
        if u.Normal? || u.Continued? then
          var w := Eval(A, step, u.env, u.g);
          o == if w.Err? then Failed(w.g, u.out) else ExecFor(A, Some(c), Some(step), b, w.env, w.g, u.out, fuel - 1)
        else o == if u.Broke? then Normal(u.env, u.g, u.out) else u
  {
    hide Apply, ApplyUnary, Innermost, NamesOf;
  }

  lemma NoTurn(A: Arith, c: Expr, step: Expr, b: Stmt, t: Stmt, env: Env, g: Globals, out: seq<Value>)
    ensures Exec(A, While(c, t), env, g, out, 0) == OutOfFuel == ExecFor(A, Some(c), Some(step), b, env, g, out, 0)
  {
  }

  /** A `for` loop whose body does not continue is a `while` loop that ends its turns with the increment. */
  lemma {:induction false} ForIsWhile(A: Arith, test: Expr, step: Expr, b: Stmt, env: Env, g: Globals, out: seq<Value>,
                                      fuel: nat)
    requires !Loose(b)
    ensures ExecFor(A, Some(test), Some(step), b, env, g, out, fuel) ==
            Exec(A, While(test, Turn(b, step)), env, g, out, fuel)
    decreases fuel
  {
    hide Eval, Turn, Exec, ExecFor, Loose;
    if fuel == 0 {
      NoTurn(A, test, step, b, Turn(b, step), env, g, out);
    } else {
      WhileUnfolds(A, test, Turn(b, step), env, g, out, fuel);
      ForUnfolds(A, test, step, b, env, g, out, fuel);
      var r := Eval(A, test, env, g);
      if r.Val? && !Falsey(r.v) {
        TurnIs(A, b, step, r.env, r.g, out, fuel);
        ExecClosed(A, b, r.env, r.g, out, fuel);
        var o := Exec(A, b, r.env, r.g, out, fuel);
        if o.Normal? {
          var u := Eval(A, step, o.env, o.g);
          if u.Val? { ForIsWhile(A, test, step, b, u.env, u.g, o.out, fuel - 1); }
        }
      }
    }
  }

  function Turn(b: Stmt, step: Expr): Stmt {
    Block(More(Statement(b), More(Statement(ExprStmt(step)), Done)))
  }

  lemma TurnIs(A: Arith, b: Stmt, step: Expr, env: Env, g: Globals, out: seq<Value>, fuel: nat)
    requires !Loose(b)
    ensures var o := Exec(A, b, env, g, out, fuel);
      if o.Normal? then
        var u := Eval(A, step, o.env, o.g);
        Exec(A, Turn(b, step), env, g, out, fuel) == if u.Err? then Failed(u.g, o.out) else Normal(u.env, u.g, o.out)
      else Exec(A, Turn(b, step), env, g, out, fuel) == o
  {
    hide Apply, ApplyUnary, Innermost;
    ExecClosed(A, b, env, g, out, fuel);
    ExecKeepsNames(A, b, env, g, out, fuel);
    var o := Exec(A, b, env, g, out, fuel);
    var rest := More(Statement(ExprStmt(step)), Done);
    var all := ExecDecls(A, More(Statement(b), rest), false, env, g, out, fuel);
    assert Exec(A, Turn(b, step), env, g, out, fuel) == LeaveScope(all, |env|);
    assert ExecDecl(A, Statement(b), false, env, g, out, fuel) == o;
    if o.Normal? {
      var u := Eval(A, step, o.env, o.g);
      assert all == ExecDecls(A, rest, false, o.env, o.g, o.out, fuel);
      StepIs(A, step, o.env, o.g, o.out, fuel);
      if u.Val? {
        EvalKeepsNames(A, step, o.env, o.g);
        assert |u.env| == |NamesOf(u.env)| == |NamesOf(env)| == |env|;
        assert u.env[..|env|] == u.env;
      }
    }
  }

  lemma StepIs(A: Arith, step: Expr, env: Env, g: Globals, out: seq<Value>, fuel: nat)
    ensures var u := Eval(A, step, env, g);
            ExecDecls(A, More(Statement(ExprStmt(step)), Done), false, env, g, out, fuel) ==
            if u.Err? then Failed(u.g, out) else Normal(u.env, u.g, out)
  {
    var u, d := Eval(A, step, env, g), Statement(ExprStmt(step));
    var o := ExecDecl(A, d, false, env, g, out, fuel);
    assert o == Exec(A, d.s, env, g, out, fuel);
    match u
    case Err(g1) => assert o == Failed(g1, out);
    case Val(v, env1, g1) => assert o == Normal(env1, g1, out);
  }
}
