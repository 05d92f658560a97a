/** The rules of scopes, constants and loops that every accepted script keeps, and what they are for. */
module Rules {
  import opened Types
  import opened Values
  import opened Syntax
  import opened Semantics
  import opened Scopes
  import opened Refusals

  // ---- The rules ----

  /** The names of a scope, each with whether it is a constant; the outermost scope is the script's. */
  type Scope = map<Text, bool>

  /** What the name means: in the innermost scope that has it, whether it is a constant. */
  function Find(scopes: seq<Scope>, name: Text): Option<bool> {
    if scopes == [] then None
    else
      var inner := scopes[|scopes| - 1];
      if name in inner then Some(inner[name]) else Find(scopes[..|scopes| - 1], name)
  }

  function Count(scopes: seq<Scope>): nat {
    if scopes == [] then 0 else Count(scopes[..|scopes| - 1]) + |scopes[|scopes| - 1]|
  }

  /** No constant is assigned to, and `own`, the local being declared, is not used. */
  predicate LegalExpr(e: Expr, scopes: seq<Scope>, own: Option<Text>) {
    match e
    case NilLit | BoolLit(_) | NumberLit(_) | StringLit(_) => true
    case Variable(name) => own != Some(name)
    case Assign(name, x) => own != Some(name) && Find(scopes, name) != Some(true) && LegalExpr(x, scopes, own)
    case Unary(_, x) => LegalExpr(x, scopes, own)
    case Binary(_, l, r) => LegalExpr(l, scopes, own) && LegalExpr(r, scopes, own)
    case And(l, r) => LegalExpr(l, scopes, own) && LegalExpr(r, scopes, own)
    case Or(l, r) => LegalExpr(l, scopes, own) && LegalExpr(r, scopes, own)
  }

  predicate LegalOption(e: Option<Expr>, scopes: seq<Scope>) {
    e.Some? ==> LegalExpr(e.value, scopes, None)
  }

  /** Break and continue stand in loops; a block and a for loop have a scope of their own. */
  predicate LegalStmt(s: Stmt, scopes: seq<Scope>, inLoop: bool) {
    match s
    case ExprStmt(e) => LegalExpr(e, scopes, None)
    case Print(e) => LegalExpr(e, scopes, None)
    case Block(ds) => LegalDecls(ds, scopes + [map[]], inLoop)
    case If(c, t, e) => LegalExpr(c, scopes, None) && LegalStmt(t, scopes, inLoop) && LegalStmt(e, scopes, inLoop)
    case While(c, b) => LegalExpr(c, scopes, None) && LegalStmt(b, scopes, true)
    case DoWhile(b, c) => LegalStmt(b, scopes, true) && LegalExpr(c, scopes, None)
    case For(init, test, step, b) =>
      var inner := WithAll(scopes + [map[]], init);
      LegalDecls(init, scopes + [map[]], inLoop) && LegalOption(test, inner) && LegalOption(step, inner) &&
      LegalStmt(b, inner, true)
    case Break => inLoop
    case Continue => inLoop
  }

  /** A scope has a name once, 255 locals may be alive, a local is not used in its own initializer, and a constant is a
      local that has one. */
  predicate LegalDecl(d: Decl, scopes: seq<Scope>, inLoop: bool) {
    match d
    case Var(name, isConst, init) =>
      if |scopes| <= 1 then !isConst && LegalOption(init, scopes)
      else
        && name !in scopes[|scopes| - 1] && Count(scopes) < 255
        && if init.Some? then LegalExpr(init.value, scopes, Some(name)) else !isConst
    case Statement(s) => LegalStmt(s, scopes, inLoop)
  }

  predicate LegalDecls(ds: Decls, scopes: seq<Scope>, inLoop: bool) {
    ds.More? ==> LegalDecl(ds.first, scopes, inLoop) && LegalDecls(ds.rest, With(scopes, ds.first), inLoop)
  }

  /** The scopes behind a declaration. */
  function With(scopes: seq<Scope>, d: Decl): (r: seq<Scope>)
    ensures |r| == |scopes|
  {
    if d.Var? && |scopes| > 1 then
      var n := |scopes| - 1;
      scopes[n := scopes[n][d.name := d.isConst]]
    else scopes
  }

  function WithAll(scopes: seq<Scope>, ds: Decls): (r: seq<Scope>)
    ensures |r| == |scopes|
    decreases ds
  {
    if ds.Done? then scopes else WithAll(With(scopes, ds.first), ds.rest)
  }

  /** A script that keeps the rules; the script itself is the local `this`. */
  predicate Legal(ds: Decls, this_: Text) {
    LegalDecls(ds, [map[this_ := false]], false)
  }

  // ---- The compiler's locals ----

  /** The flat list of locals, by depth and name, is what the scopes hold. */
  ghost predicate Models(locals: seq<Local>, depth: nat, scopes: seq<Scope>) {
    && |scopes| == depth + 1 && Count(scopes) == |locals|
    && (forall i :: 0 <= i < |locals| ==> 0 <= locals[i].depth <= depth && Has(scopes, locals[i]))
    && (forall i, j :: 0 <= i < j < |locals| ==> locals[i].depth <= locals[j].depth)
    && (forall i, j :: 0 <= i < j < |locals| && locals[i].depth == locals[j].depth ==> locals[i].name != locals[j].name)
    && (forall k, n :: 0 <= k <= depth && n in scopes[k] ==> Listed(locals, k, n))
  }

  predicate Has(scopes: seq<Scope>, l: Local) {
    && 0 <= l.depth < |scopes| && l.name in scopes[l.depth] && scopes[l.depth][l.name] == l.isConst
  }

  predicate Listed(locals: seq<Local>, k: nat, n: Text) {
    exists i :: 0 <= i < |locals| && locals[i].depth == k && locals[i].name == n
  }

  lemma {:induction false} FindAt(scopes: seq<Scope>, name: Text, d: nat)
    requires d < |scopes| && name in scopes[d] && forall k :: d < k < |scopes| ==> name !in scopes[k]
    ensures Find(scopes, name) == Some(scopes[d][name])
  {
    var n := |scopes| - 1;
    if d < n { FindAt(scopes[..n], name, d); }
  }

  lemma {:induction false} FindNone(scopes: seq<Scope>, name: Text)
    requires forall k :: 0 <= k < |scopes| ==> name !in scopes[k]
    ensures Find(scopes, name) == None
  {
    if scopes != [] { FindNone(scopes[..|scopes| - 1], name); }
  }

  /** The scopes behind that of the last local of the name do not have the name. */
  lemma NameWhere(locals: seq<Local>, depth: nat, scopes: seq<Scope>, name: Text, i: int)
    requires Models(locals, depth, scopes) && -1 <= i < |locals| && (i >= 0 ==> locals[i].name == name)
    requires forall j :: 0 <= j < |locals| && locals[j].name == name ==> j <= i
    ensures |scopes| == depth + 1 && (i >= 0 ==> Has(scopes, locals[i]))
    ensures forall k :: 0 <= k < |scopes| && name in scopes[k] ==> i >= 0 && k <= locals[i].depth
  {
    hide Count, Has;
    forall k | 0 <= k < |scopes| && name in scopes[k] ensures i >= 0 && k <= locals[i].depth {
      assert Listed(locals, k, name);
    }
  }

  /** The innermost scope with the name has the innermost local of the name. */
  lemma FindIs(locals: seq<Local>, depth: nat, scopes: seq<Scope>, names: seq<Text>, name: Text)
    requires Models(locals, depth, scopes) && |names| == |locals|
    requires forall i :: 0 <= i < |locals| ==> names[i] == locals[i].name
    ensures var i := Innermost(names, name); Find(scopes, name) == if i >= 0 then Some(locals[i].isConst) else None
  {
    hide Innermost, Models;
    var i := Innermost(names, name);
    InnermostLast(names, name);
    NameWhere(locals, depth, scopes, name, i);
    if i >= 0 { FindAt(scopes, name, locals[i].depth); } else { FindNone(scopes, name); }
  }

  lemma InnermostLast(names: seq<Text>, name: Text)
    ensures forall j :: 0 <= j < |names| && names[j] == name ==> j <= Innermost(names, name)
  {
    hide Innermost;
    var i := Innermost(names, name);
    forall j | i < j < |names| ensures names[j] != name { assert names[i + 1..][j - i - 1] == names[j]; }
  }

  lemma {:induction false} CountMore(scopes: seq<Scope>, k: nat, name: Text, c: bool)
    requires k < |scopes| && name !in scopes[k]
    ensures Count(scopes[k := scopes[k][name := c]]) == Count(scopes) + 1
  {
    var n := |scopes| - 1;
    var more := scopes[k := scopes[k][name := c]];
    if k < n {
      CountMore(scopes[..n], k, name, c);
      assert more[..n] == scopes[..n][k := scopes[k][name := c]];
    } else {
      assert more[..n] == scopes[..n];
      assert scopes[k][name := c].Keys == scopes[k].Keys + {name};
      SizeOfKeys(scopes[k]);
      SizeOfKeys(scopes[k][name := c]);
    }
  }

  lemma SizeOfKeys(m: Scope)
    ensures |m| == |m.Keys|
  {
  }

  lemma ModelsDeeper(locals: seq<Local>, depth: nat, scopes: seq<Scope>)
    requires Models(locals, depth, scopes)
    ensures Models(locals, depth + 1, scopes + [map[]])
  {
    var more := scopes + [map[]];
    assert more[..|scopes|] == scopes;
    forall i | 0 <= i < |locals| ensures Has(more, locals[i]) { assert Has(scopes, locals[i]); }
  }

  lemma ModelsWith(locals: seq<Local>, depth: nat, scopes: seq<Scope>, d: Decl)
    requires Models(locals, depth, scopes)
    requires |scopes| == depth + 1 && (d.Var? && depth > 0 ==> d.name !in scopes[depth])
    ensures Models(locals + LocalOf(d, depth == 0, depth), depth, With(scopes, d))
  {
    hide Count;
    if d.Var? && depth > 0 {
      var l, more := Local(d.name, depth, d.isConst), With(scopes, d);
      var all := locals + [l];
      CountMore(scopes, depth, d.name, d.isConst);
      forall i | 0 <= i < |all| ensures 0 <= all[i].depth <= depth && Has(more, all[i]) {
        if i < |locals| { assert Has(scopes, locals[i]); }
      }
      ListedMore(locals, depth, scopes, l);
      forall i | 0 <= i < |locals| && locals[i].depth == depth ensures locals[i].name != d.name { assert Has(scopes, locals[i]); }
    } else {
      assert locals + [] == locals;
    }
  }

  lemma ListedMore(locals: seq<Local>, depth: nat, scopes: seq<Scope>, l: Local)
    requires |scopes| == depth + 1 && l.depth == depth
    requires forall k, n :: 0 <= k <= depth && n in scopes[k] ==> Listed(locals, k, n)
    ensures forall k, n :: 0 <= k <= depth && n in scopes[depth := scopes[depth][l.name := l.isConst]][k] ==>
              Listed(locals + [l], k, n)
  {
    var all := locals + [l];
    assert all[|locals|] == l;
    forall k, n | 0 <= k <= depth && Listed(locals, k, n) ensures Listed(all, k, n) {
      var i :| 0 <= i < |locals| && locals[i].depth == k && locals[i].name == n;
      assert all[i] == locals[i];
    }
  }

  lemma ModelsReady(locals: seq<Local>, depth: nat, scopes: seq<Scope>)
    requires Models(locals, depth, scopes)
    ensures Ready(locals) && |InitializedNames(locals)| == |locals|
    ensures forall i :: 0 <= i < |locals| ==> InitializedNames(locals)[i] == locals[i].name
  {
    hide Count;
  }

  /** `all` are the locals, or these with one more that is being initialized. */
  ghost predicate Being(locals: seq<Local>, all: seq<Local>, own: Option<Text>) {
    all == if own.Some? then locals + [Local(own.value, -1, false)] else locals
  }

  lemma {:induction false} ExprLegal(e: Expr, locals: seq<Local>, all: seq<Local>, depth: nat, scopes: seq<Scope>,
                                     own: Option<Text>)
    requires Models(locals, depth, scopes) && Being(locals, all, own)
    ensures LegalExpr(e, scopes, own) <==> !Blocked(e, all)
  {
    hide Models, Find, InitializedNames;
    match e
    case NilLit | BoolLit(_) | NumberLit(_) | StringLit(_) =>
    case Variable(name) => OwnIs(locals, all, depth, scopes, own, name);
    case Assign(name, x) =>
      OwnIs(locals, all, depth, scopes, own, name);
      ExprLegal(x, locals, all, depth, scopes, own);
    case Unary(_, x) => ExprLegal(x, locals, all, depth, scopes, own);
    case Binary(_, l, r) =>
      ExprLegal(l, locals, all, depth, scopes, own);
      ExprLegal(r, locals, all, depth, scopes, own);
    case And(l, r) =>
      ExprLegal(l, locals, all, depth, scopes, own);
      ExprLegal(r, locals, all, depth, scopes, own);
    case Or(l, r) =>
      ExprLegal(l, locals, all, depth, scopes, own);
      ExprLegal(r, locals, all, depth, scopes, own);
  }

  lemma OwnIs(locals: seq<Local>, all: seq<Local>, depth: nat, scopes: seq<Scope>, own: Option<Text>, name: Text)
    requires Models(locals, depth, scopes) && Being(locals, all, own)
    ensures Uninitialized(all, name) <==> own == Some(name)
    ensures Fixed(all, name) <==> Find(scopes, name) == Some(true)
  {
    hide Find, Count;
    ModelsReady(locals, depth, scopes);
    assert InitializedNames(all) == InitializedNames(locals);
    FindIs(locals, depth, scopes, InitializedNames(all), name);
  }

  lemma OptionLegal(e: Option<Expr>, locals: seq<Local>, depth: nat, scopes: seq<Scope>)
    requires Models(locals, depth, scopes)
    ensures LegalOption(e, scopes) <==> !SomeBlocked(e, locals)
  {
    if e.Some? { ExprLegal(e.value, locals, locals, depth, scopes, None); }
  }

  /** The compiler blocks exactly the statements that break a rule. */
  lemma {:induction false} StmtLegal(s: Stmt, locals: seq<Local>, depth: nat, scopes: seq<Scope>, inLoop: bool)
    requires Models(locals, depth, scopes)
    ensures LegalStmt(s, scopes, inLoop) <==> !StmtBlocked(s, locals, depth, inLoop)
  {
    hide Models, LegalExpr, Blocked, LegalOption, SomeBlocked, WithAll, LocalsOf;
    match s
    case ExprStmt(e) => ExprLegal(e, locals, locals, depth, scopes, None);
    case Print(e) => ExprLegal(e, locals, locals, depth, scopes, None);
    case Block(ds) =>
      ModelsDeeper(locals, depth, scopes);
      DeclsLegal(ds, locals, depth + 1, scopes + [map[]], inLoop);
    case If(c, t, e) =>
      ExprLegal(c, locals, locals, depth, scopes, None);
      StmtLegal(t, locals, depth, scopes, inLoop);
      StmtLegal(e, locals, depth, scopes, inLoop);
    case While(c, b) =>
      ExprLegal(c, locals, locals, depth, scopes, None);
      StmtLegal(b, locals, depth, scopes, true);
    case DoWhile(b, c) =>
      ExprLegal(c, locals, locals, depth, scopes, None);
      StmtLegal(b, locals, depth, scopes, true);
    case For(init, test, step, b) =>
      ModelsDeeper(locals, depth, scopes);
      DeclsLegal(init, locals, depth + 1, scopes + [map[]], inLoop);
      if LegalDecls(init, scopes + [map[]], inLoop) {
        ModelsAll(init, locals, depth + 1, scopes + [map[]], inLoop);
        var inside, inner := locals + LocalsOf(init, false, depth + 1), WithAll(scopes + [map[]], init);
        OptionLegal(test, inside, depth + 1, inner);
        OptionLegal(step, inside, depth + 1, inner);
        StmtLegal(b, inside, depth + 1, inner, true);
      }
    case Break =>
    case Continue =>
  }

  lemma {:induction false} ModelsAll(ds: Decls, locals: seq<Local>, depth: nat, scopes: seq<Scope>, inLoop: bool)
    requires Models(locals, depth, scopes) && LegalDecls(ds, scopes, inLoop)
    ensures Models(locals + LocalsOf(ds, depth == 0, depth), depth, WithAll(scopes, ds))
  {
    hide Models, LegalDecl, With, LocalOf;
    if ds.More? {
      FreshName(ds.first, locals, depth, scopes, inLoop);
      ModelsWith(locals, depth, scopes, ds.first);
      ModelsAll(ds.rest, locals + LocalOf(ds.first, depth == 0, depth), depth, With(scopes, ds.first), inLoop);
      assert locals + LocalsOf(ds, depth == 0, depth) ==
             locals + LocalOf(ds.first, depth == 0, depth) + LocalsOf(ds.rest, depth == 0, depth);
    } else {
      assert locals + [] == locals;
    }
  }

  lemma FreshName(d: Decl, locals: seq<Local>, depth: nat, scopes: seq<Scope>, inLoop: bool)
    requires Models(locals, depth, scopes) && LegalDecl(d, scopes, inLoop)
    ensures |scopes| == depth + 1 && (d.Var? && depth > 0 ==> d.name !in scopes[depth])
  {
    hide Count, LegalExpr, LegalStmt;
  }

  lemma {:induction false} DeclsLegal(ds: Decls, locals: seq<Local>, depth: nat, scopes: seq<Scope>, inLoop: bool)
    requires Models(locals, depth, scopes)
    ensures LegalDecls(ds, scopes, inLoop) <==> !DeclsBlocked(ds, locals, depth, inLoop)
  {
    if ds.More? {
      hide LegalExpr, Blocked, LegalOption, InitBlocked, LegalStmt, StmtBlocked, Count;
      if ds.first.Statement? {
        StmtLegal(ds.first.s, locals, depth, scopes, inLoop);
      } else {
        VarLegal(ds.first, locals, depth, scopes, inLoop);
      }
      if LegalDecl(ds.first, scopes, inLoop) {
        FreshName(ds.first, locals, depth, scopes, inLoop);
        ModelsWith(locals, depth, scopes, ds.first);
        DeclsLegal(ds.rest, locals + LocalOf(ds.first, depth == 0, depth), depth, With(scopes, ds.first), inLoop);
      }
    }
  }

  lemma VarLegal(d: Decl, locals: seq<Local>, depth: nat, scopes: seq<Scope>, inLoop: bool)
    requires Models(locals, depth, scopes) && d.Var?
    ensures LegalDecl(d, scopes, inLoop) <==> !DeclBlocked(d, locals, depth, inLoop)
  {
    if depth > 0 {
      RedeclaredIs(locals, depth, scopes, d.name);
    }
    hide LegalExpr, Blocked, Redeclared;
    if d.init.Some? {
      var own := if depth == 0 then None else Some(d.name);
      ExprLegal(d.init.value, locals, if depth == 0 then locals else locals + [Local(d.name, -1, false)], depth, scopes, own);
    }
  }

  lemma RedeclaredIs(locals: seq<Local>, depth: nat, scopes: seq<Scope>, name: Text)
    requires Models(locals, depth, scopes)
    ensures Redeclared(locals, depth, name) <==> name in scopes[depth]
  {
    hide Count;
    if name in scopes[depth] { assert Listed(locals, depth, name); }
    if Redeclared(locals, depth, name) {
      var i :| 0 <= i < |locals| && locals[i].depth == depth && locals[i].name == name;
      assert Has(scopes, locals[i]);
    }
  }

  /** For a script. */
  lemma ScriptLegal(ds: Decls, this_: Text)
    ensures Legal(ds, this_) <==> !DeclsBlocked(ds, [Local(this_, 0, false)], 0, false)
  {
    var scopes, locals := [map[this_ := false]], [Local(this_, 0, false)];
    assert Count(scopes) == Count([]) + 1 by { assert scopes[..0] == []; }
    assert Has(scopes, locals[0]);
    forall k, n | 0 <= k <= 0 && n in scopes[k] ensures Listed(locals, k, n) { assert locals[0].name == n; }
    DeclsLegal(ds, locals, 0, scopes, false);
  }

  // ---- What the rules are for ----

  /** A script that keeps the rules never ends in a break or continue without a loop. */
  lemma {:induction false} LegalCloses(ds: Decls, scopes: seq<Scope>)
    requires LegalDecls(ds, scopes, false)
    ensures !LooseDecls(ds)
    decreases ds, 0
  {
    if ds.More? {
      if ds.first.Statement? { LegalClosed(ds.first.s, scopes); }
      LegalCloses(ds.rest, With(scopes, ds.first));
    }
  }

  lemma {:induction false} LegalClosed(s: Stmt, scopes: seq<Scope>)
    requires LegalStmt(s, scopes, false)
    ensures !Loose(s)
    decreases s, 0
  {
    match s
    case Block(ds) => LegalCloses(ds, scopes + [map[]]);
    case If(_, t, e) =>
      LegalClosed(t, scopes);
      LegalClosed(e, scopes);
    case For(init, _, _, _) => LegalCloses(init, scopes + [map[]]);
    case _ =>
  }

  /** The constants among the variables in scope have kept their values. */
  ghost predicate Constant(env: Env, env1: Env, consts: seq<bool>) {
    |consts| <= |env| && |consts| <= |env1| && forall i :: 0 <= i < |consts| && consts[i] ==> env1[i] == env[i]
  }

  /** Evaluating the expression, and every part of it, leaves the constants as they are. */
  ghost predicate SteadyExpr(A: Arith, e: Expr, env: Env, g: Globals, consts: seq<bool>)
    decreases e, 1
  {
    (var r := Eval(A, e, env, g); r.Val? ==> Constant(env, r.env, consts)) &&
    match e
    case Assign(_, x) => SteadyExpr(A, x, env, g, consts)
    case Unary(_, x) => SteadyExpr(A, x, env, g, consts)
    case Binary(_, _, _) => SteadyExpr(A, e.left, env, g, consts) && SteadyRight(A, e, env, g, consts)
    case And(_, _) => SteadyExpr(A, e.left, env, g, consts) && SteadyRight(A, e, env, g, consts)
    case Or(_, _) => SteadyExpr(A, e.left, env, g, consts) && SteadyRight(A, e, env, g, consts)
    case _ => true
  }

  ghost predicate SteadyRight(A: Arith, e: Expr, env: Env, g: Globals, consts: seq<bool>)
    requires e.Binary? || e.And? || e.Or?
    decreases e, 0
  {
    var r := Eval(A, e.left, env, g);
    r.Val? ==> SteadyExpr(A, e.right, r.env, r.g, consts)
  }

  ghost predicate SteadyOption(A: Arith, e: Option<Expr>, env: Env, g: Globals, consts: seq<bool>) {
    e.Some? ==> SteadyExpr(A, e.value, env, g, consts)
  }

  function EvalOption(A: Arith, e: Option<Expr>, v: Value, env: Env, g: Globals): EvalResult {
    if e.Some? then Eval(A, e.value, env, g) else Val(v, env, g)
  }

  /** Executing the statement, and every statement, declaration and expression executed in it, leaves the constants that
      are in scope there as they are, those that it declares itself included. */
  ghost predicate SteadyStmt(A: Arith, s: Stmt, env: Env, g: Globals, out: seq<Value>, fuel: nat, consts: seq<bool>)
    decreases fuel, s, 0
  {
    (var o := Exec(A, s, env, g, out, fuel); HasEnv(o) ==> Constant(env, o.env, consts)) &&
    match s
    case ExprStmt(e) => SteadyExpr(A, e, env, g, consts)
    case Print(e) => SteadyExpr(A, e, env, g, consts)
    case Block(ds) => SteadyDecls(A, ds, false, env, g, out, fuel, consts)
    case If(c, t, f) =>
      SteadyExpr(A, c, env, g, consts) &&
      (var r := Eval(A, c, env, g);
       r.Val? ==> SteadyStmt(A, if Falsey(r.v) then f else t, r.env, r.g, out, fuel, consts))
    case While(c, b) =>
      SteadyExpr(A, c, env, g, consts) &&
      (var r := Eval(A, c, env, g);
       fuel > 0 && r.Val? && !Falsey(r.v) ==>
         SteadyStmt(A, b, r.env, r.g, out, fuel, consts) &&
         (var o := Exec(A, b, r.env, r.g, out, fuel);
          o.Normal? || o.Continued? ==> SteadyStmt(A, s, o.env, o.g, o.out, fuel - 1, consts)))
    case DoWhile(b, c) =>
      fuel > 0 ==>
        SteadyStmt(A, b, env, g, out, fuel, consts) &&
        (var o := Exec(A, b, env, g, out, fuel);
         o.Normal? || o.Continued? ==>
           SteadyExpr(A, c, o.env, o.g, consts) &&
           (var r := Eval(A, c, o.env, o.g);
            r.Val? && !Falsey(r.v) ==> SteadyStmt(A, s, r.env, r.g, o.out, fuel - 1, consts)))
    case For(init, test, step, b) =>
      SteadyDecls(A, init, false, env, g, out, fuel, consts) &&
      (var o := ExecDecls(A, init, false, env, g, out, fuel);
       o.Normal? ==> SteadyFor(A, test, step, b, o.env, o.g, o.out, fuel, consts + ConstsOf(init, false)))
    case Break => true
    case Continue => true
  }

  ghost predicate SteadyFor(A: Arith, test: Option<Expr>, step: Option<Expr>, b: Stmt,
                            env: Env, g: Globals, out: seq<Value>, fuel: nat, consts: seq<bool>)
    decreases fuel, b, 1
  {
    (var o := ExecFor(A, test, step, b, env, g, out, fuel); HasEnv(o) ==> Constant(env, o.env, consts)) &&
    SteadyOption(A, test, env, g, consts) &&
    (var r := EvalOption(A, test, Bool(true), env, g);
     fuel > 0 && r.Val? && !Falsey(r.v) ==>
       SteadyStmt(A, b, r.env, r.g, out, fuel, consts) &&
       (var o := Exec(A, b, r.env, r.g, out, fuel);
        o.Normal? || o.Continued? ==> SteadyNext(A, test, step, b, o.env, o.g, o.out, fuel, consts)))
  }

  ghost predicate SteadyNext(A: Arith, test: Option<Expr>, step: Option<Expr>, b: Stmt,
                             env: Env, g: Globals, out: seq<Value>, fuel: nat, consts: seq<bool>)
    requires fuel > 0
    decreases fuel - 1, b, 2
  {
    SteadyOption(A, step, env, g, consts) &&
    (var r := EvalOption(A, step, Nil, env, g);
     r.Val? ==> SteadyFor(A, test, step, b, r.env, r.g, out, fuel - 1, consts))
  }

  /** Whether the variables that a declaration adds to the scope are constants. */
  function ConstOf(d: Decl, top: bool): seq<bool> {
    if d.Var? && !top then [d.isConst] else []
  }

  function ConstsOf(ds: Decls, top: bool): seq<bool> {
    if ds.Done? then [] else ConstOf(ds.first, top) + ConstsOf(ds.rest, top)
  }

  ghost predicate SteadyDecl(A: Arith, d: Decl, top: bool, env: Env, g: Globals, out: seq<Value>, fuel: nat,
                             consts: seq<bool>)
    decreases fuel, d, 0
  {
    match d
    case Var(_, _, init) => SteadyOption(A, init, env, g, consts)
    case Statement(s) => SteadyStmt(A, s, env, g, out, fuel, consts)
  }

  ghost predicate SteadyDecls(A: Arith, ds: Decls, top: bool, env: Env, g: Globals, out: seq<Value>, fuel: nat,
                              consts: seq<bool>)
    decreases fuel, ds, 0
  {
    (var o := ExecDecls(A, ds, top, env, g, out, fuel); HasEnv(o) ==> Constant(env, o.env, consts)) &&
    (ds.More? ==>
       SteadyDecl(A, ds.first, top, env, g, out, fuel, consts) &&
       (var o := ExecDecl(A, ds.first, top, env, g, out, fuel);
        o.Normal? ==>
          SteadyDecls(A, ds.rest, top, o.env, o.g, o.out, fuel, consts + ConstOf(ds.first, top))))
  }

  // ---- Constants stay ----

  /** The locals of the compiler are the variables in scope, with what is known of them. */
  ghost predicate Stands(locals: seq<Local>, env: Env, consts: seq<bool>) {
    && Ready(locals) && |locals| == |env| == |consts|
    && forall i :: 0 <= i < |locals| ==> locals[i].name == env[i].name && locals[i].isConst == consts[i]
  }

  /** What an expression is compiled with: the same, perhaps with the local being initialized. */
  ghost predicate StandsIn(all: seq<Local>, env: Env, consts: seq<bool>) {
    && InitializedNames(all) == NamesOf(env) && |consts| == |env| <= |all|
    && forall i :: 0 <= i < |env| ==> all[i].isConst == consts[i]
  }

  lemma StandsWithin(locals: seq<Local>, env: Env, consts: seq<bool>, name: Text)
    requires Stands(locals, env, consts)
    ensures StandsIn(locals, env, consts) && StandsIn(locals + [Local(name, -1, false)], env, consts)
  {
    ReadyNames(locals);
    assert InitializedNames(locals) == NamesOf(env);
    assert InitializedNames(locals + [Local(name, -1, false)]) == NamesOf(env);
  }

  lemma ConstantTwice(a: Env, b: Env, c: Env, consts: seq<bool>)
    requires Constant(a, b, consts) && Constant(b, c, consts)
    ensures Constant(a, c, consts)
  {
  }

  lemma ConstantSelf(env: Env, consts: seq<bool>)
    requires |consts| <= |env|
    ensures Constant(env, env, consts)
  {
  }

  lemma StandsOn(locals: seq<Local>, env: Env, env1: Env, consts: seq<bool>)
    requires Stands(locals, env, consts) && NamesOf(env1) == NamesOf(env)
    ensures Stands(locals, env1, consts)
  {
    assert forall i :: 0 <= i < |env| ==> env1[i].name == NamesOf(env1)[i] == NamesOf(env)[i] == env[i].name;
  }

  lemma StandsInOn(all: seq<Local>, env: Env, env1: Env, consts: seq<bool>)
    requires StandsIn(all, env, consts) && NamesOf(env1) == NamesOf(env)
    ensures StandsIn(all, env1, consts)
  {
  }

  lemma AssignedConstant(all: seq<Local>, env: Env, consts: seq<bool>, name: Text, v: Value)
    requires StandsIn(all, env, consts) && !Fixed(all, name)
    ensures var i := Innermost(NamesOf(env), name); i >= 0 ==> Constant(env, env[i := Binding(name, v)], consts)
  {
  }

  /** An expression that is not blocked assigns to no constant. */
  lemma {:induction false} ExprSteady(A: Arith, e: Expr, env: Env, g: Globals, all: seq<Local>, consts: seq<bool>)
    requires !Blocked(e, all) && StandsIn(all, env, consts)
    ensures SteadyExpr(A, e, env, g, consts)
    decreases e, 1
  {
    hide StandsIn, Fixed, Uninitialized, Constant;
    InScope(all, env, consts);
    ConstantSelf(env, consts);
    match e
    case NilLit | BoolLit(_) | NumberLit(_) | StringLit(_) | Variable(_) =>
    case Assign(name, x) =>
      ExprSteady(A, x, env, g, all, consts);
      SteadyTells(A, x, env, g, consts);
      EvalKeepsNames(A, x, env, g);
      var r := Eval(A, x, env, g);
      if r.Val? {
        StandsInOn(all, env, r.env, consts);
        AssignedConstant(all, r.env, consts, name, r.v);
        var i := Innermost(NamesOf(r.env), name);
        if i >= 0 { ConstantTwice(env, r.env, r.env[i := Binding(name, r.v)], consts); }
      }
    case Unary(_, x) =>
      ExprSteady(A, x, env, g, all, consts);
      SteadyTells(A, x, env, g, consts);
    case Binary(_, l, r) => BothSteady(A, e, env, g, all, consts);
    case And(l, r) => BothSteady(A, e, env, g, all, consts);
    case Or(l, r) => BothSteady(A, e, env, g, all, consts);
  }

  lemma InScope(all: seq<Local>, env: Env, consts: seq<bool>)
    requires StandsIn(all, env, consts)
    ensures |consts| == |env|
  {
  }

  lemma SteadyTells(A: Arith, e: Expr, env: Env, g: Globals, consts: seq<bool>)
    requires SteadyExpr(A, e, env, g, consts)
    ensures var r := Eval(A, e, env, g); r.Val? ==> Constant(env, r.env, consts)
  {
  }

  lemma {:induction false} BothSteady(A: Arith, e: Expr, env: Env, g: Globals, all: seq<Local>, consts: seq<bool>)
    requires (e.Binary? || e.And? || e.Or?) && !Blocked(e.left, all) && !Blocked(e.right, all) && StandsIn(all, env, consts)
    ensures SteadyExpr(A, e.left, env, g, consts) && SteadyRight(A, e, env, g, consts)
    ensures var r := Eval(A, e, env, g); r.Val? ==> Constant(env, r.env, consts)
    decreases e, 0
  {
    hide StandsIn, Fixed, Uninitialized, Constant, Blocked;
    ExprSteady(A, e.left, env, g, all, consts);
    SteadyTells(A, e.left, env, g, consts);
    var r := Eval(A, e.left, env, g);
    if r.Val? {
      EvalKeepsNames(A, e.left, env, g);
      StandsInOn(all, env, r.env, consts);
      ExprSteady(A, e.right, r.env, r.g, all, consts);
      SteadyTells(A, e.right, r.env, r.g, consts);
      var u := Eval(A, e.right, r.env, r.g);
      if u.Val? { ConstantTwice(env, r.env, u.env, consts); }
    }
  }

  lemma OptionSteady(A: Arith, e: Option<Expr>, v: Value, env: Env, g: Globals, all: seq<Local>, consts: seq<bool>)
    requires !SomeBlocked(e, all) && StandsIn(all, env, consts)
    ensures SteadyOption(A, e, env, g, consts)
    ensures var r := EvalOption(A, e, v, env, g); r.Val? ==> Constant(env, r.env, consts) && NamesOf(r.env) == NamesOf(env)
  {
    if e.Some? {
      ExprSteady(A, e.value, env, g, all, consts);
      SteadyTells(A, e.value, env, g, consts);
      EvalKeepsNames(A, e.value, env, g);
    } else {
      ConstantSelf(env, consts);
    }
  }

  lemma StmtTells(A: Arith, s: Stmt, env: Env, g: Globals, out: seq<Value>, fuel: nat, consts: seq<bool>)
    requires SteadyStmt(A, s, env, g, out, fuel, consts)
    ensures var o := Exec(A, s, env, g, out, fuel); HasEnv(o) ==> Constant(env, o.env, consts)
  {
  }

  lemma DeclsTell(A: Arith, ds: Decls, top: bool, env: Env, g: Globals, out: seq<Value>, fuel: nat, consts: seq<bool>)
    requires SteadyDecls(A, ds, top, env, g, out, fuel, consts)
    ensures var o := ExecDecls(A, ds, top, env, g, out, fuel); HasEnv(o) ==> Constant(env, o.env, consts)
  {
  }

  lemma ForTells(A: Arith, test: Option<Expr>, step: Option<Expr>, b: Stmt, env: Env, g: Globals, out: seq<Value>, fuel: nat,
                 consts: seq<bool>)
    requires SteadyFor(A, test, step, b, env, g, out, fuel, consts)
    ensures var o := ExecFor(A, test, step, b, env, g, out, fuel); HasEnv(o) ==> Constant(env, o.env, consts)
  {
  }

  lemma LeftConstant(r: Outcome, env: Env, consts: seq<bool>)
    requires HasEnv(r) ==> Constant(env, r.env, consts)
    requires |consts| == |env|
    ensures var o := LeaveScope(r, |env|); HasEnv(o) ==> Constant(env, o.env, consts)
  {
  }

  /** A statement that is not blocked leaves all constants as they are. */
  lemma {:induction false} StmtSteady(A: Arith, s: Stmt, env: Env, g: Globals, out: seq<Value>, fuel: nat,
                                      locals: seq<Local>, depth: nat, inLoop: bool, consts: seq<bool>)
    requires !StmtBlocked(s, locals, depth, inLoop) && Stands(locals, env, consts)
    ensures SteadyStmt(A, s, env, g, out, fuel, consts)
    decreases fuel, s, 1
  {
    hide Stands, StandsIn, Constant, Blocked, Eval, SomeBlocked;
    StandsWithin(locals, env, consts, []);
    InScope(locals, env, consts);
    ConstantSelf(env, consts);
    match s
    case ExprStmt(e) =>
      ExprSteady(A, e, env, g, locals, consts);
      SteadyTells(A, e, env, g, consts);
    case Print(e) =>
      ExprSteady(A, e, env, g, locals, consts);
      SteadyTells(A, e, env, g, consts);
    case Block(ds) =>
      DeclsSteady(A, ds, false, env, g, out, fuel, locals, depth + 1, inLoop, consts);
      DeclsTell(A, ds, false, env, g, out, fuel, consts);
      LeftConstant(ExecDecls(A, ds, false, env, g, out, fuel), env, consts);
    case If(c, t, f) => IfSteady(A, s, env, g, out, fuel, locals, depth, inLoop, consts);
    case While(c, b) => WhileSteady(A, s, env, g, out, fuel, locals, depth, consts);
    case DoWhile(b, c) => if fuel > 0 { DoWhileSteady(A, s, env, g, out, fuel, locals, depth, consts); }
    case For(init, test, step, b) => ForStmtSteady(A, s, env, g, out, fuel, locals, depth, inLoop, consts);
    case Break =>
    case Continue =>
  }

  lemma {:induction false} IfSteady(A: Arith, s: Stmt, env: Env, g: Globals, out: seq<Value>, fuel: nat,
                                    locals: seq<Local>, depth: nat, inLoop: bool, consts: seq<bool>)
    requires s.If? && !StmtBlocked(s, locals, depth, inLoop) && Stands(locals, env, consts)
    ensures SteadyStmt(A, s, env, g, out, fuel, consts)
    decreases fuel, s, 0
  {
    hide Stands, StandsIn, Constant, Blocked, Eval;
    StandsWithin(locals, env, consts, []);
    ExprSteady(A, s.cond, env, g, locals, consts);
    SteadyTells(A, s.cond, env, g, consts);
    EvalKeepsNames(A, s.cond, env, g);
    var r := Eval(A, s.cond, env, g);
    if r.Val? {
      var b := if Falsey(r.v) then s.els else s.thn;
      StandsOn(locals, env, r.env, consts);
      StmtSteady(A, b, r.env, r.g, out, fuel, locals, depth, inLoop, consts);
      StmtTells(A, b, r.env, r.g, out, fuel, consts);
      var o := Exec(A, b, r.env, r.g, out, fuel);
      if HasEnv(o) { ConstantTwice(env, r.env, o.env, consts); }
    }
  }

  lemma {:induction false} WhileSteady(A: Arith, s: Stmt, env: Env, g: Globals, out: seq<Value>, fuel: nat,
                                       locals: seq<Local>, depth: nat, consts: seq<bool>)
    requires s.While? && !Blocked(s.cond, locals) && !StmtBlocked(s.body, locals, depth, true) && Stands(locals, env, consts)
    ensures SteadyStmt(A, s, env, g, out, fuel, consts)
    decreases fuel, s, 0
  {
    hide Stands, StandsIn, Constant, Blocked, Eval, StmtBlocked;
    StandsWithin(locals, env, consts, []);
    ExprSteady(A, s.cond, env, g, locals, consts);
    SteadyTells(A, s.cond, env, g, consts);
    EvalKeepsNames(A, s.cond, env, g);
    var r := Eval(A, s.cond, env, g);
    if fuel > 0 && r.Val? && !Falsey(r.v) {
      StandsOn(locals, env, r.env, consts);
      StmtSteady(A, s.body, r.env, r.g, out, fuel, locals, depth, true, consts);
      StmtTells(A, s.body, r.env, r.g, out, fuel, consts);
      ExecKeepsNames(A, s.body, r.env, r.g, out, fuel);
      var o := Exec(A, s.body, r.env, r.g, out, fuel);
      if HasEnv(o) { ConstantTwice(env, r.env, o.env, consts); }
      if o.Normal? || o.Continued? {
        StandsOn(locals, r.env, o.env, consts);
        WhileSteady(A, s, o.env, o.g, o.out, fuel - 1, locals, depth, consts);
        StmtTells(A, s, o.env, o.g, o.out, fuel - 1, consts);
        var u := Exec(A, s, o.env, o.g, o.out, fuel - 1);
        if HasEnv(u) { ConstantTwice(env, o.env, u.env, consts); }
      }
    }
  }

  lemma {:induction false} DoWhileSteady(A: Arith, s: Stmt, env: Env, g: Globals, out: seq<Value>, fuel: nat,
                                         locals: seq<Local>, depth: nat, consts: seq<bool>)
    requires s.DoWhile? && !Blocked(s.cond, locals) && !StmtBlocked(s.body, locals, depth, true)
    requires Stands(locals, env, consts)
    ensures SteadyStmt(A, s, env, g, out, fuel, consts)
    decreases fuel, s, 0
  {
    hide Stands, StandsIn, Constant, Blocked, Eval, StmtBlocked;
    StandsWithin(locals, env, consts, []);
    if fuel > 0 {
      StmtSteady(A, s.body, env, g, out, fuel, locals, depth, true, consts);
      StmtTells(A, s.body, env, g, out, fuel, consts);
      ExecKeepsNames(A, s.body, env, g, out, fuel);
      var o := Exec(A, s.body, env, g, out, fuel);
      if o.Normal? || o.Continued? {
        assert Exec(A, s, env, g, out, fuel) == AfterBody(A, s, o.env, o.g, o.out, fuel);
        StandsOn(locals, env, o.env, consts);
        StandsWithin(locals, o.env, consts, []);
        ExprSteady(A, s.cond, o.env, o.g, locals, consts);
        SteadyTells(A, s.cond, o.env, o.g, consts);
        EvalKeepsNames(A, s.cond, o.env, o.g);
        var r := Eval(A, s.cond, o.env, o.g);
        if r.Val? {
          ConstantTwice(env, o.env, r.env, consts);
          if !Falsey(r.v) {
            StandsOn(locals, o.env, r.env, consts);
            DoWhileSteady(A, s, r.env, r.g, o.out, fuel - 1, locals, depth, consts);
            StmtTells(A, s, r.env, r.g, o.out, fuel - 1, consts);
            var u := Exec(A, s, r.env, r.g, o.out, fuel - 1);
            if HasEnv(u) { ConstantTwice(env, r.env, u.env, consts); }
          }
        }
      }
    }
  }

  lemma {:induction false} ForStmtSteady(A: Arith, s: Stmt, env: Env, g: Globals, out: seq<Value>, fuel: nat,
                                         locals: seq<Local>, depth: nat, inLoop: bool, consts: seq<bool>)
    requires s.For? && !StmtBlocked(s, locals, depth, inLoop) && Stands(locals, env, consts)
    ensures SteadyStmt(A, s, env, g, out, fuel, consts)
    decreases fuel, s, 0
  {
    hide Stands, StandsIn, Constant, Blocked, Eval, SomeBlocked, ExecFor;
    StandsWithin(locals, env, consts, []);
    InScope(locals, env, consts);
    DeclsSteady(A, s.init, false, env, g, out, fuel, locals, depth + 1, inLoop, consts);
    DeclsTell(A, s.init, false, env, g, out, fuel, consts);
    var o := ExecDecls(A, s.init, false, env, g, out, fuel);
    if o.Normal? {
      var inside, inner := locals + LocalsOf(s.init, false, depth + 1), consts + ConstsOf(s.init, false);
      DeclsStand(A, s.init, env, g, out, fuel, locals, depth + 1, consts);
      ForSteady(A, s.test, s.step, s.body, o.env, o.g, o.out, fuel, inside, depth + 1, inner);
      ForTells(A, s.test, s.step, s.body, o.env, o.g, o.out, fuel, inner);
      var u := ExecFor(A, s.test, s.step, s.body, o.env, o.g, o.out, fuel);
      if HasEnv(u) {
        FewerConstant(o.env, u.env, consts, inner);
        ConstantTwice(env, o.env, u.env, consts);
      }
      LeftConstant(u, env, consts);
    } else {
      LeftConstant(o, env, consts);
    }
  }

  lemma FewerConstant(env: Env, env1: Env, consts: seq<bool>, more: seq<bool>)
    requires Constant(env, env1, more) && consts <= more
    ensures Constant(env, env1, consts)
  {
  }

  /** One turn of a for loop. */
  lemma ForUnfolds(A: Arith, test: Option<Expr>, step: Option<Expr>, b: Stmt, env: Env, g: Globals, out: seq<Value>,
                   fuel: nat)
    ensures var o, r := ExecFor(A, test, step, b, env, g, out, fuel), EvalOption(A, test, Bool(true), env, g);
      if fuel == 0 || r.Err? then !HasEnv(o)
      else if Falsey(r.v) then o == Normal(r.env, r.g, out)
      else
        var u := Exec(A, b, r.env, r.g, out, fuel);
        if u.Normal? || u.Continued? then o == NextTurn(A, test, step, b, u.env, u.g, u.out, fuel)
        else if u.Broke? then o == Normal(u.env, u.g, u.out)
        else !HasEnv(o)
  {
    hide Eval, Exec, NextTurn;
  }

  lemma {:induction false} ForSteady(A: Arith, test: Option<Expr>, step: Option<Expr>, b: Stmt, env: Env, g: Globals,
                                     out: seq<Value>, fuel: nat, locals: seq<Local>, depth: nat, consts: seq<bool>)
    requires !SomeBlocked(test, locals) && !SomeBlocked(step, locals) && !StmtBlocked(b, locals, depth, true)
    requires Stands(locals, env, consts)
    ensures SteadyFor(A, test, step, b, env, g, out, fuel, consts)
    decreases fuel, b, 3
  {
    hide Stands, StandsIn, Constant, SomeBlocked, Eval, StmtBlocked, SteadyNext, NextTurn, SteadyStmt, Exec, ExecFor,
         EvalOption, SteadyOption;
    ForUnfolds(A, test, step, b, env, g, out, fuel);
    StandsWithin(locals, env, consts, []);
    OptionSteady(A, test, Bool(true), env, g, locals, consts);
    var r := EvalOption(A, test, Bool(true), env, g);
    if fuel > 0 && r.Val? && !Falsey(r.v) {
      BodySteady(A, b, env, r.env, r.g, out, fuel, locals, depth, consts);
      var o := Exec(A, b, r.env, r.g, out, fuel);
      if o.Normal? || o.Continued? {
        NextSteady(A, test, step, b, o.env, o.g, o.out, fuel, locals, depth, consts);
        var w := NextTurn(A, test, step, b, o.env, o.g, o.out, fuel);
        if HasEnv(w) { ConstantTwice(env, o.env, w.env, consts); }
      }
    }
  }

  /** The body of a loop, in a turn that has kept the constants so far. */
  lemma {:induction false} BodySteady(A: Arith, b: Stmt, env0: Env, env: Env, g: Globals, out: seq<Value>, fuel: nat,
                                      locals: seq<Local>, depth: nat, consts: seq<bool>)
    requires !StmtBlocked(b, locals, depth, true) && Stands(locals, env0, consts)
    requires Constant(env0, env, consts) && NamesOf(env) == NamesOf(env0)
    ensures SteadyStmt(A, b, env, g, out, fuel, consts)
    ensures var o := Exec(A, b, env, g, out, fuel);
            HasEnv(o) ==> Constant(env0, o.env, consts) && NamesOf(o.env) == NamesOf(env0) && Stands(locals, o.env, consts)
    decreases fuel, b, 2
  {
    hide Stands, Constant, StmtBlocked, SteadyStmt, Exec;
    StandsOn(locals, env0, env, consts);
    StmtSteady(A, b, env, g, out, fuel, locals, depth, true, consts);
    StmtTells(A, b, env, g, out, fuel, consts);
    ExecKeepsNames(A, b, env, g, out, fuel);
    var o := Exec(A, b, env, g, out, fuel);
    if HasEnv(o) {
      ConstantTwice(env0, env, o.env, consts);
      StandsOn(locals, env, o.env, consts);
    }
  }

  lemma {:induction false} NextSteady(A: Arith, test: Option<Expr>, step: Option<Expr>, b: Stmt, env: Env, g: Globals,
                                      out: seq<Value>, fuel: nat, locals: seq<Local>, depth: nat, consts: seq<bool>)
    requires !SomeBlocked(test, locals) && !SomeBlocked(step, locals) && !StmtBlocked(b, locals, depth, true)
    requires Stands(locals, env, consts) && fuel > 0
    ensures SteadyNext(A, test, step, b, env, g, out, fuel, consts)
    ensures var o := NextTurn(A, test, step, b, env, g, out, fuel); HasEnv(o) ==> Constant(env, o.env, consts)
    decreases fuel - 1, b, 4
  {
    hide Stands, StandsIn, Constant, SomeBlocked, Eval, StmtBlocked, Exec;
    StandsWithin(locals, env, consts, []);
    OptionSteady(A, step, Nil, env, g, locals, consts);
    var u := EvalOption(A, step, Nil, env, g);
    if u.Val? {
      StandsOn(locals, env, u.env, consts);
      ForSteady(A, test, step, b, u.env, u.g, out, fuel - 1, locals, depth, consts);
      ForTells(A, test, step, b, u.env, u.g, out, fuel - 1, consts);
      var w := ExecFor(A, test, step, b, u.env, u.g, out, fuel - 1);
      if HasEnv(w) { ConstantTwice(env, u.env, w.env, consts); }
    }
  }

  /** Behind declarations the locals stand for the variables in scope again. */
  lemma {:induction false} DeclsStand(A: Arith, ds: Decls, env: Env, g: Globals, out: seq<Value>, fuel: nat,
                                      locals: seq<Local>, depth: nat, consts: seq<bool>)
    requires Stands(locals, env, consts)
    ensures var o := ExecDecls(A, ds, false, env, g, out, fuel);
            o.Normal? ==> Stands(locals + LocalsOf(ds, false, depth), o.env, consts + ConstsOf(ds, false))
    decreases ds
  {
    hide Stands, LocalOf, ConstOf, ExecDecl;
    assert locals + [] == locals && consts + [] == consts;
    if ds.More? {
      var o := ExecDecl(A, ds.first, false, env, g, out, fuel);
      if o.Normal? {
        DeclStands(A, ds.first, false, env, g, out, fuel, locals, depth, consts);
        var l, c := LocalOf(ds.first, false, depth), ConstOf(ds.first, false);
        DeclsStand(A, ds.rest, o.env, o.g, o.out, fuel, locals + l, depth, consts + c);
        assert locals + l + LocalsOf(ds.rest, false, depth) == locals + LocalsOf(ds, false, depth);
        assert consts + c + ConstsOf(ds.rest, false) == consts + ConstsOf(ds, false);
      }
    }
  }

  lemma DeclStands(A: Arith, d: Decl, top: bool, env: Env, g: Globals, out: seq<Value>, fuel: nat, locals: seq<Local>,
                   depth: nat, consts: seq<bool>)
    requires Stands(locals, env, consts)
    ensures var o := ExecDecl(A, d, top, env, g, out, fuel);
            o.Normal? ==> Stands(locals + LocalOf(d, top, depth), o.env, consts + ConstOf(d, top))
  {
    hide ExecDecl;
    DeclDeepens(A, d, top, env, g, out, fuel);
    var o := ExecDecl(A, d, top, env, g, out, fuel);
    if o.Normal? {
      var names := NamesOf(env) + (if d.Var? && !top then [d.name] else []);
      assert forall i :: 0 <= i < |o.env| ==> o.env[i].name == NamesOf(o.env)[i] == names[i];
      assert forall i :: 0 <= i < |env| ==> NamesOf(env)[i] == env[i].name;
    }
  }

  lemma {:induction false} DeclsSteady(A: Arith, ds: Decls, top: bool, env: Env, g: Globals, out: seq<Value>, fuel: nat,
                                       locals: seq<Local>, depth: nat, inLoop: bool, consts: seq<bool>)
    requires !DeclsBlocked(ds, locals, depth, inLoop) && Stands(locals, env, consts) && top == (depth == 0)
    ensures SteadyDecls(A, ds, top, env, g, out, fuel, consts)
    decreases fuel, ds, 0
  {
    hide Stands, Constant, DeclBlocked, SteadyDecl, ConstOf, LocalOf, ExecDecl;
    StandsWithin(locals, env, consts, []);
    InScope(locals, env, consts);
    ConstantSelf(env, consts);
    if ds.More? {
      DeclSteady(A, ds.first, top, env, g, out, fuel, locals, depth, inLoop, consts);
      var o := ExecDecl(A, ds.first, top, env, g, out, fuel);
      if o.Normal? {
        var inner := consts + ConstOf(ds.first, top);
        DeclStands(A, ds.first, top, env, g, out, fuel, locals, depth, consts);
        DeclsSteady(A, ds.rest, top, o.env, o.g, o.out, fuel, locals + LocalOf(ds.first, top, depth), depth, inLoop, inner);
        DeclsTell(A, ds.rest, top, o.env, o.g, o.out, fuel, inner);
        var u := ExecDecls(A, ds.rest, top, o.env, o.g, o.out, fuel);
        if HasEnv(u) {
          FewerConstant(o.env, u.env, consts, inner);
          ConstantTwice(env, o.env, u.env, consts);
        }
      }
    }
  }

  lemma {:induction false} DeclSteady(A: Arith, d: Decl, top: bool, env: Env, g: Globals, out: seq<Value>, fuel: nat,
                                      locals: seq<Local>, depth: nat, inLoop: bool, consts: seq<bool>)
    requires !DeclBlocked(d, locals, depth, inLoop) && Stands(locals, env, consts) && top == (depth == 0)
    ensures SteadyDecl(A, d, top, env, g, out, fuel, consts)
    ensures var o := ExecDecl(A, d, top, env, g, out, fuel); HasEnv(o) ==> Constant(env, o.env, consts)
    decreases fuel, d, 0
  {
    hide Stands, StandsIn, Blocked, Eval, StmtBlocked, SteadyStmt, SteadyExpr;
    match d
    case Var(name, _, init) =>
      StandsWithin(locals, env, consts, name);
      OptionSteady(A, init, Nil, env, g, if top then locals else locals + [Local(name, -1, false)], consts);
    case Statement(s) =>
      StmtSteady(A, s, env, g, out, fuel, locals, depth, inLoop, consts);
      StmtTells(A, s, env, g, out, fuel, consts);
  }

  /** In a script that keeps the rules no evaluation changes a constant: throughout its execution, each binding declared
      const keeps its value from its declaration on. */
  lemma LegalSteady(A: Arith, ds: Decls, this_: Text, script: Value, g: Globals, fuel: nat)
    requires Legal(ds, this_)
    ensures SteadyDecls(A, ds, true, [Binding(this_, script)], g, [], fuel, [false])
  {
    hide LegalDecls, DeclsBlocked, SteadyDecls;
    ScriptLegal(ds, this_);
    DeclsSteady(A, ds, true, [Binding(this_, script)], g, [], fuel, [Local(this_, 0, false)], 0, false, [false]);
  }
}
