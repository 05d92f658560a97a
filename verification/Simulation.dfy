/** Finished bytecode that runs as its source does: what it means, and how it composes. */
module Simulation {
  import opened Types
  import opened Values
  import opened Syntax
  import opened Semantics
  import opened Bytecode
  import opened Machine
  import opened Expressions

  // ---- What it means ----

  datatype Item = OfStmt(s: Stmt) | OfDecl(d: Decl, top: bool) | OfDecls(ds: Decls, top: bool)

  function ExecItem(A: Arith, item: Item, env: Env, g: Globals, out: seq<Value>, fuel: nat): Outcome {
    match item
    case OfStmt(s) => Exec(A, s, env, g, out, fuel)
    case OfDecl(d, top) => ExecDecl(A, d, top, env, g, out, fuel)
    case OfDecls(ds, top) => ExecDecls(A, ds, top, env, g, out, fuel)
  }

  /** The enclosing loop: how many locals it was entered with, and where break and continue lead. */
  datatype Targets = Targets(height: nat, brk: nat, cnt: nat)

  /** The machine state m is about to become (env, g, out) by running the pending instructions T: an
      assignment to a local, perhaps behind the load of another, which a later pop may still merge with. */
  ghost predicate Carries(A: Arith, consts: seq<Value>, T: seq<Instr>, m: Machine,
                          env: Env, g: Globals, out: seq<Value>) {
    ExecList(A, consts, T, m) == Ok(StateOf(env, [], g, out)) &&
    (T != [] ==> T[|T| - 1].SetLocal? && T[|T| - 1].i < |m.stack|)
  }

  /** From configuration c the machine does what the outcome says: it gets to q with exactly the locals on the
      stack (T pending), or to the target of break or continue with the loop's locals, or to the runtime error.
      If the source ran out of fuel, the machine is still running after that many steps. */
  ghost predicate Follows(A: Arith, P: Program, c: Config, q: nat, T: seq<Instr>, W: Targets, o: Outcome, fuel: nat) {
    match o
    case Normal(env, g, out) => exists m :: Carries(A, P.consts, T, m, env, g, out) && Reaches(A, P, c, Running(q, m))
    case Broke(env, g, out) =>
      W.height <= |env| && Reaches(A, P, c, Running(W.brk, StateOf(env[..W.height], [], g, out)))
    case Continued(env, g, out) =>
      W.height <= |env| && ReachesPlus(A, P, c, Running(W.cnt, StateOf(env[..W.height], [], g, out)))
    case Failed(g, out) => Reaches(A, P, c, Faulted(g, out))
    case OutOfFuel => RunsFor(A, P, c, fuel)
  }

  /** A stretch of code from start to stop, entered with tin pending and left with tout pending. */
  datatype Seg = Seg(start: nat, tin: seq<Instr>, stop: nat, tout: seq<Instr>)

  ghost predicate Sim(A: Arith, P: Program, seg: Seg, item: Item, names: seq<Text>, W: Targets) {
    forall env, g, out, fuel: nat, m :: NamesOf(env) == names && Carries(A, P.consts, seg.tin, m, env, g, out) ==>
      Follows(A, P, Running(seg.start, m), seg.stop, seg.tout, W, ExecItem(A, item, env, g, out, fuel), fuel)
  }

  /** Evaluating a condition and going on at b or, if it is falsy, at f. */
  ghost predicate BranchFollows(A: Arith, P: Program, a: nat, b: nat, f: nat, cond: Expr,
                                env: Env, g: Globals, out: seq<Value>) {
    match Eval(A, cond, env, g)
    case Err(g1) => Reaches(A, P, Running(a, StateOf(env, [], g, out)), Faulted(g1, out))
    case Val(v, env1, g1) =>
      Reaches(A, P, Running(a, StateOf(env, [], g, out)),
              Running(if Falsey(v) then f else b, StateOf(env1, [], g1, out)))
  }

  ghost predicate BranchSim(A: Arith, P: Program, a: nat, b: nat, f: nat, cond: Expr, names: seq<Text>) {
    forall env, g, out :: NamesOf(env) == names ==> BranchFollows(A, P, a, b, f, cond, env, g, out)
  }

  // ---- Basic facts ----

  lemma CarriesState(A: Arith, consts: seq<Value>, env: Env, g: Globals, out: seq<Value>, m: Machine)
    ensures Carries(A, consts, [], m, env, g, out) <==> m == StateOf(env, [], g, out)
  {
  }

  lemma FollowsAfter(A: Arith, P: Program, c: Config, d: Config, q: nat, T: seq<Instr>, W: Targets, o: Outcome, fuel: nat)
    requires Reaches(A, P, c, d) && Follows(A, P, d, q, T, W, o, fuel)
    ensures Follows(A, P, c, q, T, W, o, fuel)
  {
    hide Run, Carries, Reaches, ReachesPlus, RunsFor;
    match o
    case Normal(env, g, out) =>
      var m :| Carries(A, P.consts, T, m, env, g, out) && Reaches(A, P, d, Running(q, m));
      ReachesTrans(A, P, c, d, Running(q, m));
    case Broke(env, g, out) => ReachesTrans(A, P, c, d, Running(W.brk, StateOf(env[..W.height], [], g, out)));
    case Continued(env, g, out) => TransPlus(A, P, c, d, Running(W.cnt, StateOf(env[..W.height], [], g, out)));
    case Failed(g, out) => ReachesTrans(A, P, c, d, Faulted(g, out));
    case OutOfFuel => ReachesRunsFor(A, P, c, d, fuel);
  }

  /** Pending instructions may as well be run. */
  lemma Flush(A: Arith, P: Program, p: nat, T: seq<Instr>, m: Machine, env: Env, g: Globals, out: seq<Value>)
    requires ListAt(P.code, p, T) && Carries(A, P.consts, T, m, env, g, out)
    ensures Reaches(A, P, Running(p, m), Running(p + SizeAll(T), StateOf(env, [], g, out)))
  {
    hide ListAt, ExecList, Reaches, SizeAll;
    ListRuns(A, P, p, T, m);
  }

  lemma FollowsFlush(A: Arith, P: Program, c: Config, q: nat, T: seq<Instr>, W: Targets, o: Outcome, fuel: nat)
    requires Follows(A, P, c, q, T, W, o, fuel) && ListAt(P.code, q, T)
    ensures Follows(A, P, c, q + SizeAll(T), [], W, o, fuel)
  {
    hide Carries, ListAt, Reaches;
    if o.Normal? {
      var m :| Carries(A, P.consts, T, m, o.env, o.g, o.out) && Reaches(A, P, c, Running(q, m));
      Flush(A, P, q, T, m, o.env, o.g, o.out);
      var m1 := StateOf(o.env, [], o.g, o.out);
      CarriesState(A, P.consts, o.env, o.g, o.out, m1);
      ReachesTrans(A, P, c, Running(q, m), Running(q + SizeAll(T), m1));
    }
  }

  lemma SimFlushOut(A: Arith, P: Program, seg: Seg, item: Item, names: seq<Text>, W: Targets)
    requires Sim(A, P, seg, item, names, W) && ListAt(P.code, seg.stop, seg.tout)
    ensures Sim(A, P, Seg(seg.start, seg.tin, seg.stop + SizeAll(seg.tout), []), item, names, W)
  {
    hide Carries, Follows, ExecItem, ListAt;
    forall env, g, out, fuel: nat, m | NamesOf(env) == names && Carries(A, P.consts, seg.tin, m, env, g, out)
      ensures Follows(A, P, Running(seg.start, m), seg.stop + SizeAll(seg.tout), [], W,
                      ExecItem(A, item, env, g, out, fuel), fuel)
    {
      FollowsFlush(A, P, Running(seg.start, m), seg.stop, seg.tout, W, ExecItem(A, item, env, g, out, fuel), fuel);
    }
  }

  // ---- Straight-line items ----

  /** The list L does the item, except for what is pending behind it. */
  ghost predicate ListFollows(A: Arith, consts: seq<Value>, L: seq<Instr>, T: seq<Instr>, o: Outcome, m: Machine) {
    match o
    case Normal(env, g, out) =>
      ExecList(A, consts, L, m).Ok? && Carries(A, consts, T, ExecList(A, consts, L, m).m, env, g, out)
    case Failed(g, out) => ExecList(A, consts, L, m) == Fault(g, out)
    case _ => false
  }

  ghost predicate ListDoes(A: Arith, consts: seq<Value>, L: seq<Instr>, T: seq<Instr>, item: Item, names: seq<Text>) {
    forall consts1: seq<Value>, env, g, out, fuel: nat :: consts <= consts1 && NamesOf(env) == names ==>
      ListFollows(A, consts1, L, T, ExecItem(A, item, env, g, out, fuel), StateOf(env, [], g, out))
  }

  lemma SimList(A: Arith, P: Program, consts: seq<Value>, p: nat, L: seq<Instr>, T: seq<Instr>, item: Item,
                names: seq<Text>, W: Targets)
    requires ListDoes(A, consts, L, T, item, names) && consts <= P.consts && ListAt(P.code, p, L)
    ensures Sim(A, P, Seg(p, [], p + SizeAll(L), T), item, names, W)
  {
    hide Carries, ExecItem, ListAt, Reaches, ExecList;
    forall env, g, out, fuel: nat, m | NamesOf(env) == names && Carries(A, P.consts, [], m, env, g, out)
      ensures Follows(A, P, Running(p, m), p + SizeAll(L), T, W, ExecItem(A, item, env, g, out, fuel), fuel)
    {
      CarriesState(A, P.consts, env, g, out, m);
      ListRuns(A, P, p, L, m);
      assert ListFollows(A, P.consts, L, T, ExecItem(A, item, env, g, out, fuel), m);
    }
  }

  // ---- Sequences ----

  lemma SimMore(A: Arith, P: Program, first: Seg, rest: Seg, d: Decl, ds: Decls, top: bool, names: seq<Text>, W: Targets)
    requires Sim(A, P, first, OfDecl(d, top), names, W)
    requires Sim(A, P, rest, OfDecls(ds, top), names + (if d.Var? && !top then [d.name] else []), W)
    requires first.stop == rest.start && first.tout == rest.tin
    ensures Sim(A, P, Seg(first.start, first.tin, rest.stop, rest.tout), OfDecls(More(d, ds), top), names, W)
  {
    hide Carries, Reaches, RunsFor, ExecDecl;
    forall env, g, out, fuel: nat, m | NamesOf(env) == names && Carries(A, P.consts, first.tin, m, env, g, out)
      ensures Follows(A, P, Running(first.start, m), rest.stop, rest.tout, W,
                      ExecItem(A, OfDecls(More(d, ds), top), env, g, out, fuel), fuel)
    {
      var c := Running(first.start, m);
      var o := ExecDecl(A, d, top, env, g, out, fuel);
      assert Follows(A, P, c, first.stop, first.tout, W, ExecItem(A, OfDecl(d, top), env, g, out, fuel), fuel);
      if o.Normal? {
        DeclDeepens(A, d, top, env, g, out, fuel);
        var m1 :| Carries(A, P.consts, first.tout, m1, o.env, o.g, o.out) && Reaches(A, P, c, Running(first.stop, m1));
        var o1 := ExecItem(A, OfDecls(ds, top), o.env, o.g, o.out, fuel);
        FollowsAfter(A, P, c, Running(rest.start, m1), rest.stop, rest.tout, W, o1, fuel);
      }
    }
  }

  lemma SimStatement(A: Arith, P: Program, seg: Seg, s: Stmt, top: bool, names: seq<Text>, W: Targets)
    requires Sim(A, P, seg, OfStmt(s), names, W)
    ensures Sim(A, P, seg, OfDecl(Statement(s), top), names, W)
  {
    hide Carries, Follows, Exec;
    forall env, g, out, fuel: nat, m | NamesOf(env) == names && Carries(A, P.consts, seg.tin, m, env, g, out)
      ensures Follows(A, P, Running(seg.start, m), seg.stop, seg.tout, W,
                      ExecItem(A, OfDecl(Statement(s), top), env, g, out, fuel), fuel)
    {
      assert ExecItem(A, OfDecl(Statement(s), top), env, g, out, fuel) == ExecItem(A, OfStmt(s), env, g, out, fuel);
    }
  }

  // ---- Scopes ----

  /** K, in the place of the pending T, drops the n innermost locals. */
  ghost predicate Pops(A: Arith, consts: seq<Value>, T: seq<Instr>, K: seq<Instr>, n: nat) {
    forall consts1: seq<Value>, env: Env, g, out, m ::
      consts <= consts1 && n <= |env| && Carries(A, consts1, T, m, env, g, out) ==>
      ExecList(A, consts1, K, m) == Ok(StateOf(env[..|env| - n], [], g, out))
  }

  lemma SimBlock(A: Arith, P: Program, consts: seq<Value>, seg: Seg, ds: Decls, K: seq<Instr>, n: nat,
                 names: seq<Text>, W: Targets)
    requires Sim(A, P, seg, OfDecls(ds, false), names, W) && W.height <= |names|
    requires n == |Declared(ds, false)|
    requires consts <= P.consts && Pops(A, consts, seg.tout, K, n) && ListAt(P.code, seg.stop, K)
    ensures Sim(A, P, Seg(seg.start, seg.tin, seg.stop + SizeAll(K), []), OfStmt(Block(ds)), names, W)
  {
    hide Carries, Reaches, RunsFor, ExecDecls, ListAt, ExecList;
    forall env, g, out, fuel: nat, m | NamesOf(env) == names && Carries(A, P.consts, seg.tin, m, env, g, out)
      ensures Follows(A, P, Running(seg.start, m), seg.stop + SizeAll(K), [], W,
                      ExecItem(A, OfStmt(Block(ds)), env, g, out, fuel), fuel)
    {
      assert Follows(A, P, Running(seg.start, m), seg.stop, seg.tout, W,
                     ExecItem(A, OfDecls(ds, false), env, g, out, fuel), fuel);
      LeaveFollows(A, P, consts, Running(seg.start, m), seg.stop, seg.tout, K, n, W,
                   ds, env, g, out, fuel);
    }
  }

  lemma LeaveFollows(A: Arith, P: Program, consts: seq<Value>, c: Config, q: nat, T: seq<Instr>, K: seq<Instr>, n: nat,
                     W: Targets, ds: Decls, env: Env, g: Globals, out: seq<Value>, fuel: nat)
    requires Follows(A, P, c, q, T, W, ExecDecls(A, ds, false, env, g, out, fuel), fuel)
    requires W.height <= |env| && n == |Declared(ds, false)|
    requires consts <= P.consts && Pops(A, consts, T, K, n) && ListAt(P.code, q, K)
    ensures Follows(A, P, c, q + SizeAll(K), [], W,
                    LeaveScope(ExecDecls(A, ds, false, env, g, out, fuel), |env|), fuel)
  {
    hide Carries, Reaches, RunsFor, ExecDecls, ListAt, ExecList;
    var o := ExecDecls(A, ds, false, env, g, out, fuel);
    DeclsDeepen(A, ds, false, env, g, out, fuel);
    ScopeFollows(A, P, consts, c, q, T, K, n, W, o, |env|, fuel);
  }

  /** Dropping the locals of a scope, on whichever way it is left. */
  lemma ScopeFollows(A: Arith, P: Program, consts: seq<Value>, c: Config, q: nat, T: seq<Instr>, K: seq<Instr>, n: nat,
                     W: Targets, o: Outcome, depth: nat, fuel: nat)
    requires Follows(A, P, c, q, T, W, o, fuel)
    requires W.height <= depth && (HasEnv(o) ==> depth <= |o.env|) && (o.Normal? ==> |o.env| == depth + n)
    requires consts <= P.consts && Pops(A, consts, T, K, n) && ListAt(P.code, q, K)
    ensures Follows(A, P, c, q + SizeAll(K), [], W, LeaveScope(o, depth), fuel)
  {
    hide Carries, Reaches, ReachesPlus, RunsFor, ListAt, ExecList;
    match o
    case Normal(env1, g1, out1) =>
      var m :| Carries(A, P.consts, T, m, env1, g1, out1) && Reaches(A, P, c, Running(q, m));
      ListRuns(A, P, q, K, m);
      var m1 := StateOf(env1[..depth], [], g1, out1);
      CarriesState(A, P.consts, env1[..depth], g1, out1, m1);
      ReachesTrans(A, P, c, Running(q, m), Running(q + SizeAll(K), m1));
    case Broke(env1, g1, out1) => assert env1[..depth][..W.height] == env1[..W.height];
    case Continued(env1, g1, out1) => assert env1[..depth][..W.height] == env1[..W.height];
    case _ =>
  }

  // ---- Jumps ----

  lemma JumpRuns(A: Arith, P: Program, p: nat, off: u16, m: Machine)
    requires At(P.code, p, Jump(off))
    ensures ReachesPlus(A, P, Running(p, m), Running(p + 3 + off, m))
    ensures Reaches(A, P, Running(p, m), Running(p + 3 + off, m))
  {
    StepAt(A, P, p, Jump(off), m);
    ReachesSelf(A, P, Running(p + 3 + off, m));
  }

  lemma LoopRuns(A: Arith, P: Program, p: nat, target: nat, m: Machine)
    requires target <= p && p + 3 - target < 0x1_0000 && At(P.code, p, Loop(p + 3 - target))
    ensures ReachesPlus(A, P, Running(p, m), Running(target, m))
    ensures Reaches(A, P, Running(p, m), Running(target, m))
  {
    StepAt(A, P, p, Loop(p + 3 - target), m);
    ReachesSelf(A, P, Running(target, m));
  }

  /** An instruction that jumps from p to target, forward or back. */
  ghost predicate JumpAt(code: seq<byte>, p: nat, target: nat) {
    (p + 3 <= target < p + 3 + 0x1_0000 && At(code, p, Jump(target - p - 3))) ||
    (target <= p && p + 3 - target < 0x1_0000 && At(code, p, Loop(p + 3 - target)))
  }

  lemma JumpAtRuns(A: Arith, P: Program, p: nat, target: nat, m: Machine)
    requires JumpAt(P.code, p, target)
    ensures ReachesPlus(A, P, Running(p, m), Running(target, m))
    ensures Reaches(A, P, Running(p, m), Running(target, m))
  {
    hide At, ReachesPlus, Reaches;
    if p + 3 <= target { JumpRuns(A, P, p, target - p - 3, m); } else { LoopRuns(A, P, p, target, m); }
  }

  /** break and continue: drop the locals declared in the loop, then jump. */
  lemma SimLeave(A: Arith, P: Program, consts: seq<Value>, p: nat, T: seq<Instr>, K: seq<Instr>, n: nat,
                 isBreak: bool, names: seq<Text>, W: Targets)
    requires consts <= P.consts && Pops(A, consts, T, K, n) && ListAt(P.code, p, K)
    requires W.height + n == |names|
    requires JumpAt(P.code, p + SizeAll(K), if isBreak then W.brk else W.cnt)
    ensures Sim(A, P, Seg(p, T, p + SizeAll(K) + 3, []), OfStmt(if isBreak then Break else Continue), names, W)
  {
    hide Carries, Reaches, ReachesPlus, ListAt, ExecList, JumpAt;
    var s := if isBreak then Break else Continue;
    var target := if isBreak then W.brk else W.cnt;
    var q := p + SizeAll(K);
    forall env, g, out, fuel: nat, m | NamesOf(env) == names && Carries(A, P.consts, T, m, env, g, out)
      ensures Follows(A, P, Running(p, m), q + 3, [], W, ExecItem(A, OfStmt(s), env, g, out, fuel), fuel)
    {
      var m1 := StateOf(env[..W.height], [], g, out);
      ListRuns(A, P, p, K, m);
      JumpAtRuns(A, P, q, target, m1);
      TransPlus(A, P, Running(p, m), Running(q, m1), Running(target, m1));
      ReachesTrans(A, P, Running(p, m), Running(q, m1), Running(target, m1));
    }
  }

  // ---- Conditionals ----

  lemma SimIf(A: Arith, P: Program, a: nat, b: nat, j: nat, e: nat, end: nat, c: Expr, t: Stmt, f: Stmt,
              names: seq<Text>, W: Targets, off: u16)
    requires BranchSim(A, P, a, b, e, c, names)
    requires Sim(A, P, Seg(b, [], j, []), OfStmt(t), names, W)
    requires e == j + 3 && At(P.code, j, Jump(off)) && e + off == end
    requires Sim(A, P, Seg(e, [], end, []), OfStmt(f), names, W)
    ensures Sim(A, P, Seg(a, [], end, []), OfStmt(If(c, t, f)), names, W)
  {
    hide Carries, Reaches, RunsFor, At, Eval;
    forall env, g, out, fuel: nat, m | NamesOf(env) == names && Carries(A, P.consts, [], m, env, g, out)
      ensures Follows(A, P, Running(a, m), end, [], W, ExecItem(A, OfStmt(If(c, t, f)), env, g, out, fuel), fuel)
    {
      CarriesState(A, P.consts, env, g, out, m);
      assert BranchFollows(A, P, a, b, e, c, env, g, out);
      EvalKeepsNames(A, c, env, g);
      var r := Eval(A, c, env, g);
      if r.Val? {
        var m1 := StateOf(r.env, [], r.g, out);
        CarriesState(A, P.consts, r.env, r.g, out, m1);
        var o := ExecItem(A, OfStmt(if Falsey(r.v) then f else t), r.env, r.g, out, fuel);
        if Falsey(r.v) {
          FollowsAfter(A, P, Running(a, m), Running(e, m1), end, [], W, o, fuel);
        } else {
          ThenFollows(A, P, Running(b, m1), j, end, off, W, o, fuel);
          FollowsAfter(A, P, Running(a, m), Running(b, m1), end, [], W, o, fuel);
        }
      }
    }
  }

  /** Behind the then branch the machine jumps over the else branch. */
  lemma ThenFollows(A: Arith, P: Program, c: Config, j: nat, end: nat, off: u16, W: Targets, o: Outcome, fuel: nat)
    requires Follows(A, P, c, j, [], W, o, fuel)
    requires At(P.code, j, Jump(off)) && j + 3 + off == end
    ensures Follows(A, P, c, end, [], W, o, fuel)
  {
    hide Reaches, RunsFor, At;
    if o.Normal? {
      var m :| Carries(A, P.consts, [], m, o.env, o.g, o.out) && Reaches(A, P, c, Running(j, m));
      JumpRuns(A, P, j, off, m);
      ReachesTrans(A, P, c, Running(j, m), Running(end, m));
    }
  }

  // ---- Loops ----

  /** The normal and the continuing end of a loop body lead to `next` (paid: by at least one step), a break
      leads to the end of the loop. */
  ghost predicate TurnFollows(A: Arith, P: Program, c: Config, next: nat, end: nat, o: Outcome, paid: bool, fuel: nat) {
    match o
    case Normal(env, g, out) => Leads(A, P, c, Running(next, StateOf(env, [], g, out)), paid)
    case Continued(env, g, out) => Leads(A, P, c, Running(next, StateOf(env, [], g, out)), paid)
    case Broke(env, g, out) => Reaches(A, P, c, Running(end, StateOf(env, [], g, out)))
    case Failed(g, out) => Reaches(A, P, c, Faulted(g, out))
    case OutOfFuel => RunsFor(A, P, c, fuel)
  }

  ghost predicate Leads(A: Arith, P: Program, c: Config, d: Config, paid: bool) {
    if paid then ReachesPlus(A, P, c, d) else Reaches(A, P, c, d)
  }

  lemma BodyTurn(A: Arith, P: Program, b: nat, j: nat, body: Stmt, names: seq<Text>, W: Targets, paid: bool,
                 env: Env, g: Globals, out: seq<Value>, fuel: nat)
    requires Sim(A, P, Seg(b, [], j, []), OfStmt(body), names, W)
    requires W.height == |names| && NamesOf(env) == names
    requires if paid then JumpAt(P.code, j, W.cnt) else j == W.cnt
    ensures TurnFollows(A, P, Running(b, StateOf(env, [], g, out)), W.cnt, W.brk,
                        Exec(A, body, env, g, out, fuel), paid, fuel)
  {
    hide Reaches, ReachesPlus, RunsFor, Exec, JumpAt;
    var c := Running(b, StateOf(env, [], g, out));
    var o := Exec(A, body, env, g, out, fuel);
    CarriesState(A, P.consts, env, g, out, c.m);
    assert Follows(A, P, c, j, [], W, ExecItem(A, OfStmt(body), env, g, out, fuel), fuel);
    ExecKeepsNames(A, body, env, g, out, fuel);
    if HasEnv(o) { assert o.env[..W.height] == o.env; }
    if o.Normal? && paid {
      var m := StateOf(o.env, [], o.g, o.out);
      JumpAtRuns(A, P, j, W.cnt, m);
      TransPlus(A, P, c, Running(j, m), Running(W.cnt, m));
    } else if o.Continued? {
      PlusReaches(A, P, c, Running(W.cnt, StateOf(o.env, [], o.g, o.out)));
    }
  }

  lemma RunsForZero(A: Arith, P: Program, c: Config)
    requires c.Running?
    ensures RunsFor(A, P, c, 0)
  {
  }

  /** The next turn starts behind at least one step, which pays for the fuel of this one. */
  lemma NextFollows(A: Arith, P: Program, c: Config, d: Config, end: nat, W: Targets, o: Outcome, fuel: nat)
    requires ReachesPlus(A, P, c, d) && fuel > 0
    requires Follows(A, P, d, end, [], W, o, fuel - 1)
    ensures Follows(A, P, c, end, [], W, o, fuel)
  {
    hide Reaches, ReachesPlus, RunsFor, Carries;
    PlusReaches(A, P, c, d);
    if o.OutOfFuel? {
      PlusRunsFor(A, P, c, d, fuel);
    } else {
      FollowsSameFuel(A, P, d, end, W, W, o, fuel - 1, fuel);
      FollowsAfter(A, P, c, d, end, [], W, o, fuel);
    }
  }

  lemma FollowsSameFuel(A: Arith, P: Program, c: Config, q: nat, W: Targets, W1: Targets, o: Outcome, fuel: nat, fuel1: nat)
    requires Follows(A, P, c, q, [], W, o, fuel)
    requires o.OutOfFuel? ==> fuel1 <= fuel
    requires o.Broke? || o.Continued? ==> W == W1
    ensures Follows(A, P, c, q, [], W1, o, fuel1)
  {
    hide Reaches, ReachesPlus, Carries, Run;
    if o.OutOfFuel? { RunsForLess(A, P, c, fuel, fuel1); }
  }

  /** The turn was the last. */
  lemma LastFollows(A: Arith, P: Program, c: Config, next: nat, end: nat, W: Targets, o: Outcome, paid: bool, fuel: nat)
    requires TurnFollows(A, P, c, next, end, o, paid, fuel)
    requires o.Broke? || o.Failed? || o.OutOfFuel?
    ensures Follows(A, P, c, end, [], W, if o.Broke? then Normal(o.env, o.g, o.out) else o, fuel)
  {
    hide Reaches, RunsFor;
    if o.Broke? { CarriesState(A, P.consts, o.env, o.g, o.out, StateOf(o.env, [], o.g, o.out)); }
  }

  /** The loop ends because its condition fails. */
  lemma EndFollows(A: Arith, P: Program, c: Config, end: nat, W: Targets, env: Env, g: Globals, out: seq<Value>, fuel: nat)
    requires Reaches(A, P, c, Running(end, StateOf(env, [], g, out)))
    ensures Follows(A, P, c, end, [], W, Normal(env, g, out), fuel)
  {
    hide Reaches;
    CarriesState(A, P.consts, env, g, out, StateOf(env, [], g, out));
  }

  lemma {:induction false} WhileFollows(A: Arith, P: Program, a: nat, b: nat, j: nat, end: nat, c: Expr, body: Stmt,
                                        names: seq<Text>, W: Targets, W0: Targets,
                                        env: Env, g: Globals, out: seq<Value>, fuel: nat)
    requires BranchSim(A, P, a, b, end, c, names)
    requires Sim(A, P, Seg(b, [], j, []), OfStmt(body), names, W)
    requires W == Targets(|names|, end, a) && NamesOf(env) == names && JumpAt(P.code, j, a)
    ensures Follows(A, P, Running(a, StateOf(env, [], g, out)), end, [], W0,
                    Exec(A, While(c, body), env, g, out, fuel), fuel)
    decreases fuel
  {
    hide Reaches, ReachesPlus, RunsFor, JumpAt, Eval, Sim, Follows;
    var s := While(c, body);
    var start := Running(a, StateOf(env, [], g, out));
    if fuel == 0 {
      RunsForZero(A, P, start);
      OutOfFuelFollows(A, P, start, end, W0, fuel);
      return;
    }
    assert BranchFollows(A, P, a, b, end, c, env, g, out);
    EvalKeepsNames(A, c, env, g);
    var r := Eval(A, c, env, g);
    if r.Err? {
      FailedFollows(A, P, start, end, W0, r.g, out, fuel);
    } else if Falsey(r.v) {
      EndFollows(A, P, start, end, W0, r.env, r.g, out, fuel);
    } else {
      var d := Running(b, StateOf(r.env, [], r.g, out));
      var o := Exec(A, body, r.env, r.g, out, fuel);
      ExecKeepsNames(A, body, r.env, r.g, out, fuel);
      BodyTurn(A, P, b, j, body, names, W, true, r.env, r.g, out, fuel);
      if o.Normal? || o.Continued? {
        WhileFollows(A, P, a, b, j, end, c, body, names, W, W0, o.env, o.g, o.out, fuel - 1);
        NextFollows(A, P, d, Running(a, StateOf(o.env, [], o.g, o.out)), end, W0,
                    Exec(A, s, o.env, o.g, o.out, fuel - 1), fuel);
      } else {
        LastFollows(A, P, d, a, end, W0, o, true, fuel);
      }
      FollowsAfter(A, P, start, d, end, [], W0, Exec(A, s, env, g, out, fuel), fuel);
    }
  }

  lemma OutOfFuelFollows(A: Arith, P: Program, c: Config, q: nat, W: Targets, fuel: nat)
    requires RunsFor(A, P, c, fuel)
    ensures Follows(A, P, c, q, [], W, OutOfFuel, fuel)
  {
  }

  lemma FailedFollows(A: Arith, P: Program, c: Config, q: nat, W: Targets, g: Globals, out: seq<Value>, fuel: nat)
    requires Reaches(A, P, c, Faulted(g, out))
    ensures Follows(A, P, c, q, [], W, Failed(g, out), fuel)
  {
  }

  lemma SimWhile(A: Arith, P: Program, a: nat, b: nat, j: nat, end: nat, c: Expr, body: Stmt,
                 names: seq<Text>, W: Targets, W0: Targets)
    requires BranchSim(A, P, a, b, end, c, names)
    requires Sim(A, P, Seg(b, [], j, []), OfStmt(body), names, W)
    requires W == Targets(|names|, end, a) && JumpAt(P.code, j, a)
    ensures Sim(A, P, Seg(a, [], end, []), OfStmt(While(c, body)), names, W0)
  {
    hide Carries, Follows, Exec, JumpAt, BranchSim;
    forall env, g, out, fuel: nat, m | NamesOf(env) == names && Carries(A, P.consts, [], m, env, g, out)
      ensures Follows(A, P, Running(a, m), end, [], W0, ExecItem(A, OfStmt(While(c, body)), env, g, out, fuel), fuel)
    {
      CarriesState(A, P.consts, env, g, out, m);
      WhileFollows(A, P, a, b, j, end, c, body, names, W, W0, env, g, out, fuel);
    }
  }

  /** do-while: the body stands before the condition, and continue leads to the condition. */
  lemma {:induction false} DoWhileFollows(A: Arith, P: Program, a: nat, j: nat, k: nat, end: nat, c: Expr, body: Stmt,
                                          names: seq<Text>, W: Targets, W0: Targets,
                                          env: Env, g: Globals, out: seq<Value>, fuel: nat)
    requires Sim(A, P, Seg(a, [], j, []), OfStmt(body), names, W)
    requires BranchSim(A, P, j, k, end, c, names)
    requires W == Targets(|names|, end, j) && NamesOf(env) == names && JumpAt(P.code, k, a)
    ensures Follows(A, P, Running(a, StateOf(env, [], g, out)), end, [], W0,
                    Exec(A, DoWhile(body, c), env, g, out, fuel), fuel)
    decreases fuel
  {
    hide Reaches, ReachesPlus, RunsFor, JumpAt, Eval, Sim, Follows;
    var s := DoWhile(body, c);
    var start := Running(a, StateOf(env, [], g, out));
    if fuel == 0 {
      RunsForZero(A, P, start);
      OutOfFuelFollows(A, P, start, end, W0, fuel);
      return;
    }
    var o := Exec(A, body, env, g, out, fuel);
    ExecKeepsNames(A, body, env, g, out, fuel);
    BodyTurn(A, P, a, j, body, names, W, false, env, g, out, fuel);
    if !(o.Normal? || o.Continued?) {
      LastFollows(A, P, start, j, end, W0, o, false, fuel);
      return;
    }
    var d := Running(j, StateOf(o.env, [], o.g, o.out));
    assert BranchFollows(A, P, j, k, end, c, o.env, o.g, o.out);
    EvalKeepsNames(A, c, o.env, o.g);
    var r := Eval(A, c, o.env, o.g);
    if r.Err? {
      FailedFollows(A, P, d, end, W0, r.g, o.out, fuel);
    } else if Falsey(r.v) {
      EndFollows(A, P, d, end, W0, r.env, r.g, o.out, fuel);
    } else {
      var m1 := StateOf(r.env, [], r.g, o.out);
      JumpAtRuns(A, P, k, a, m1);
      TransPlus(A, P, d, Running(k, m1), Running(a, m1));
      DoWhileFollows(A, P, a, j, k, end, c, body, names, W, W0, r.env, r.g, o.out, fuel - 1);
      NextFollows(A, P, d, Running(a, m1), end, W0, Exec(A, s, r.env, r.g, o.out, fuel - 1), fuel);
    }
    assert Exec(A, s, env, g, out, fuel) == AfterBody(A, s, o.env, o.g, o.out, fuel);
    FollowsAfter(A, P, start, d, end, [], W0, Exec(A, s, env, g, out, fuel), fuel);
  }

  lemma SimDoWhile(A: Arith, P: Program, a: nat, j: nat, k: nat, end: nat, c: Expr, body: Stmt,
                   names: seq<Text>, W: Targets, W0: Targets)
    requires Sim(A, P, Seg(a, [], j, []), OfStmt(body), names, W)
    requires BranchSim(A, P, j, k, end, c, names)
    requires W == Targets(|names|, end, j) && JumpAt(P.code, k, a)
    ensures Sim(A, P, Seg(a, [], end, []), OfStmt(DoWhile(body, c)), names, W0)
  {
    hide Carries, Follows, Exec, JumpAt, BranchSim;
    forall env, g, out, fuel: nat, m | NamesOf(env) == names && Carries(A, P.consts, [], m, env, g, out)
      ensures Follows(A, P, Running(a, m), end, [], W0, ExecItem(A, OfStmt(DoWhile(body, c)), env, g, out, fuel), fuel)
    {
      CarriesState(A, P.consts, env, g, out, m);
      DoWhileFollows(A, P, a, j, k, end, c, body, names, W, W0, env, g, out, fuel);
    }
  }

  // ---- For loops ----

  /** The parts of a for loop behind its initializer: the test at s, the body at b, and the increment, to which
      the end of the body leads, at i.  Without a test, s and t coincide; without an increment, t and b do, and
      s and i. */
  datatype ForParts = ForParts(s: nat, t: nat, i: nat, u: nat, b: nat, j: nat, end: nat)

  ghost predicate ForAt(A: Arith, P: Program, F: ForParts, test: Option<Expr>, step: Option<Expr>, body: Stmt,
                        names: seq<Text>) {
    && (if test.Some? then BranchSim(A, P, F.s, F.t, F.end, test.value, names) else F.t == F.s)
    && (if step.Some? then
          JumpAt(P.code, F.t, F.b) && JumpAt(P.code, F.u, F.s) &&
          Sim(A, P, Seg(F.i, [], F.u, []), OfStmt(ExprStmt(step.value)), names, Targets(|names|, F.end, F.i))
        else F.b == F.t && F.i == F.s)
    && Sim(A, P, Seg(F.b, [], F.j, []), OfStmt(body), names, Targets(|names|, F.end, F.i))
    && JumpAt(P.code, F.j, F.i)
  }

  /** From the test to the body. */
  lemma TestFollows(A: Arith, P: Program, F: ForParts, test: Option<Expr>, step: Option<Expr>, body: Stmt,
                    names: seq<Text>, env: Env, g: Globals, out: seq<Value>)
    requires ForAt(A, P, F, test, step, body, names) && NamesOf(env) == names
    ensures var r := if test.Some? then Eval(A, test.value, env, g) else Val(Bool(true), env, g);
            var start := Running(F.s, StateOf(env, [], g, out));
            if r.Err? then Reaches(A, P, start, Faulted(r.g, out))
            else NamesOf(r.env) == names &&
                 Reaches(A, P, start, Running(if Falsey(r.v) then F.end else F.b, StateOf(r.env, [], r.g, out)))
  {
    hide Reaches, ReachesPlus, JumpAt, Sim, Eval;
    var r := if test.Some? then Eval(A, test.value, env, g) else Val(Bool(true), env, g);
    var start := Running(F.s, StateOf(env, [], g, out));
    if test.Some? {
      assert BranchFollows(A, P, F.s, F.t, F.end, test.value, env, g, out);
      EvalKeepsNames(A, test.value, env, g);
    } else {
      ReachesSelf(A, P, start);
    }
    if r.Val? && !Falsey(r.v) && step.Some? {
      var m := StateOf(r.env, [], r.g, out);
      JumpAtRuns(A, P, F.t, F.b, m);
      ReachesTrans(A, P, start, Running(F.t, m), Running(F.b, m));
    }
  }

  /** From the increment to the test. */
  lemma StepFollows(A: Arith, P: Program, F: ForParts, test: Option<Expr>, step: Option<Expr>, body: Stmt,
                    names: seq<Text>, env: Env, g: Globals, out: seq<Value>)
    requires ForAt(A, P, F, test, step, body, names) && NamesOf(env) == names
    ensures var r := if step.Some? then Eval(A, step.value, env, g) else Val(Nil, env, g);
            var start := Running(F.i, StateOf(env, [], g, out));
            if r.Err? then Reaches(A, P, start, Faulted(r.g, out))
            else NamesOf(r.env) == names && Reaches(A, P, start, Running(F.s, StateOf(r.env, [], r.g, out)))
  {
    hide Reaches, ReachesPlus, JumpAt, Eval, BranchSim;
    var start := Running(F.i, StateOf(env, [], g, out));
    if step.Some? {
      var r := Eval(A, step.value, env, g);
      CarriesState(A, P.consts, env, g, out, start.m);
      EvalKeepsNames(A, step.value, env, g);
      assert Follows(A, P, start, F.u, [], Targets(|names|, F.end, F.i),
                     ExecItem(A, OfStmt(ExprStmt(step.value)), env, g, out, 0), 0);
      if r.Val? {
        var m := StateOf(r.env, [], r.g, out);
        CarriesState(A, P.consts, r.env, r.g, out, m);
        JumpAtRuns(A, P, F.u, F.s, m);
        ReachesTrans(A, P, start, Running(F.u, m), Running(F.s, m));
      }
    } else {
      ReachesSelf(A, P, start);
    }
  }

  lemma {:induction false} ForFollows(A: Arith, P: Program, F: ForParts, test: Option<Expr>, step: Option<Expr>,
                                      body: Stmt, names: seq<Text>, W0: Targets,
                                      env: Env, g: Globals, out: seq<Value>, fuel: nat)
    requires ForAt(A, P, F, test, step, body, names) && NamesOf(env) == names
    ensures Follows(A, P, Running(F.s, StateOf(env, [], g, out)), F.end, [], W0,
                    ExecFor(A, test, step, body, env, g, out, fuel), fuel)
    decreases fuel
  {
    hide Reaches, ReachesPlus, RunsFor, JumpAt, Eval, Sim, Follows, BranchSim;
    var start := Running(F.s, StateOf(env, [], g, out));
    if fuel == 0 {
      RunsForZero(A, P, start);
      OutOfFuelFollows(A, P, start, F.end, W0, fuel);
      return;
    }
    TestFollows(A, P, F, test, step, body, names, env, g, out);
    var r := if test.Some? then Eval(A, test.value, env, g) else Val(Bool(true), env, g);
    if r.Err? {
      FailedFollows(A, P, start, F.end, W0, r.g, out, fuel);
    } else if Falsey(r.v) {
      EndFollows(A, P, start, F.end, W0, r.env, r.g, out, fuel);
    } else {
      var d := Running(F.b, StateOf(r.env, [], r.g, out));
      var o := Exec(A, body, r.env, r.g, out, fuel);
      ExecKeepsNames(A, body, r.env, r.g, out, fuel);
      BodyTurn(A, P, F.b, F.j, body, names, Targets(|names|, F.end, F.i), true, r.env, r.g, out, fuel);
      if o.Normal? || o.Continued? {
        TurnThenStep(A, P, F, test, step, body, names, W0, d, o, fuel);
      } else {
        LastFollows(A, P, d, F.i, F.end, W0, o, true, fuel);
      }
      FollowsAfter(A, P, start, d, F.end, [], W0, ExecFor(A, test, step, body, env, g, out, fuel), fuel);
    }
  }

  lemma {:induction false} TurnThenStep(A: Arith, P: Program, F: ForParts, test: Option<Expr>, step: Option<Expr>,
                                        body: Stmt, names: seq<Text>, W0: Targets, d: Config, o: Outcome, fuel: nat)
    requires ForAt(A, P, F, test, step, body, names) && fuel > 0
    requires (o.Normal? || o.Continued?) && NamesOf(o.env) == names
    requires ReachesPlus(A, P, d, Running(F.i, StateOf(o.env, [], o.g, o.out)))
    ensures Follows(A, P, d, F.end, [], W0, NextTurn(A, test, step, body, o.env, o.g, o.out, fuel), fuel)
    decreases fuel, 0
  {
    hide Reaches, ReachesPlus, RunsFor, JumpAt, Eval, Sim, Follows, BranchSim, ExecFor, ForAt;
    StepFollows(A, P, F, test, step, body, names, o.env, o.g, o.out);
    var i := Running(F.i, StateOf(o.env, [], o.g, o.out));
    var r := if step.Some? then Eval(A, step.value, o.env, o.g) else Val(Nil, o.env, o.g);
    PlusReaches(A, P, d, i);
    if r.Err? {
      ReachesTrans(A, P, d, i, Faulted(r.g, o.out));
      FailedFollows(A, P, d, F.end, W0, r.g, o.out, fuel);
    } else {
      var m := Running(F.s, StateOf(r.env, [], r.g, o.out));
      PlusTrans(A, P, d, i, m);
      ForFollows(A, P, F, test, step, body, names, W0, r.env, r.g, o.out, fuel - 1);
      NextFollows(A, P, d, m, F.end, W0, ExecFor(A, test, step, body, r.env, r.g, o.out, fuel - 1), fuel);
    }
  }

  lemma SimFor(A: Arith, P: Program, consts: seq<Value>, seg: Seg, F: ForParts, init: Decls, test: Option<Expr>,
               step: Option<Expr>, body: Stmt, K: seq<Instr>, n: nat, names: seq<Text>, W0: Targets)
    requires Sim(A, P, seg, OfDecls(init, false), names, W0) && W0.height <= |names|
    requires ListAt(P.code, seg.stop, seg.tout) && F.s == seg.stop + SizeAll(seg.tout)
    requires ForAt(A, P, F, test, step, body, names + Declared(init, false))
    requires n == |Declared(init, false)|
    requires consts <= P.consts && Pops(A, consts, [], K, n) && ListAt(P.code, F.end, K)
    ensures Sim(A, P, Seg(seg.start, seg.tin, F.end + SizeAll(K), []), OfStmt(For(init, test, step, body)), names, W0)
  {
    hide Carries, Follows, Reaches, ListAt, ExecDecls, ExecFor, Pops, ForAt;
    var s := For(init, test, step, body);
    forall env, g, out, fuel: nat, m | NamesOf(env) == names && Carries(A, P.consts, seg.tin, m, env, g, out)
      ensures Follows(A, P, Running(seg.start, m), F.end + SizeAll(K), [], W0,
                      ExecItem(A, OfStmt(s), env, g, out, fuel), fuel)
    {
      var c := Running(seg.start, m);
      var o := ExecDecls(A, init, false, env, g, out, fuel);
      assert Follows(A, P, c, seg.stop, seg.tout, W0, ExecItem(A, OfDecls(init, false), env, g, out, fuel), fuel);
      DeclsDeepen(A, init, false, env, g, out, fuel);
      FollowsFlush(A, P, c, seg.stop, seg.tout, W0, o, fuel);
      if o.Normal? {
        var o1 := ExecFor(A, test, step, body, o.env, o.g, o.out, fuel);
        ForFollows(A, P, F, test, step, body, names + Declared(init, false), W0, o.env, o.g, o.out, fuel);
        ForKeepsNames(A, test, step, body, o.env, o.g, o.out, fuel);
        NormalReaches(A, P, c, F.s, W0, o, fuel);
        FollowsAfter(A, P, c, Running(F.s, StateOf(o.env, [], o.g, o.out)), F.end, [], W0, o1, fuel);
        ForLength(o1, o.env, |names|, n);
        ScopeFollows(A, P, consts, c, F.end, [], K, n, W0, o1, |env|, fuel);
      } else {
        FollowsElsewhere(A, P, c, F.s, F.end, W0, o, fuel);
        ScopeFollows(A, P, consts, c, F.end, [], K, n, W0, o, |env|, fuel);
      }
    }
  }

  lemma ForLength(o: Outcome, env: Env, depth: nat, n: nat)
    requires HasEnv(o) ==> NamesOf(o.env) == NamesOf(env)
    requires |env| == depth + n
    ensures HasEnv(o) ==> |o.env| == depth + n
  {
    if HasEnv(o) { assert |NamesOf(o.env)| == |NamesOf(env)|; }
  }

  lemma NormalReaches(A: Arith, P: Program, c: Config, q: nat, W: Targets, o: Outcome, fuel: nat)
    requires Follows(A, P, c, q, [], W, o, fuel) && o.Normal?
    ensures Reaches(A, P, c, Running(q, StateOf(o.env, [], o.g, o.out)))
  {
    hide Reaches;
  }

  /** An outcome that does not get to q does not get to r either. */
  lemma FollowsElsewhere(A: Arith, P: Program, c: Config, q: nat, r: nat, W: Targets, o: Outcome, fuel: nat)
    requires Follows(A, P, c, q, [], W, o, fuel) && !o.Normal?
    ensures Follows(A, P, c, r, [], W, o, fuel)
  {
    hide Reaches, ReachesPlus, RunsFor;
  }
}
