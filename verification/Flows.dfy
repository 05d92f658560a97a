/** Which values a function computes, in which order, when the outcomes of its conditions are given: by its source, and by
    its code.  Where code is laid out for a source, the two are the same. */
module Flows {
  import opened Types
  import opened Values
  import opened Captures
  import opened FunctionSyntax

  // ---- The source ----

  /** Endless stands for a loop that made more turns than it was given fuel for. */
  datatype End = Normal | Broke | Continued | Returned | Endless

  /** How a statement ends, the values it computed, and how many conditions have been tested by then. */
  datatype Flow = Flow(end: End, ops: seq<Op>, tests: nat)

  function After(ops: seq<Op>, f: Flow): Flow {
    f.(ops := ops + f.ops)
  }

  predicate GoesOn(f: Flow) {
    f.end.Normal? || f.end.Continued?
  }

  /** The n-th condition tested holds or not, as `holds` says; `tests` have been tested before the statement. */
  function FlowOf(s: Stmt, names: seq<Text>, holds: nat -> bool, tests: nat, fuel: nat): Flow
    decreases fuel, s, 0
  {
    match s
    case ExprStmt(e) => Flow(Normal, Asked(e, names) + [Consume], tests)
    case Block(ds) => FlowOfAll(ds, names, false, holds, tests, fuel)
    case If(e, t, f) => After(Asked(e, names), FlowOf(if holds(tests) then t else f, names, holds, tests + 1, fuel))
    case While(e, b) =>
      if fuel == 0 then Flow(Endless, [], tests)
      else if !holds(tests) then Flow(Normal, Asked(e, names), tests + 1)
      else
        var f := After(Asked(e, names), FlowOf(b, names, holds, tests + 1, fuel));
        if GoesOn(f) then After(f.ops, FlowOf(s, names, holds, f.tests, fuel - 1)) else Left(f)
    case DoWhile(b, e) =>
      if fuel == 0 then Flow(Endless, [], tests)
      else
        var f := FlowOf(b, names, holds, tests, fuel);
        if !GoesOn(f) then Left(f)
        else if !holds(f.tests) then Flow(Normal, f.ops + Asked(e, names), f.tests + 1)
        else After(f.ops + Asked(e, names), FlowOf(s, names, holds, f.tests + 1, fuel - 1))
    case For(init, test, step, b) =>
      var f := FlowOfAll(init, names, false, holds, tests, fuel);
      if f.end.Normal? then
        After(f.ops, FlowOfFor(test, step, b, names + Declared(init, false), holds, f.tests, fuel))
      else f
    case Break => Flow(Broke, [], tests)
    case Continue => Flow(Continued, [], tests)
    case ReturnStmt(e) => Flow(Returned, Asked(e, names) + [Return], tests)
  }

  /** A loop that is left by break ends as usual. */
  function Left(f: Flow): Flow {
    if f.end.Broke? then f.(end := Normal) else f
  }

  /** A for loop behind its initializer. */
  function FlowOfFor(test: Option<Expr>, step: Option<Expr>, b: Stmt, names: seq<Text>, holds: nat -> bool, tests: nat,
                     fuel: nat): Flow
    decreases fuel, b, 1
  {
    if fuel == 0 then Flow(Endless, [], tests)
    else if test.Some? && !holds(tests) then Flow(Normal, Asked(test.value, names), tests + 1)
    else
      var f := After(TestOps(test, names), FlowOf(b, names, holds, if test.Some? then tests + 1 else tests, fuel));
      if GoesOn(f) then After(f.ops + StepOps(step, names), FlowOfFor(test, step, b, names, holds, f.tests, fuel - 1))
      else Left(f)
  }

  function TestOps(test: Option<Expr>, names: seq<Text>): seq<Op> {
    if test.Some? then Asked(test.value, names) else []
  }

  function StepOps(step: Option<Expr>, names: seq<Text>): seq<Op> {
    if step.Some? then Asked(step.value, names) + [Consume] else []
  }

  /** A local's value stays where it is, a global's is taken. */
  function DeclOps(d: Decl, names: seq<Text>, top: bool): seq<Op>
    requires !d.Statement?
  {
    var e := if d.Var? then d.init else d.uses;
    if top then Asked(e, names) + [Consume] else Asked(e, names + [d.name])
  }

  function FlowOfDecl(d: Decl, names: seq<Text>, top: bool, holds: nat -> bool, tests: nat, fuel: nat): Flow
    decreases fuel, d, 0
  {
    if d.Statement? then FlowOf(d.s, names, holds, tests, fuel) else Flow(Normal, DeclOps(d, names, top), tests)
  }

  function FlowOfAll(ds: Decls, names: seq<Text>, top: bool, holds: nat -> bool, tests: nat, fuel: nat): Flow
    decreases fuel, ds, 0
  {
    if ds.Done? then Flow(Normal, [], tests)
    else
      var f := FlowOfDecl(ds.first, names, top, holds, tests, fuel);
      if f.end.Normal? then
        After(f.ops, FlowOfAll(ds.rest, names + DeclaredBy(ds.first, top), top, holds, f.tests, fuel))
      else f
  }

  // ---- The code ----

  /** Where a run is, how many conditions it has tested and the values it has computed; and whether it has returned. */
  datatype At = At(pc: nat, tests: nat, done: seq<Op>, stopped: bool)

  function GoOne(code: seq<Op>, holds: nat -> bool, a: At): At {
    if a.stopped || a.pc >= |code| then a
    else
      var op := code[a.pc];
      match op
      case Closure(_) => a.(pc := a.pc + 1, done := a.done + [op])
      case Consume => a.(pc := a.pc + 1, done := a.done + [op])
      case Return => a.(done := a.done + [op], stopped := true)
      case Jump(t) => a.(pc := t)
      case JumpIfFalsePop(t) => a.(pc := if holds(a.tests) then a.pc + 1 else t, tests := a.tests + 1)
      case PopCount(_) => a.(pc := a.pc + 1)
      case CloseUpvalue => a.(pc := a.pc + 1)
  }

  function GoOn(code: seq<Op>, holds: nat -> bool, a: At, k: nat): At {
    if k == 0 then a else GoOne(code, holds, GoOn(code, holds, a, k - 1))
  }

  lemma {:induction false} GoTwice(code: seq<Op>, holds: nat -> bool, a: At, j: nat, k: nat)
    ensures GoOn(code, holds, a, j + k) == GoOn(code, holds, GoOn(code, holds, a, j), k)
  {
    if k > 0 { GoTwice(code, holds, a, j, k - 1); }
  }

  // ---- Code laid out for a source ----

  /** The instruction stands at p, and is no jump whose target is still to come. */
  predicate Has(d: Draft, p: nat, op: Op) {
    p < |d.code| && p !in d.holes && d.code[p] == op
  }

  predicate HasAll(d: Draft, p: nat, ops: seq<Op>) {
    forall i :: 0 <= i < |ops| ==> Has(d, p + i, ops[i])
  }

  /** From p to q only locals leave the stack. */
  predicate Silent(d: Draft, p: nat, q: nat) {
    p <= q <= |d.code| && forall i :: p <= i < q ==> i !in d.holes && (d.code[i].PopCount? || d.code[i].CloseUpvalue?)
  }

  predicate AllLead(d: Draft, jumps: set<nat>, t: nat) {
    forall j :: j in jumps ==> Has(d, j, Jump(t))
  }

  /** From p to q is code for the statement.  The jumps of its breaks and continues are among `outs` and `backs`. */
  ghost predicate Laid(d: Draft, s: Stmt, names: seq<Text>, p: nat, q: nat, outs: set<nat>, backs: set<nat>)
    decreases s, 0
  {
    p <= q <= |d.code| &&
    match s
    case ExprStmt(e) => q == p + 2 && HasAll(d, p, Asked(e, names) + [Consume])
    case Block(ds) => exists m: nat :: LaidAll(d, ds, names, false, p, m, outs, backs) && Silent(d, m, q)
    case If(e, t, f) => exists m: nat :: LaidIf(d, e, names, p, m, q) &&
                          Laid(d, t, names, p + 2, m, outs, backs) && Laid(d, f, names, m + 1, q, outs, backs)
    case While(e, b) => exists o, r :: LaidWhile(d, e, names, p, q, o, r) && Laid(d, b, names, p + 2, q - 1, o, r)
    case DoWhile(b, e) => exists o, r :: LaidDoWhile(d, e, names, p, q, o, r) && Laid(d, b, names, p, q - 3, o, r)
    case For(init, test, step, b) => exists m: nat, n: nat ::
                                       LaidAll(d, init, names, false, p, m, outs, backs) && Silent(d, n, q) &&
                                       LaidFor(d, test, step, b, names + Declared(init, false), m, n)
    case Break => p < q && Silent(d, p, q - 1) && q - 1 in outs
    case Continue => p < q && Silent(d, p, q - 1) && q - 1 in backs
    case ReturnStmt(e) => q == p + 2 && HasAll(d, p, Asked(e, names) + [Return])
  }

  /** The condition, then the jump to the else branch at m + 1; the then branch ends with a jump to behind it. */
  predicate LaidIf(d: Draft, e: Expr, names: seq<Text>, p: nat, m: nat, q: nat) {
    p + 2 <= m < q && HasAll(d, p, Asked(e, names)) && Has(d, p + 1, JumpIfFalsePop(m + 1)) && Has(d, m, Jump(q))
  }

  /** The condition leads behind the loop, its end back to the condition; so do breaks and continues. */
  predicate LaidWhile(d: Draft, e: Expr, names: seq<Text>, p: nat, q: nat, outs: set<nat>, backs: set<nat>) {
    && p + 3 <= q && HasAll(d, p, Asked(e, names)) && Has(d, p + 1, JumpIfFalsePop(q)) && Has(d, q - 1, Jump(p))
    && AllLead(d, outs, q) && AllLead(d, backs, p)
  }

  predicate LaidDoWhile(d: Draft, e: Expr, names: seq<Text>, p: nat, q: nat, outs: set<nat>, backs: set<nat>) {
    && p + 3 <= q && HasAll(d, q - 3, Asked(e, names)) && Has(d, q - 2, JumpIfFalsePop(q)) && Has(d, q - 1, Jump(p))
    && AllLead(d, outs, q) && AllLead(d, backs, q - 3)
  }

  /** Where the increment of a for loop begins, and where its body does. */
  function StepAt(test: Option<Expr>, p: nat): nat {
    if test.Some? then p + 2 else p
  }

  function BodyAt(test: Option<Expr>, step: Option<Expr>, p: nat): nat {
    StepAt(test, p) + if step.Some? then 4 else 0
  }

  /** What the body of a for loop goes back to: the increment, or else the test. */
  function TurnAt(test: Option<Expr>, step: Option<Expr>, p: nat): nat {
    if step.Some? then StepAt(test, p) + 1 else p
  }

  predicate LaidHead(d: Draft, test: Option<Expr>, step: Option<Expr>, names: seq<Text>, p: nat, q: nat, outs: set<nat>,
                     backs: set<nat>) {
    var x := StepAt(test, p);
    && BodyAt(test, step, p) < q
    && (test.Some? ==> HasAll(d, p, Asked(test.value, names)) && Has(d, p + 1, JumpIfFalsePop(q)))
    && (step.Some? ==> Has(d, x, Jump(x + 4)) && HasAll(d, x + 1, StepOps(step, names)) && Has(d, x + 3, Jump(p)))
    && Has(d, q - 1, Jump(TurnAt(test, step, p)))
    && AllLead(d, outs, q) && AllLead(d, backs, TurnAt(test, step, p))
  }

  ghost predicate LaidFor(d: Draft, test: Option<Expr>, step: Option<Expr>, b: Stmt, names: seq<Text>, p: nat, q: nat)
    decreases b, 1
  {
    exists o, r :: LaidHead(d, test, step, names, p, q, o, r) && Laid(d, b, names, BodyAt(test, step, p), q - 1, o, r)
  }

  ghost predicate LaidDecl(d: Draft, decl: Decl, names: seq<Text>, top: bool, p: nat, q: nat, outs: set<nat>, backs: set<nat>)
    decreases decl, 0
  {
    if decl.Statement? then Laid(d, decl.s, names, p, q, outs, backs)
    else var ops := DeclOps(decl, names, top); q == p + |ops| <= |d.code| && HasAll(d, p, ops)
  }

  ghost predicate LaidAll(d: Draft, ds: Decls, names: seq<Text>, top: bool, p: nat, q: nat, outs: set<nat>, backs: set<nat>)
    decreases ds, 0
  {
    if ds.Done? then p == q <= |d.code|
    else exists m: nat :: LaidDecl(d, ds.first, names, top, p, m, outs, backs) &&
                          LaidAll(d, ds.rest, names + DeclaredBy(ds.first, top), top, m, q, outs, backs)
  }

  // ---- Laid out it stays ----

  /** What is not still to be patched stays as it is. */
  predicate Stays(d: Draft, d1: Draft) {
    |d.code| <= |d1.code| && forall p :: 0 <= p < |d.code| && p !in d.holes ==> p !in d1.holes && d1.code[p] == d.code[p]
  }

  lemma HasStays(d: Draft, d1: Draft, p: nat, ops: seq<Op>)
    requires Stays(d, d1) && HasAll(d, p, ops)
    ensures HasAll(d1, p, ops)
  {
    forall i | 0 <= i < |ops| ensures Has(d1, p + i, ops[i]) { assert Has(d, p + i, ops[i]); }
  }

  lemma LeadStays(d: Draft, d1: Draft, jumps: set<nat>, t: nat)
    requires Stays(d, d1) && AllLead(d, jumps, t)
    ensures AllLead(d1, jumps, t)
  {
    forall j | j in jumps ensures Has(d1, j, Jump(t)) { assert Has(d, j, Jump(t)); }
  }

  lemma OneStays(d: Draft, d1: Draft, p: nat, op: Op)
    requires Stays(d, d1) && Has(d, p, op)
    ensures Has(d1, p, op)
  {
  }

  lemma SilentStays(d: Draft, d1: Draft, p: nat, q: nat)
    requires Stays(d, d1) && Silent(d, p, q)
    ensures Silent(d1, p, q)
  {
  }

  lemma IfStays(d: Draft, d1: Draft, e: Expr, names: seq<Text>, p: nat, m: nat, q: nat)
    requires Stays(d, d1) && LaidIf(d, e, names, p, m, q)
    ensures LaidIf(d1, e, names, p, m, q)
  {
    hide Stays, Has, HasAll, Asked;
    HasStays(d, d1, p, Asked(e, names));
    OneStays(d, d1, p + 1, JumpIfFalsePop(m + 1));
    OneStays(d, d1, m, Jump(q));
  }

  lemma WhileStays(d: Draft, d1: Draft, e: Expr, names: seq<Text>, p: nat, q: nat, o: set<nat>, r: set<nat>)
    requires Stays(d, d1)
    ensures LaidWhile(d, e, names, p, q, o, r) ==> LaidWhile(d1, e, names, p, q, o, r)
    ensures LaidDoWhile(d, e, names, p, q, o, r) ==> LaidDoWhile(d1, e, names, p, q, o, r)
  {
    hide Stays, Has, HasAll, Asked, AllLead;
    if LaidWhile(d, e, names, p, q, o, r) {
      HasStays(d, d1, p, Asked(e, names));
      OneStays(d, d1, p + 1, JumpIfFalsePop(q));
      OneStays(d, d1, q - 1, Jump(p));
      LeadStays(d, d1, o, q);
      LeadStays(d, d1, r, p);
    }
    if LaidDoWhile(d, e, names, p, q, o, r) {
      HasStays(d, d1, q - 3, Asked(e, names));
      OneStays(d, d1, q - 2, JumpIfFalsePop(q));
      OneStays(d, d1, q - 1, Jump(p));
      LeadStays(d, d1, o, q);
      LeadStays(d, d1, r, q - 3);
    }
  }

  lemma HeadStays(d: Draft, d1: Draft, test: Option<Expr>, step: Option<Expr>, names: seq<Text>, p: nat, q: nat, o: set<nat>,
                  r: set<nat>)
    requires Stays(d, d1) && LaidHead(d, test, step, names, p, q, o, r)
    ensures LaidHead(d1, test, step, names, p, q, o, r)
  {
    hide Stays, Has, HasAll, Asked, AllLead, StepOps, StepAt, BodyAt, TurnAt;
    var x := StepAt(test, p);
    if test.Some? {
      HasStays(d, d1, p, Asked(test.value, names));
      OneStays(d, d1, p + 1, JumpIfFalsePop(q));
    }
    if step.Some? {
      OneStays(d, d1, x, Jump(x + 4));
      HasStays(d, d1, x + 1, StepOps(step, names));
      OneStays(d, d1, x + 3, Jump(p));
    }
    OneStays(d, d1, q - 1, Jump(TurnAt(test, step, p)));
    LeadStays(d, d1, o, q);
    LeadStays(d, d1, r, TurnAt(test, step, p));
  }

  lemma {:induction false} LaidStays(d: Draft, d1: Draft, s: Stmt, names: seq<Text>, p: nat, q: nat, outs: set<nat>,
                                     backs: set<nat>, outs1: set<nat>, backs1: set<nat>)
    requires Stays(d, d1) && Laid(d, s, names, p, q, outs, backs) && outs <= outs1 && backs <= backs1
    ensures Laid(d1, s, names, p, q, outs1, backs1)
    decreases s, 0
  {
    hide Stays, Asked, Declared, Has, HasAll, Silent, LaidIf, LaidWhile, LaidDoWhile, LaidFor, LaidAll;
    Longer(d, d1);
    match s
    case ExprStmt(e) => HasStays(d, d1, p, Asked(e, names) + [Consume]);
    case Block(ds) =>
      var m: nat :| LaidAll(d, ds, names, false, p, m, outs, backs) && Silent(d, m, q);
      LaidAllStays(d, d1, ds, names, false, p, m, outs, backs, outs1, backs1);
      SilentStays(d, d1, m, q);
    case If(e, t, f) =>
      var m: nat :| LaidIf(d, e, names, p, m, q) &&
                    Laid(d, t, names, p + 2, m, outs, backs) && Laid(d, f, names, m + 1, q, outs, backs);
      LaidStays(d, d1, t, names, p + 2, m, outs, backs, outs1, backs1);
      LaidStays(d, d1, f, names, m + 1, q, outs, backs, outs1, backs1);
      IfStays(d, d1, e, names, p, m, q);
    case While(e, b) =>
      var o, r :| LaidWhile(d, e, names, p, q, o, r) && Laid(d, b, names, p + 2, q - 1, o, r);
      LaidStays(d, d1, b, names, p + 2, q - 1, o, r, o, r);
      WhileStays(d, d1, e, names, p, q, o, r);
    case DoWhile(b, e) =>
      var o, r :| LaidDoWhile(d, e, names, p, q, o, r) && Laid(d, b, names, p, q - 3, o, r);
      LaidStays(d, d1, b, names, p, q - 3, o, r, o, r);
      WhileStays(d, d1, e, names, p, q, o, r);
    case For(init, test, step, b) =>
      var inner := names + Declared(init, false);
      var m: nat, n: nat :| LaidAll(d, init, names, false, p, m, outs, backs) && Silent(d, n, q) &&
                            LaidFor(d, test, step, b, inner, m, n);
      LaidAllStays(d, d1, init, names, false, p, m, outs, backs, outs1, backs1);
      LaidForStays(d, d1, test, step, b, inner, m, n);
      SilentStays(d, d1, n, q);
    case Break => SilentStays(d, d1, p, q - 1);
    case Continue => SilentStays(d, d1, p, q - 1);
    case ReturnStmt(e) => HasStays(d, d1, p, Asked(e, names) + [Return]);
  }

  lemma Longer(d: Draft, d1: Draft)
    requires Stays(d, d1)
    ensures |d.code| <= |d1.code|
  {
  }

  lemma ForParts(d: Draft, test: Option<Expr>, step: Option<Expr>, b: Stmt, names: seq<Text>, p: nat, q: nat)
    returns (o: set<nat>, r: set<nat>)
    requires LaidFor(d, test, step, b, names, p, q)
    ensures q > 0 && LaidHead(d, test, step, names, p, q, o, r) && Laid(d, b, names, BodyAt(test, step, p), q - 1, o, r)
  {
    hide Laid, HasAll, Asked, AllLead;
    o, r :| LaidHead(d, test, step, names, p, q, o, r) && Laid(d, b, names, BodyAt(test, step, p), q - 1, o, r);
  }

  lemma {:induction false} LaidForStays(d: Draft, d1: Draft, test: Option<Expr>, step: Option<Expr>, b: Stmt,
                                        names: seq<Text>, p: nat, q: nat)
    requires Stays(d, d1) && LaidFor(d, test, step, b, names, p, q)
    ensures LaidFor(d1, test, step, b, names, p, q)
    decreases b, 1
  {
    hide Stays, LaidHead, Laid, BodyAt;
    var o, r := ForParts(d, test, step, b, names, p, q);
    LaidStays(d, d1, b, names, BodyAt(test, step, p), q - 1, o, r, o, r);
    HeadStays(d, d1, test, step, names, p, q, o, r);
  }

  lemma {:induction false} LaidDeclStays(d: Draft, d1: Draft, decl: Decl, names: seq<Text>, top: bool, p: nat, q: nat,
                                         outs: set<nat>, backs: set<nat>, outs1: set<nat>, backs1: set<nat>)
    requires Stays(d, d1) && LaidDecl(d, decl, names, top, p, q, outs, backs) && outs <= outs1 && backs <= backs1
    ensures LaidDecl(d1, decl, names, top, p, q, outs1, backs1)
    decreases decl, 0
  {
    hide DeclOps, Laid, HasAll, Stays;
    Longer(d, d1);
    if decl.Statement? {
      LaidStays(d, d1, decl.s, names, p, q, outs, backs, outs1, backs1);
    } else {
      HasStays(d, d1, p, DeclOps(decl, names, top));
    }
  }

  lemma {:induction false} LaidAllStays(d: Draft, d1: Draft, ds: Decls, names: seq<Text>, top: bool, p: nat, q: nat,
                                        outs: set<nat>, backs: set<nat>, outs1: set<nat>, backs1: set<nat>)
    requires Stays(d, d1) && LaidAll(d, ds, names, top, p, q, outs, backs) && outs <= outs1 && backs <= backs1
    ensures LaidAll(d1, ds, names, top, p, q, outs1, backs1)
    decreases ds, 0
  {
    hide DeclOps, DeclaredBy, Laid, HasAll, Stays;
    Longer(d, d1);
    if ds.More? {
      var m: nat :| LaidDecl(d, ds.first, names, top, p, m, outs, backs) &&
                    LaidAll(d, ds.rest, names + DeclaredBy(ds.first, top), top, m, q, outs, backs);
      LaidDeclStays(d, d1, ds.first, names, top, p, m, outs, backs, outs1, backs1);
      LaidAllStays(d, d1, ds.rest, names + DeclaredBy(ds.first, top), top, m, q, outs, backs, outs1, backs1);
    }
  }

  // ---- The code does what the source asks for ----

  /** After k instructions from p on the run has done what the flow says, and is where it leads: behind the code, at the jump
      of a break or continue, stopped, or, when fuel ran out, still going after as many instructions. */
  predicate Reached(b: At, k: nat, done: seq<Op>, f: Flow, q: nat, outs: set<nat>, backs: set<nat>, fuel: nat) {
    b.done == done + f.ops && b.tests == f.tests &&
    match f.end
    case Normal => !b.stopped && b.pc == q
    case Broke => !b.stopped && b.pc in outs
    case Continued => !b.stopped && b.pc in backs
    case Returned => b.stopped
    case Endless => !b.stopped && k >= fuel
  }

  ghost predicate Does(d: Draft, holds: nat -> bool, p: nat, tests: nat, done: seq<Op>, f: Flow, q: nat, outs: set<nat>,
                       backs: set<nat>, fuel: nat) {
    exists k: nat :: Reached(GoOn(d.code, holds, At(p, tests, done, false), k), k, done, f, q, outs, backs, fuel)
  }

  /** First the code to m, with these values and tests, and then the rest. */
  lemma DoesThen(d: Draft, holds: nat -> bool, p: nat, tests: nat, done: seq<Op>, j: nat, m: nat, tests1: nat, ops: seq<Op>,
                 f: Flow, q: nat, outs: set<nat>, backs: set<nat>, less: nat, fuel: nat)
    requires GoOn(d.code, holds, At(p, tests, done, false), j) == At(m, tests1, done + ops, false)
    requires Does(d, holds, m, tests1, done + ops, f, q, outs, backs, less) && fuel <= less + j
    ensures Does(d, holds, p, tests, done, After(ops, f), q, outs, backs, fuel)
  {
    hide GoOn;
    var k: nat :| Reached(GoOn(d.code, holds, At(m, tests1, done + ops, false), k), k, done + ops, f, q, outs, backs, less);
    GoTwice(d.code, holds, At(p, tests, done, false), j, k);
    assert done + ops + f.ops == done + (ops + f.ops);
    assert Reached(GoOn(d.code, holds, At(p, tests, done, false), j + k), j + k, done, After(ops, f), q, outs, backs, fuel);
  }

  /** A flow that goes on behind the code goes on there. */
  lemma DoesMore(d: Draft, holds: nat -> bool, p: nat, tests: nat, done: seq<Op>, f: Flow, m: nat, outs: set<nat>,
                 backs: set<nat>, g: Flow, q: nat, fuel: nat)
    requires Does(d, holds, p, tests, done, f, m, outs, backs, fuel)
    requires f.end.Normal? ==> Does(d, holds, m, f.tests, done + f.ops, g, q, outs, backs, fuel)
    ensures Does(d, holds, p, tests, done, if f.end.Normal? then After(f.ops, g) else f, q, outs, backs, fuel)
  {
    hide GoOn;
    var k: nat :| Reached(GoOn(d.code, holds, At(p, tests, done, false), k), k, done, f, m, outs, backs, fuel);
    if f.end.Normal? {
      assert GoOn(d.code, holds, At(p, tests, done, false), k) == At(m, f.tests, done + f.ops, false);
      DoesThen(d, holds, p, tests, done, k, m, f.tests, f.ops, g, q, outs, backs, fuel, fuel);
    } else {
      assert Reached(GoOn(d.code, holds, At(p, tests, done, false), k), k, done, f, q, outs, backs, fuel);
    }
  }

  /** Values that follow one another. */
  lemma {:induction false} OpsGo(d: Draft, holds: nat -> bool, p: nat, tests: nat, done: seq<Op>, ops: seq<Op>)
    requires HasAll(d, p, ops) && forall i :: 0 <= i < |ops| ==> ops[i].Closure? || ops[i].Consume?
    ensures GoOn(d.code, holds, At(p, tests, done, false), |ops|) == At(p + |ops|, tests, done + ops, false)
    decreases |ops|
  {
    if ops == [] {
      assert done + ops == done;
    } else {
      var n := |ops| - 1;
      forall i | 0 <= i < n ensures Has(d, p + i, ops[..n][i]) { assert Has(d, p + i, ops[i]); }
      OpsGo(d, holds, p, tests, done, ops[..n]);
      assert Has(d, p + n, ops[n]);
      assert done + ops == done + ops[..n] + [ops[n]];
    }
  }

  lemma {:induction false} SilentGo(d: Draft, holds: nat -> bool, p: nat, q: nat, tests: nat, done: seq<Op>)
    requires Silent(d, p, q)
    ensures GoOn(d.code, holds, At(p, tests, done, false), q - p) == At(q, tests, done, false)
    decreases q - p
  {
    if p < q {
      SilentGo(d, holds, p, q - 1, tests, done);
    }
  }

  lemma OpsDo(d: Draft, holds: nat -> bool, p: nat, tests: nat, done: seq<Op>, ops: seq<Op>, outs: set<nat>, backs: set<nat>,
              fuel: nat)
    requires HasAll(d, p, ops) && forall i :: 0 <= i < |ops| ==> ops[i].Closure? || ops[i].Consume?
    ensures Does(d, holds, p, tests, done, Flow(Normal, ops, tests), p + |ops|, outs, backs, fuel)
  {
    hide GoOn, HasAll;
    OpsGo(d, holds, p, tests, done, ops);
    assert Reached(GoOn(d.code, holds, At(p, tests, done, false), |ops|), |ops|, done, Flow(Normal, ops, tests), p + |ops|,
                   outs, backs, fuel);
  }

  lemma SilentDoes(d: Draft, holds: nat -> bool, p: nat, q: nat, tests: nat, done: seq<Op>, outs: set<nat>, backs: set<nat>,
                   fuel: nat)
    requires Silent(d, p, q)
    ensures Does(d, holds, p, tests, done, Flow(Normal, [], tests), q, outs, backs, fuel)
  {
    hide GoOn, Silent;
    SilentGo(d, holds, p, q, tests, done);
    SilentSize(d, p, q);
    assert done + [] == done;
    assert Reached(GoOn(d.code, holds, At(p, tests, done, false), q - p), q - p, done, Flow(Normal, [], tests), q, outs,
                   backs, fuel);
  }

  lemma SilentSize(d: Draft, p: nat, q: nat)
    requires Silent(d, p, q)
    ensures p <= q
  {
  }

  /** A condition and its jump. */
  lemma TestGoes(d: Draft, holds: nat -> bool, p: nat, tests: nat, done: seq<Op>, e: Expr, names: seq<Text>, t: nat)
    requires HasAll(d, p, Asked(e, names)) && Has(d, p + 1, JumpIfFalsePop(t))
    ensures GoOn(d.code, holds, At(p, tests, done, false), 2) ==
            At(if holds(tests) then p + 2 else t, tests + 1, done + Asked(e, names), false)
  {
    hide SlotsUsed;
    OpsGo(d, holds, p, tests, done, Asked(e, names));
  }

  lemma JumpGoes(d: Draft, holds: nat -> bool, p: nat, tests: nat, done: seq<Op>, t: nat)
    requires Has(d, p, Jump(t))
    ensures GoOn(d.code, holds, At(p, tests, done, false), 1) == At(t, tests, done, false)
  {
    assert GoOn(d.code, holds, At(p, tests, done, false), 0) == At(p, tests, done, false);
  }

  lemma ReturnDoes(d: Draft, holds: nat -> bool, p: nat, tests: nat, done: seq<Op>, e: Expr, names: seq<Text>, q: nat,
                   outs: set<nat>, backs: set<nat>, fuel: nat)
    requires HasAll(d, p, Asked(e, names) + [Return])
    ensures Does(d, holds, p, tests, done, Flow(Returned, Asked(e, names) + [Return], tests), q, outs, backs, fuel)
  {
    hide SlotsUsed;
    var ops := Asked(e, names) + [Return];
    assert Has(d, p + 0, ops[0]) && Has(d, p + 1, ops[1]);
    OpsGo(d, holds, p, tests, done, Asked(e, names));
    assert done + Asked(e, names) + [Return] == done + ops;
    assert Reached(GoOn(d.code, holds, At(p, tests, done, false), 2), 2, done, Flow(Returned, ops, tests), q, outs, backs,
                   fuel);
  }

  lemma EndlessDoes(d: Draft, holds: nat -> bool, p: nat, tests: nat, done: seq<Op>, q: nat, outs: set<nat>, backs: set<nat>)
    ensures Does(d, holds, p, tests, done, Flow(Endless, [], tests), q, outs, backs, 0)
  {
    assert done + [] == done;
    assert Reached(GoOn(d.code, holds, At(p, tests, done, false), 0), 0, done, Flow(Endless, [], tests), q, outs, backs, 0);
  }

  /** A flow that is at its end. */
  lemma GoneDoes(d: Draft, holds: nat -> bool, p: nat, tests: nat, done: seq<Op>, k: nat, tests1: nat, ops: seq<Op>, q: nat,
                 outs: set<nat>, backs: set<nat>, fuel: nat)
    requires GoOn(d.code, holds, At(p, tests, done, false), k) == At(q, tests1, done + ops, false)
    ensures Does(d, holds, p, tests, done, Flow(Normal, ops, tests1), q, outs, backs, fuel)
  {
    assert Reached(GoOn(d.code, holds, At(p, tests, done, false), k), k, done, Flow(Normal, ops, tests1), q, outs, backs,
                   fuel);
  }

  /** The body of a loop, from a to the jump at m: what goes on or continues comes to t, and break leads to q. */
  lemma TurnDoes(d: Draft, holds: nat -> bool, a: nat, tests: nat, done: seq<Op>, f: Flow, m: nat, o: set<nat>, r: set<nat>,
                 t: nat, g: Flow, q: nat, outs: set<nat>, backs: set<nat>, fuel: nat)
    requires Does(d, holds, a, tests, done, f, m, o, r, fuel) && fuel > 0
    requires Has(d, m, Jump(t)) && AllLead(d, o, q) && AllLead(d, r, t)
    requires GoesOn(f) ==> Does(d, holds, t, f.tests, done + f.ops, g, q, outs, backs, fuel - 1)
    ensures Does(d, holds, a, tests, done, if GoesOn(f) then After(f.ops, g) else Left(f), q, outs, backs, fuel)
  {
    hide GoOn, Has;
    var start := At(a, tests, done, false);
    var k: nat :| Reached(GoOn(d.code, holds, start, k), k, done, f, m, o, r, fuel);
    var b := GoOn(d.code, holds, start, k);
    if GoesOn(f) || f.end.Broke? {
      var u := if f.end.Broke? then q else t;
      assert Has(d, b.pc, Jump(u));
      JumpGoes(d, holds, b.pc, b.tests, b.done, u);
      GoTwice(d.code, holds, start, k, 1);
      assert GoOn(d.code, holds, start, k + 1) == At(u, f.tests, done + f.ops, false);
      if GoesOn(f) {
        DoesThen(d, holds, a, tests, done, k + 1, t, f.tests, f.ops, g, q, outs, backs, fuel - 1, fuel);
      } else {
        GoneDoes(d, holds, a, tests, done, k + 1, f.tests, f.ops, q, outs, backs, fuel);
      }
    } else {
      assert Reached(b, k, done, f, q, outs, backs, fuel);
    }
  }

  /** The same where the body ends before t. */
  lemma FallDoes(d: Draft, holds: nat -> bool, a: nat, tests: nat, done: seq<Op>, f: Flow, t: nat, o: set<nat>, r: set<nat>,
                 g: Flow, q: nat, outs: set<nat>, backs: set<nat>, fuel: nat)
    requires Does(d, holds, a, tests, done, f, t, o, r, fuel) && AllLead(d, o, q) && AllLead(d, r, t)
    requires GoesOn(f) ==> Does(d, holds, t, f.tests, done + f.ops, g, q, outs, backs, fuel)
    ensures Does(d, holds, a, tests, done, if GoesOn(f) then After(f.ops, g) else Left(f), q, outs, backs, fuel)
  {
    hide GoOn, Has;
    var start := At(a, tests, done, false);
    var k: nat :| Reached(GoOn(d.code, holds, start, k), k, done, f, t, o, r, fuel);
    var b := GoOn(d.code, holds, start, k);
    if f.end.Normal? {
      DoesThen(d, holds, a, tests, done, k, t, f.tests, f.ops, g, q, outs, backs, fuel, fuel);
    } else if f.end.Continued? || f.end.Broke? {
      var u := if f.end.Broke? then q else t;
      assert Has(d, b.pc, Jump(u));
      JumpGoes(d, holds, b.pc, b.tests, b.done, u);
      GoTwice(d.code, holds, start, k, 1);
      assert GoOn(d.code, holds, start, k + 1) == At(u, f.tests, done + f.ops, false);
      if GoesOn(f) {
        DoesThen(d, holds, a, tests, done, k + 1, t, f.tests, f.ops, g, q, outs, backs, fuel, fuel);
      } else {
        GoneDoes(d, holds, a, tests, done, k + 1, f.tests, f.ops, q, outs, backs, fuel);
      }
    } else {
      assert Reached(b, k, done, f, q, outs, backs, fuel);
    }
  }

  /** Code laid out for a statement computes what the statement asks for, however its conditions turn out, and goes where the
      statement leads. */
  lemma {:induction false} StmtDoes(d: Draft, s: Stmt, names: seq<Text>, p: nat, q: nat, outs: set<nat>, backs: set<nat>,
                                    holds: nat -> bool, tests: nat, done: seq<Op>, fuel: nat)
    requires Laid(d, s, names, p, q, outs, backs)
    ensures Does(d, holds, p, tests, done, FlowOf(s, names, holds, tests, fuel), q, outs, backs, fuel)
    decreases fuel, s, 2
  {
    hide Does, HasAll, Has, Silent, LaidIf, LaidWhile, LaidDoWhile, LaidFor, LaidAll, SlotsUsed;
    match s
    case ExprStmt(e) => OpsDo(d, holds, p, tests, done, Asked(e, names) + [Consume], outs, backs, fuel);
    case Block(ds) =>
      var m: nat :| LaidAll(d, ds, names, false, p, m, outs, backs) && Silent(d, m, q);
      AllDoes(d, ds, names, false, p, m, outs, backs, holds, tests, done, fuel);
      ThenSilent(d, holds, p, tests, done, FlowOfAll(ds, names, false, holds, tests, fuel), m, outs, backs, q, fuel);
    case If(e, t, f) =>
      var m: nat :| LaidIf(d, e, names, p, m, q) &&
                    Laid(d, t, names, p + 2, m, outs, backs) && Laid(d, f, names, m + 1, q, outs, backs);
      IfDoes(d, s, names, p, m, q, outs, backs, holds, tests, done, fuel);
    case While(e, b) =>
      var o, r :| LaidWhile(d, e, names, p, q, o, r) && Laid(d, b, names, p + 2, q - 1, o, r);
      WhileDoes(d, s, names, p, q, o, r, outs, backs, holds, tests, done, fuel);
    case DoWhile(b, e) =>
      var o, r :| LaidDoWhile(d, e, names, p, q, o, r) && Laid(d, b, names, p, q - 3, o, r);
      DoWhileDoes(d, s, names, p, q, o, r, outs, backs, holds, tests, done, fuel);
    case For(init, test, step, b) =>
      var inner := names + Declared(init, false);
      var m: nat, n: nat :| LaidAll(d, init, names, false, p, m, outs, backs) && Silent(d, n, q) &&
                            LaidFor(d, test, step, b, inner, m, n);
      AllDoes(d, init, names, false, p, m, outs, backs, holds, tests, done, fuel);
      var f := FlowOfAll(init, names, false, holds, tests, fuel);
      var g := FlowOfFor(test, step, b, inner, holds, f.tests, fuel);
      if f.end.Normal? { ForDoes(d, test, step, b, inner, m, n, outs, backs, holds, f.tests, done + f.ops, fuel); }
      DoesMore(d, holds, p, tests, done, f, m, outs, backs, g, n, fuel);
      ThenSilent(d, holds, p, tests, done, if f.end.Normal? then After(f.ops, g) else f, n, outs, backs, q, fuel);
    case Break => LeaveDoes(d, holds, p, q, tests, done, true, outs, backs, fuel);
    case Continue => LeaveDoes(d, holds, p, q, tests, done, false, outs, backs, fuel);
    case ReturnStmt(e) => ReturnDoes(d, holds, p, tests, done, e, names, q, outs, backs, fuel);
  }

  lemma LeaveDoes(d: Draft, holds: nat -> bool, p: nat, q: nat, tests: nat, done: seq<Op>, breaks: bool, outs: set<nat>,
                  backs: set<nat>, fuel: nat)
    requires p < q && Silent(d, p, q - 1) && q - 1 in if breaks then outs else backs
    ensures Does(d, holds, p, tests, done, Flow(if breaks then Broke else Continued, [], tests), q, outs, backs, fuel)
  {
    hide GoOn, Silent;
    SilentGo(d, holds, p, q - 1, tests, done);
    assert done + [] == done;
    assert Reached(GoOn(d.code, holds, At(p, tests, done, false), q - 1 - p), q - 1 - p, done,
                   Flow(if breaks then Broke else Continued, [], tests), q, outs, backs, fuel);
  }

  lemma ThenSilent(d: Draft, holds: nat -> bool, p: nat, tests: nat, done: seq<Op>, f: Flow, m: nat, outs: set<nat>,
                   backs: set<nat>, q: nat, fuel: nat)
    requires Does(d, holds, p, tests, done, f, m, outs, backs, fuel) && Silent(d, m, q)
    ensures Does(d, holds, p, tests, done, f, q, outs, backs, fuel)
  {
    hide Does, Silent;
    SilentDoes(d, holds, m, q, f.tests, done + f.ops, outs, backs, fuel);
    DoesMore(d, holds, p, tests, done, f, m, outs, backs, Flow(Normal, [], f.tests), q, fuel);
    assert f.ops + [] == f.ops;
  }

  lemma {:induction false} IfDoes(d: Draft, s: Stmt, names: seq<Text>, p: nat, m: nat, q: nat, outs: set<nat>,
                                  backs: set<nat>, holds: nat -> bool, tests: nat, done: seq<Op>, fuel: nat)
    requires s.If? && LaidIf(d, s.cond, names, p, m, q)
    requires Laid(d, s.thn, names, p + 2, m, outs, backs) && Laid(d, s.els, names, m + 1, q, outs, backs)
    ensures Does(d, holds, p, tests, done, FlowOf(s, names, holds, tests, fuel), q, outs, backs, fuel)
    decreases fuel, s, 1
  {
    hide Does, HasAll, Has, Laid, Asked, GoOn;
    var ops := Asked(s.cond, names);
    TestGoes(d, holds, p, tests, done, s.cond, names, m + 1);
    if holds(tests) {
      var f := FlowOf(s.thn, names, holds, tests + 1, fuel);
      StmtDoes(d, s.thn, names, p + 2, m, outs, backs, holds, tests + 1, done + ops, fuel);
      JumpGoes(d, holds, m, f.tests, done + ops + f.ops, q);
      assert done + ops + f.ops + [] == done + ops + f.ops && f.ops + [] == f.ops;
      GoneDoes(d, holds, m, f.tests, done + ops + f.ops, 1, f.tests, [], q, outs, backs, fuel);
      DoesMore(d, holds, p + 2, tests + 1, done + ops, f, m, outs, backs, Flow(Normal, [], f.tests), q, fuel);
      DoesThen(d, holds, p, tests, done, 2, p + 2, tests + 1, ops, f, q, outs, backs, fuel, fuel);
    } else {
      var f := FlowOf(s.els, names, holds, tests + 1, fuel);
      StmtDoes(d, s.els, names, m + 1, q, outs, backs, holds, tests + 1, done + ops, fuel);
      DoesThen(d, holds, p, tests, done, 2, m + 1, tests + 1, ops, f, q, outs, backs, fuel, fuel);
    }
  }

  lemma {:induction false} WhileDoes(d: Draft, s: Stmt, names: seq<Text>, p: nat, q: nat, o: set<nat>, r: set<nat>,
                                     outs: set<nat>, backs: set<nat>, holds: nat -> bool, tests: nat, done: seq<Op>,
                                     fuel: nat)
    requires s.While? && LaidWhile(d, s.cond, names, p, q, o, r) && Laid(d, s.body, names, p + 2, q - 1, o, r)
    ensures Does(d, holds, p, tests, done, FlowOf(s, names, holds, tests, fuel), q, outs, backs, fuel)
    decreases fuel, s, 1
  {
    hide Does, HasAll, Has, Laid, Asked, GoOn, AllLead;
    var ops := Asked(s.cond, names);
    if fuel == 0 {
      EndlessDoes(d, holds, p, tests, done, q, outs, backs);
    } else {
      TestGoes(d, holds, p, tests, done, s.cond, names, q);
      if !holds(tests) {
        GoneDoes(d, holds, p, tests, done, 2, tests + 1, ops, q, outs, backs, fuel);
      } else {
        var f := FlowOf(s.body, names, holds, tests + 1, fuel);
        var g := FlowOf(s, names, holds, f.tests, fuel - 1);
        StmtDoes(d, s.body, names, p + 2, q - 1, o, r, holds, tests + 1, done + ops, fuel);
        if GoesOn(f) { WhileDoes(d, s, names, p, q, o, r, outs, backs, holds, f.tests, done + ops + f.ops, fuel - 1); }
        TurnDoes(d, holds, p + 2, tests + 1, done + ops, f, q - 1, o, r, p, g, q, outs, backs, fuel);
        var h := if GoesOn(f) then After(f.ops, g) else Left(f);
        DoesThen(d, holds, p, tests, done, 2, p + 2, tests + 1, ops, h, q, outs, backs, fuel, fuel);
        assert ops + (f.ops + g.ops) == ops + f.ops + g.ops;
      }
    }
  }

  lemma {:induction false} DoWhileDoes(d: Draft, s: Stmt, names: seq<Text>, p: nat, q: nat, o: set<nat>, r: set<nat>,
                                       outs: set<nat>, backs: set<nat>, holds: nat -> bool, tests: nat, done: seq<Op>,
                                       fuel: nat)
    requires s.DoWhile? && LaidDoWhile(d, s.cond, names, p, q, o, r) && Laid(d, s.body, names, p, q - 3, o, r)
    ensures Does(d, holds, p, tests, done, FlowOf(s, names, holds, tests, fuel), q, outs, backs, fuel)
    decreases fuel, s, 1
  {
    hide Does, HasAll, Has, Laid, Asked, GoOn, AllLead;
    var ops := Asked(s.cond, names);
    if fuel == 0 {
      EndlessDoes(d, holds, p, tests, done, q, outs, backs);
    } else {
      var f := FlowOf(s.body, names, holds, tests, fuel);
      StmtDoes(d, s.body, names, p, q - 3, o, r, holds, tests, done, fuel);
      var g := if holds(f.tests) then After(ops, FlowOf(s, names, holds, f.tests + 1, fuel - 1))
               else Flow(Normal, ops, f.tests + 1);
      if GoesOn(f) {
        TestGoes(d, holds, q - 3, f.tests, done + f.ops, s.cond, names, q);
        if holds(f.tests) {
          JumpGoes(d, holds, q - 1, f.tests + 1, done + f.ops + ops, p);
          GoTwice(d.code, holds, At(q - 3, f.tests, done + f.ops, false), 2, 1);
          WhileAgain(d, s, names, p, q, o, r, outs, backs, holds, f.tests + 1, done + f.ops + ops, fuel - 1);
          DoesThen(d, holds, q - 3, f.tests, done + f.ops, 3, p, f.tests + 1, ops,
                   FlowOf(s, names, holds, f.tests + 1, fuel - 1), q, outs, backs, fuel - 1, fuel);
        } else {
          GoneDoes(d, holds, q - 3, f.tests, done + f.ops, 2, f.tests + 1, ops, q, outs, backs, fuel);
        }
      }
      FallDoes(d, holds, p, tests, done, f, q - 3, o, r, g, q, outs, backs, fuel);
      assert f.ops + (ops + FlowOf(s, names, holds, f.tests + 1, fuel - 1).ops) ==
             f.ops + ops + FlowOf(s, names, holds, f.tests + 1, fuel - 1).ops;
    }
  }

  lemma {:induction false} WhileAgain(d: Draft, s: Stmt, names: seq<Text>, p: nat, q: nat, o: set<nat>, r: set<nat>,
                                      outs: set<nat>, backs: set<nat>, holds: nat -> bool, tests: nat, done: seq<Op>,
                                      fuel: nat)
    requires s.DoWhile? && LaidDoWhile(d, s.cond, names, p, q, o, r) && Laid(d, s.body, names, p, q - 3, o, r)
    ensures Does(d, holds, p, tests, done, FlowOf(s, names, holds, tests, fuel), q, outs, backs, fuel)
    decreases fuel, s, 2
  {
    DoWhileDoes(d, s, names, p, q, o, r, outs, backs, holds, tests, done, fuel);
  }

  lemma {:induction false} ForDoes(d: Draft, test: Option<Expr>, step: Option<Expr>, b: Stmt, names: seq<Text>, p: nat,
                                   q: nat, outs: set<nat>, backs: set<nat>, holds: nat -> bool, tests: nat, done: seq<Op>,
                                   fuel: nat)
    requires LaidFor(d, test, step, b, names, p, q)
    ensures Does(d, holds, p, tests, done, FlowOfFor(test, step, b, names, holds, tests, fuel), q, outs, backs, fuel)
    decreases fuel, b, 4
  {
    hide Does, HasAll, Has, Laid, Asked, GoOn, AllLead, LaidHead, BodyAt, TurnAt, StepOps, TestOps, FlowOf;
    var o, r := ForParts(d, test, step, b, names, p, q);
    if fuel == 0 {
      EndlessDoes(d, holds, p, tests, done, q, outs, backs);
    } else {
      var k := HeadGoes(d, test, step, names, p, q, o, r, holds, tests, done);
      var ops := TestOps(test, names);
      TestIs(test, names);
      if test.Some? && !holds(tests) {
        GoneDoes(d, holds, p, tests, done, k, tests + 1, ops, q, outs, backs, fuel);
      } else {
        var c := if test.Some? then tests + 1 else tests;
        var f := FlowOf(b, names, holds, c, fuel);
        var g := FlowOfFor(test, step, b, names, holds, f.tests, fuel - 1);
        ForTurn(d, test, step, b, names, p, q, o, r, outs, backs, holds, c, done + ops, fuel);
        var h := if GoesOn(f) then After(f.ops, After(StepOps(step, names), g)) else Left(f);
        DoesThen(d, holds, p, tests, done, k, BodyAt(test, step, p), c, ops, h, q, outs, backs, fuel, fuel);
        assert ops + (f.ops + (StepOps(step, names) + g.ops)) == ops + f.ops + StepOps(step, names) + g.ops;
      }
    }
  }

  lemma TestIs(test: Option<Expr>, names: seq<Text>)
    ensures test.Some? ==> TestOps(test, names) == Asked(test.value, names)
  {
  }

  /** From the body of a for loop on. */
  lemma {:induction false} ForTurn(d: Draft, test: Option<Expr>, step: Option<Expr>, b: Stmt, names: seq<Text>, p: nat,
                                   q: nat, o: set<nat>, r: set<nat>, outs: set<nat>, backs: set<nat>, holds: nat -> bool,
                                   tests: nat, done: seq<Op>, fuel: nat)
    requires LaidFor(d, test, step, b, names, p, q) && LaidHead(d, test, step, names, p, q, o, r)
    requires fuel > 0 && q > 0 && Laid(d, b, names, BodyAt(test, step, p), q - 1, o, r)
    ensures var f := FlowOf(b, names, holds, tests, fuel);
            var g := After(StepOps(step, names), FlowOfFor(test, step, b, names, holds, f.tests, fuel - 1));
            Does(d, holds, BodyAt(test, step, p), tests, done, if GoesOn(f) then After(f.ops, g) else Left(f), q, outs, backs,
                 fuel)
    decreases fuel, b, 3
  {
    hide Does, HasAll, Has, Laid, LaidFor, Asked, GoOn, AllLead, LaidHead, BodyAt, TurnAt, StepOps, TestOps, FlowOf,
         FlowOfFor;
    var f := FlowOf(b, names, holds, tests, fuel);
    var g := FlowOfFor(test, step, b, names, holds, f.tests, fuel - 1);
    StmtDoes(d, b, names, BodyAt(test, step, p), q - 1, o, r, holds, tests, done, fuel);
    if GoesOn(f) {
      ForDoes(d, test, step, b, names, p, q, outs, backs, holds, f.tests, done + f.ops + StepOps(step, names), fuel - 1);
      StepGoes(d, test, step, names, p, q, o, r, holds, f.tests, done + f.ops, g, outs, backs, fuel - 1);
    }
    HeadLeads(d, test, step, names, p, q, o, r);
    TurnDoes(d, holds, BodyAt(test, step, p), tests, done, f, q - 1, o, r, TurnAt(test, step, p),
             After(StepOps(step, names), g), q, outs, backs, fuel);
  }

  lemma HeadLeads(d: Draft, test: Option<Expr>, step: Option<Expr>, names: seq<Text>, p: nat, q: nat, o: set<nat>, r: set<nat>)
    requires LaidHead(d, test, step, names, p, q, o, r)
    ensures q > 0 && Has(d, q - 1, Jump(TurnAt(test, step, p))) && AllLead(d, o, q) && AllLead(d, r, TurnAt(test, step, p))
  {
  }

  /** From the start of a for loop to its body or behind it. */
  lemma HeadGoes(d: Draft, test: Option<Expr>, step: Option<Expr>, names: seq<Text>, p: nat, q: nat, o: set<nat>, r: set<nat>,
                 holds: nat -> bool, tests: nat, done: seq<Op>) returns (k: nat)
    requires LaidHead(d, test, step, names, p, q, o, r)
    ensures GoOn(d.code, holds, At(p, tests, done, false), k) ==
            At(if test.Some? && !holds(tests) then q else BodyAt(test, step, p),
               if test.Some? then tests + 1 else tests, done + TestOps(test, names), false)
  {
    hide GoOn, HasAll, Has, Asked, AllLead, StepOps;
    k := 0;
    var start := At(p, tests, done, false);
    GoNone(d.code, holds, start);
    assert done + [] == done;
    if test.Some? {
      TestGoes(d, holds, p, tests, done, test.value, names, q);
      k := 2;
      if !holds(tests) { return; }
    }
    if step.Some? {
      var b := GoOn(d.code, holds, start, k);
      JumpGoes(d, holds, b.pc, b.tests, b.done, b.pc + 4);
      GoTwice(d.code, holds, start, k, 1);
      k := k + 1;
    }
  }

  lemma GoNone(code: seq<Op>, holds: nat -> bool, a: At)
    ensures GoOn(code, holds, a, 0) == a
  {
  }

  /** From the end of a turn through the increment to the start. */
  lemma StepGoes(d: Draft, test: Option<Expr>, step: Option<Expr>, names: seq<Text>, p: nat, q: nat, o: set<nat>, r: set<nat>,
                 holds: nat -> bool, tests: nat, done: seq<Op>, g: Flow, outs: set<nat>, backs: set<nat>, fuel: nat)
    requires LaidHead(d, test, step, names, p, q, o, r)
    requires Does(d, holds, p, tests, done + StepOps(step, names), g, q, outs, backs, fuel)
    ensures Does(d, holds, TurnAt(test, step, p), tests, done, After(StepOps(step, names), g), q, outs, backs, fuel)
  {
    hide GoOn, HasAll, Has, Does, AllLead, SlotsUsed;
    var t := TurnAt(test, step, p);
    var start := At(t, tests, done, false);
    if step.Some? {
      var ops := StepOps(step, names);
      OpsGo(d, holds, t, tests, done, ops);
      JumpGoes(d, holds, t + 2, tests, done + ops, p);
      GoTwice(d.code, holds, start, 2, 1);
      DoesThen(d, holds, t, tests, done, 3, p, tests, ops, g, q, outs, backs, fuel, fuel);
    } else {
      assert done + [] == done && [] + g.ops == g.ops;
    }
  }

  lemma {:induction false} AllDoes(d: Draft, ds: Decls, names: seq<Text>, top: bool, p: nat, q: nat, outs: set<nat>,
                                   backs: set<nat>, holds: nat -> bool, tests: nat, done: seq<Op>, fuel: nat)
    requires LaidAll(d, ds, names, top, p, q, outs, backs)
    ensures Does(d, holds, p, tests, done, FlowOfAll(ds, names, top, holds, tests, fuel), q, outs, backs, fuel)
    decreases fuel, ds, 1
  {
    hide Does, HasAll, Laid, GoOn, DeclOps, DeclaredBy;
    if ds.Done? {
      GoNone(d.code, holds, At(p, tests, done, false));
      assert done + [] == done;
      GoneDoes(d, holds, p, tests, done, 0, tests, [], q, outs, backs, fuel);
    } else {
      var m: nat :| LaidDecl(d, ds.first, names, top, p, m, outs, backs) &&
                    LaidAll(d, ds.rest, names + DeclaredBy(ds.first, top), top, m, q, outs, backs);
      var f := FlowOfDecl(ds.first, names, top, holds, tests, fuel);
      if ds.first.Statement? {
        StmtDoes(d, ds.first.s, names, p, m, outs, backs, holds, tests, done, fuel);
      } else {
        DeclPlain(ds.first, names, top);
        OpsDo(d, holds, p, tests, done, DeclOps(ds.first, names, top), outs, backs, fuel);
      }
      var inner := names + DeclaredBy(ds.first, top);
      if f.end.Normal? { AllDoes(d, ds.rest, inner, top, m, q, outs, backs, holds, f.tests, done + f.ops, fuel); }
      DoesMore(d, holds, p, tests, done, f, m, outs, backs, FlowOfAll(ds.rest, inner, top, holds, f.tests, fuel), q, fuel);
    }
  }

  lemma DeclPlain(decl: Decl, names: seq<Text>, top: bool)
    requires !decl.Statement?
    ensures forall i :: 0 <= i < |DeclOps(decl, names, top)| ==>
              DeclOps(decl, names, top)[i].Closure? || DeclOps(decl, names, top)[i].Consume?
  {
    hide SlotsUsed;
  }

  // ---- Runs ----

  predicate Computes(op: Op) {
    op.Closure? || op.Consume? || op.Return?
  }

  /** The values computed in the first k steps of a run. */
  function Executed(code: seq<Op>, s: State, choice: nat -> bool, k: nat): seq<Op> {
    if k == 0 then []
    else
      var r := Run(code, s, choice, k - 1);
      Executed(code, s, choice, k - 1) +
      if r.Running? && r.pc < |code| && Computes(code[r.pc]) then [code[r.pc]] else []
  }

  /** Which of the conditional jumps of a run are taken, step by step, when its conditions turn out as `holds` says. */
  function Choices(code: seq<Op>, holds: nat -> bool): nat -> bool {
    (k: nat) => !holds(GoOn(code, holds, At(0, 0, [], false), k).tests)
  }

  /** Both are at the same place, having computed the same. */
  predicate Along(s: State, executed: seq<Op>, a: At) {
    a.done == executed && if a.stopped then s.Finished? else s.Running? && s.pc == a.pc
  }

  lemma {:induction false} RunsAlong(code: seq<Op>, n: Note, holds: nat -> bool, k: nat)
    requires Safe(code, n)
    ensures Along(Run(code, Running(0, n), Choices(code, holds), k), Executed(code, Running(0, n), Choices(code, holds), k),
                  GoOn(code, holds, At(0, 0, [], false), k))
  {
    hide Allowed, Behind;
    if k > 0 {
      var choice := Choices(code, holds);
      RunsAlong(code, n, holds, k - 1);
      assert !Run(code, Running(0, n), choice, k).Unsafe?;
      assert !Run(code, Running(0, n), choice, k - 1).Unsafe?;
    }
  }

  /** However its conditions turn out, the code computes what the source asks for, in that order, and no more; it returns
      exactly when the source ends, and is still running when the source has run out of fuel. */
  ghost predicate Follows(code: seq<Op>, n: Note, ds: Decls, names: seq<Text>, top: bool, holds: nat -> bool, fuel: nat) {
    var f := FlowOfAll(ds, names, top, holds, 0, fuel);
    var choice := Choices(code, holds);
    !f.end.Broke? && !f.end.Continued? && exists k: nat ::
      && Executed(code, Running(0, n), choice, k) == f.ops + (if f.end.Normal? then [Closure([]), Return] else [])
      && if f.end.Endless? then k >= fuel && Run(code, Running(0, n), choice, k).Running?
         else Run(code, Running(0, n), choice, k).Finished?
  }

  /** Whatever its conditions hold. */
  ghost predicate AlwaysFollows(code: seq<Op>, n: Note, ds: Decls, names: seq<Text>, top: bool) {
    forall holds: nat -> bool, fuel: nat :: Follows(code, n, ds, names, top, holds, fuel)
  }

  lemma LaidAlways(d: Draft, code: seq<Op>, n: Note, ds: Decls, names: seq<Text>, top: bool)
    requires LaidAll(d, ds, names, top, 0, |d.code|, {}, {}) && code == d.code + [Closure([]), Return] && Safe(code, n)
    ensures AlwaysFollows(code, n, ds, names, top)
  {
    hide LaidAll, Safe, Follows;
    forall holds: nat -> bool, fuel: nat ensures Follows(code, n, ds, names, top, holds, fuel) {
      LaidFollows(d, code, n, ds, names, top, holds, fuel);
    }
  }

  lemma LaidFollows(d: Draft, code: seq<Op>, n: Note, ds: Decls, names: seq<Text>, top: bool, holds: nat -> bool, fuel: nat)
    requires LaidAll(d, ds, names, top, 0, |d.code|, {}, {}) && code == d.code + [Closure([]), Return] && Safe(code, n)
    ensures Follows(code, n, ds, names, top, holds, fuel)
  {
    hide Run, Executed, GoOn, LaidAll, Safe, FlowOfAll;
    var d1 := d.(code := code);
    LaidAllStays(d, d1, ds, names, top, 0, |d.code|, {}, {}, {}, {});
    AllDoes(d1, ds, names, top, 0, |d.code|, {}, {}, holds, 0, [], fuel);
    var f, start := FlowOfAll(ds, names, top, holds, 0, fuel), At(0, 0, [], false);
    var k: nat :| Reached(GoOn(code, holds, start, k), k, [], f, |d.code|, {}, {}, fuel);
    RunsAlong(code, n, holds, k);
    assert [] + f.ops == f.ops && f.ops + [] == f.ops;
    if f.end.Normal? {
      EndGoes(code, holds, GoOn(code, holds, start, k));
      GoTwice(code, holds, start, k, 2);
      RunsAlong(code, n, holds, k + 2);
    }
  }

  /** The return that ends every function. */
  lemma EndGoes(code: seq<Op>, holds: nat -> bool, a: At)
    requires |code| >= 2 && code[|code| - 2..] == [Closure([]), Return] && !a.stopped && a.pc == |code| - 2
    ensures GoOn(code, holds, a, 2) == At(|code| - 1, a.tests, a.done + [Closure([]), Return], true)
  {
    assert code[|code| - 2] == code[|code| - 2..][0] && code[|code| - 1] == code[|code| - 2..][1];
    GoNone(code, holds, a);
    assert GoOn(code, holds, a, 1) == At(|code| - 1, a.tests, a.done + [Closure([])], false);
    assert a.done + [Closure([])] + [Return] == a.done + [Closure([]), Return];
  }
}
