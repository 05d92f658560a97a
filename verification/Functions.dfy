/** The compiler of one function, as far as it decides how locals leave the stack. */
module Functions {
  import opened Types
  import opened Values
  import opened Captures
  import opened FunctionSyntax
  import opened Flows
  import Syntax

  /** A local variable; its depth is -1 while its initializer is being compiled. */
  datatype Local = Local(name: Text, depth: int, isCaptured: bool)

  /** The jumps back to the start of the loop are in no list of the compiler. */
  datatype LoopContext = LoopContext(start: nat, enterParamCount: nat, breakJumps: seq<nat>, continueJumps: seq<nat>,
                                     isDoWhile: bool, ghost backJumps: set<nat>)

  /** The jumps of the breaks of the loop, and of its continues. */
  ghost function OutsOf(loop: Option<LoopContext>): set<nat> {
    if loop.None? then {} else set j | j in loop.value.breakJumps
  }

  ghost function BacksOf(loop: Option<LoopContext>): set<nat> {
    if loop.None? then {}
    else if loop.value.isDoWhile then set j | j in loop.value.continueJumps
    else loop.value.backJumps
  }

  function NamesOf(locals: seq<Local>): (names: seq<Text>)
    ensures |names| == |locals|
  {
    seq(|locals|, i requires 0 <= i < |locals| => locals[i].name)
  }

  lemma NamesCut(locals: seq<Local>, n: nat)
    requires n <= |locals|
    ensures NamesOf(locals[..n]) == NamesOf(locals)[..n]
  {
  }

  lemma NamesAdded(locals: seq<Local>, l: Local)
    ensures NamesOf(locals + [l]) == NamesOf(locals) + [l.name]
  {
  }

  lemma NamesSame(locals: seq<Local>, i: nat, l: Local)
    requires i < |locals| && l.name == locals[i].name
    ensures NamesOf(locals[i := l]) == NamesOf(locals)
  {
  }

  // ---- Locals leaving the stack ----

  function PopOps(count: nat): seq<Op> {
    if count == 0 then [] else [PopCount(count)]
  }

  /** What takes the locals off the stack, from the last on, with `count` values above them: captured ones are closed, one
      by one, and runs of others popped. */
  function Drops(locals: seq<Local>, count: nat): seq<Op> {
    if locals == [] then PopOps(count)
    else
      var n := |locals| - 1;
      if locals[n].isCaptured then PopOps(count) + [CloseUpvalue] + Drops(locals[..n], 0)
      else Drops(locals[..n], count + 1)
  }

  /** The locals of the loop are dropped, and a jump follows, to the target or, with 0, to be patched. */
  predicate LeavesLoop(code: seq<Op>, code1: seq<Op>, locals: seq<Local>, l: LoopContext, target: nat) {
    && l.enterParamCount <= |locals|
    && code1 == code + Drops(locals[l.enterParamCount..], 0) + [Jump(target)]
  }

  lemma DropsStep(locals: seq<Local>, n: nat, count: nat)
    requires n < |locals|
    ensures var m := |locals| - 1;
            Drops(locals[n..], count) ==
            if locals[m].isCaptured then PopOps(count) + [CloseUpvalue] + Drops(locals[..m][n..], 0)
            else Drops(locals[..m][n..], count + 1)
  {
    assert locals[n..][..|locals[n..]| - 1] == locals[..|locals| - 1][n..];
  }

  lemma DropsEnd(locals: seq<Local>, n: nat, count: nat)
    requires n == |locals|
    ensures Drops(locals[n..], count) == PopOps(count)
  {
  }

  // ---- What the source asks for ----

  /** The values that a statement computes, in order, where the locals are called names: instructions other than jumps and
      those that make locals leave the stack. */
  function AskedBy(s: Stmt, names: seq<Text>): seq<Op> {
    match s
    case ExprStmt(e) => Asked(e, names) + [Consume]
    case Block(ds) => AskedByAll(ds, names, false)
    case If(c, t, f) => Asked(c, names) + AskedBy(t, names) + AskedBy(f, names)
    case While(c, b) => Asked(c, names) + AskedBy(b, names)
    case DoWhile(b, c) => AskedBy(b, names) + Asked(c, names)
    case For(init, test, step, b) =>
      var inner := names + Declared(init, false);
      AskedByAll(init, names, false) + (if test.Some? then Asked(test.value, inner) else [])
      + (if step.Some? then Asked(step.value, inner) + [Consume] else []) + AskedBy(b, inner)
    case Break => []
    case Continue => []
    case ReturnStmt(e) => Asked(e, names) + [Return]
  }

  /** A local is in scope in its own initializer, a function in its own body. */
  function AskedByDecl(d: Decl, names: seq<Text>, top: bool): seq<Op> {
    match d
    case Var(name, init) => if top then Asked(init, names) + [Consume] else Asked(init, names + [name])
    case Fun(name, uses) => if top then Asked(uses, names) + [Consume] else Asked(uses, names + [name])
    case Statement(s) => AskedBy(s, names)
  }

  function AskedByAll(ds: Decls, names: seq<Text>, top: bool): seq<Op> {
    if ds.Done? then []
    else AskedByDecl(ds.first, names, top) + AskedByAll(ds.rest, names + DeclaredBy(ds.first, top), top)
  }

  /** The same instructions of the code. */
  function Computed(code: seq<Op>): seq<Op> {
    if code == [] then []
    else
      var op := code[|code| - 1];
      Computed(code[..|code| - 1]) + if op.Closure? || op.Consume? || op.Return? then [op] else []
  }

  // ---- What is refused ----

  /** A break or continue outside of every loop, or a closure that uses a local in that local's own initializer. */
  predicate Faulty(s: Stmt, inLoop: bool) {
    match s
    case Block(ds) => FaultyAll(ds, false, inLoop)
    case If(_, t, f) => Faulty(t, inLoop) || Faulty(f, inLoop)
    case While(_, b) => Faulty(b, true)
    case DoWhile(b, _) => Faulty(b, true)
    case For(init, _, _, b) => FaultyAll(init, false, inLoop) || Faulty(b, true)
    case Break => !inLoop
    case Continue => !inLoop
    case _ => false
  }

  predicate FaultyDecl(d: Decl, top: bool, inLoop: bool) {
    match d
    case Var(name, init) => !top && name in init
    case Fun(_, _) => false
    case Statement(s) => Faulty(s, inLoop)
  }

  predicate FaultyAll(ds: Decls, top: bool, inLoop: bool) {
    ds.More? && (FaultyDecl(ds.first, top, inLoop) || FaultyAll(ds.rest, top, inLoop))
  }

  /** The name means a local that is being initialized. */
  ghost predicate Uninitialized(locals: seq<Local>, name: Text) {
    var i := Syntax.Innermost(NamesOf(locals), name);
    i >= 0 && locals[i].depth == -1
  }

  lemma ReadyInitialized(locals: seq<Local>)
    requires Ready(locals)
    ensures forall name :: !Uninitialized(locals, name)
  {
  }

  lemma OwnUninitialized(locals: seq<Local>, own: Text)
    requires Ready(locals)
    ensures forall name :: Uninitialized(locals + [Local(own, -1, false)], name) <==> name == own
  {
    var all := locals + [Local(own, -1, false)];
    forall name ensures Uninitialized(all, name) <==> name == own {
      assert NamesOf(all)[|locals|] == own;
    }
  }

  /** The flags of captured locals do not matter for that. */
  lemma FoundUninitialized(locals: seq<Local>, slots: seq<nat>, name: Text, arg: int)
    requires arg == Syntax.Innermost(NamesOf(WithCaptured(locals, slots)), name)
    ensures arg < |locals|
    ensures Uninitialized(locals, name) <==> arg >= 0 && WithCaptured(locals, slots)[arg].depth == -1
  {
    assert NamesOf(WithCaptured(locals, slots)) == NamesOf(locals);
  }

  // ---- Between declarations ----

  /** Where the stack has exactly the locals: before, between and behind the declarations of every list, nested ones
      included.  Each place is given by the number of values that were computed before it, and the number of locals. */
  function Sites(ds: Decls, names: seq<Text>, top: bool, k: nat): set<(nat, nat)> {
    {(k, |names|)} +
    if ds.Done? then {}
    else
      SitesOfDecl(ds.first, names, k)
      + Sites(ds.rest, names + DeclaredBy(ds.first, top), top, k + |AskedByDecl(ds.first, names, top)|)
  }

  function SitesOfDecl(d: Decl, names: seq<Text>, k: nat): set<(nat, nat)> {
    if d.Statement? then SitesOf(d.s, names, k) else {}
  }

  function SitesOf(s: Stmt, names: seq<Text>, k: nat): set<(nat, nat)> {
    match s
    case Block(ds) => Sites(ds, names, false, k)
    case If(c, t, f) =>
      SitesOf(t, names, k + |Asked(c, names)|) + SitesOf(f, names, k + |Asked(c, names)| + |AskedBy(t, names)|)
    case While(c, b) => SitesOf(b, names, k + |Asked(c, names)|)
    case DoWhile(b, _) => SitesOf(b, names, k)
    case For(init, test, step, b) =>
      var inner := names + Declared(init, false);
      Sites(init, names, false, k)
      + SitesOf(b, inner, k + |AskedByAll(init, names, false)| + (if test.Some? then |Asked(test.value, inner)| else 0)
                          + (if step.Some? then |Asked(step.value, inner)| + 1 else 0))
    case _ => {}
  }

  /** The code has a recorded position behind k computed values where the height is h. */
  ghost predicate Site(d: Draft, k: nat, h: nat) {
    exists p :: p in d.bounds && p <= |d.code| && d.bounds[p] == h && |Computed(d.code[..p])| == k
  }

  ghost predicate Sited(d: Draft, sites: set<(nat, nat)>) {
    forall s :: s in sites ==> Site(d, s.0, s.1)
  }

  /** Code stays, but for jumps still to be patched, and so do recorded positions with what is computed before them. */
  ghost predicate Keeps(d: Draft, d1: Draft) {
    Stays(d, d1) && forall p :: p in d.bounds && p <= |d.code| ==>
      p in d1.bounds && p <= |d1.code| && d1.bounds[p] == d.bounds[p] && |Computed(d1.code[..p])| == |Computed(d.code[..p])|
  }

  lemma KeepsSited(d: Draft, d1: Draft, sites: set<(nat, nat)>)
    requires Keeps(d, d1) && Sited(d, sites)
    ensures Sited(d1, sites)
  {
    hide Computed;
    forall s | s in sites ensures Site(d1, s.0, s.1) {
      assert Site(d, s.0, s.1);
      var p :| p in d.bounds && p <= |d.code| && d.bounds[p] == s.1 && |Computed(d.code[..p])| == s.0;
    }
  }

  lemma KeepsStays(d: Draft, d1: Draft)
    requires Keeps(d, d1)
    ensures Stays(d, d1)
  {
  }

  lemma KeepsTwice(d: Draft, d1: Draft, d2: Draft)
    requires Keeps(d, d1) && Keeps(d1, d2)
    ensures Keeps(d, d2)
  {
    hide Computed;
  }

  lemma KeptKeeps(d: Draft, d1: Draft)
    requires Kept(d, d1)
    ensures Keeps(d, d1)
  {
    hide Computed;
    assert forall p :: 0 <= p < |d.code| ==> d1.code[p] == d1.code[..|d.code|][p] == d.code[p];
    forall p | p in d.bounds && p <= |d.code| ensures d1.code[..p] == d.code[..p] {
      assert d1.code[..p] == d1.code[..|d.code|][..p];
    }
  }

  lemma FollowedKeeps(x: Context, x1: Context)
    requires Followed(x, x1)
    ensures Keeps(x.d, x1.d)
  {
    hide Kept, Keeps;
    KeptKeeps(x.d, x1.d);
  }

  /** Another target for a jump is no matter. */
  lemma AimedKeeps(d: Draft, d1: Draft, j: nat, op: Op)
    requires j < |d.code| && IsJump(d.code[j]) && IsJump(op) && d1.code == d.code[j := op] && d1.bounds == d.bounds
    requires j in d.holes && d1.holes <= d.holes
    ensures Keeps(d, d1)
  {
    hide Computed;
    forall p | p in d.bounds && p <= |d.code| ensures Computed(d1.code[..p]) == Computed(d.code[..p]) {
      if j < p {
        assert d1.code[..p] == d.code[..p][j := op];
        ComputedPatched(d.code[..p], j, op);
      } else {
        assert d1.code[..p] == d.code[..p];
      }
    }
  }

  lemma SameKeeps(d: Draft, d1: Draft)
    requires d1.code == d.code && d1.bounds == d.bounds && d1.holes <= d.holes
    ensures Keeps(d, d1)
  {
  }

  /** The places of a for loop: of its initializer, and of its body. */
  lemma ForSited(s: Stmt, names: seq<Text>, c0: seq<Op>, dI: Draft, c1: seq<Op>, c2: seq<Op>, d: Draft)
    requires s.For? && Keeps(dI, d) && Sited(dI, Sites(s.init, names, false, |Computed(c0)|))
    requires var inner := names + Declared(s.init, false);
      && Computed(dI.code) == Computed(c0) + AskedByAll(s.init, names, false)
      && Computed(c1) == Computed(dI.code) + (if s.test.Some? then Asked(s.test.value, inner) else [])
      && Computed(c2) == Computed(c1) + (if s.step.Some? then Asked(s.step.value, inner) + [Consume] else [])
      && Sited(d, SitesOf(s.body, inner, |Computed(c2)|))
    ensures Sited(d, SitesOf(s, names, |Computed(c0)|))
  {
    hide Computed, SlotsUsed, Asked, Declared, AskedByAll, AskedBy, Sites, Sited, Keeps;
    KeepsSited(dI, d, Sites(s.init, names, false, |Computed(c0)|));
    BothSited(d, Sites(s.init, names, false, |Computed(c0)|), SitesOf(s.body, names + Declared(s.init, false), |Computed(c2)|));
  }

  lemma IfSited(s: Stmt, names: seq<Text>, c0: seq<Op>, c1: seq<Op>, dE: Draft, dF: Draft, dG: Draft, d: Draft)
    requires s.If? && Keeps(dE, dF) && Keeps(dF, dG) && Keeps(dG, d)
    requires Computed(c1) == Computed(c0) + Asked(s.cond, names) && Computed(dE.code) == Computed(c1) + AskedBy(s.thn, names)
    requires Sited(dE, SitesOf(s.thn, names, |Computed(c1)|)) && Sited(dG, SitesOf(s.els, names, |Computed(dE.code)|))
    ensures Sited(d, SitesOf(s, names, |Computed(c0)|))
  {
    hide Computed, Asked, AskedBy, Sited, Keeps;
    var a, b := SitesOf(s.thn, names, |Computed(c1)|), SitesOf(s.els, names, |Computed(dE.code)|);
    KeepsTwice(dE, dF, dG);
    KeepsTwice(dE, dG, d);
    KeepsSited(dE, d, a);
    KeepsSited(dG, d, b);
    BothSited(d, a, b);
  }

  lemma HereSited(d: Draft, h: nat)
    requires Between(|d.code|, h, d.bounds)
    ensures Sited(d, {(|Computed(d.code)|, h)}) && {(|Computed(d.code)|, h)} + {} == {(|Computed(d.code)|, h)}
  {
    hide Computed;
    MarkSited(d, h);
  }

  /** The places of a list of declarations: before it, in the first, and from there on. */
  lemma MoreSited(ds: Decls, names: seq<Text>, top: bool, w: Draft, y: Draft, d: Draft, h: nat)
    requires ds.More? && Keeps(y, d) && Keeps(w, d) && h == |names| && Between(|w.code|, h, w.bounds)
    requires Computed(y.code) == Computed(w.code) + AskedByDecl(ds.first, names, top)
    requires Sited(y, SitesOfDecl(ds.first, names, |Computed(w.code)|))
    requires Sited(d, Sites(ds.rest, names + DeclaredBy(ds.first, top), top, |Computed(y.code)|))
    ensures Sited(d, Sites(ds, names, top, |Computed(w.code)|))
  {
    hide Computed, AskedByDecl, Sited, Keeps, SitesOfDecl, DeclaredBy;
    var k := |Computed(w.code)|;
    var a, b, c := {(k, h)}, SitesOfDecl(ds.first, names, k),
                   Sites(ds.rest, names + DeclaredBy(ds.first, top), top, |Computed(y.code)|);
    HereSited(w, h);
    KeepsSited(w, d, a);
    KeepsSited(y, d, b);
    BothSited(d, b, c);
    BothSited(d, a, b + c);
    assert Sites(ds, names, top, k) == a + (b + c);
  }

  lemma LongerKeeps(d: Draft, d1: Draft, more: seq<Op>)
    requires d1.code == d.code + more && d1.bounds == d.bounds && d1.holes <= d.holes
    ensures Keeps(d, d1)
  {
    hide Computed;
    forall p | p in d.bounds && p <= |d.code| ensures d1.code[..p] == d.code[..p] { }
  }

  lemma BothSited(d: Draft, a: set<(nat, nat)>, b: set<(nat, nat)>)
    requires Sited(d, a) && Sited(d, b)
    ensures Sited(d, a + b)
  {
    hide Site;
  }

  lemma NoneSited(d: Draft)
    ensures Sited(d, {})
  {
  }

  lemma MarkSited(d: Draft, h: nat)
    requires |d.code| in d.bounds && d.bounds[|d.code|] == h
    ensures Sited(d, {(|Computed(d.code)|, h)})
  {
    assert d.code[..|d.code|] == d.code;
  }

  lemma MoreAsked(ds: Decls, l0: seq<Local>, l1: seq<Local>, l2: seq<Local>, c0: seq<Op>, c1: seq<Op>, c2: seq<Op>, top: bool)
    requires ds.More?
    requires NamesOf(l1) == NamesOf(l0) + DeclaredBy(ds.first, top) && NamesOf(l2) == NamesOf(l1) + Declared(ds.rest, top)
    requires Computed(c1) == Computed(c0) + AskedByDecl(ds.first, NamesOf(l0), top)
    requires Computed(c2) == Computed(c1) + AskedByAll(ds.rest, NamesOf(l1), top)
    ensures NamesOf(l2) == NamesOf(l0) + Declared(ds, top)
    ensures Computed(c2) == Computed(c0) + AskedByAll(ds, NamesOf(l0), top)
  {
    hide NamesOf, Computed, AskedByDecl, DeclaredBy;
  }

  lemma IfAsked(s: Stmt, names: seq<Text>, c0: seq<Op>, c1: seq<Op>, c2: seq<Op>, c3: seq<Op>)
    requires s.If?
    requires Computed(c1) == Computed(c0) + Asked(s.cond, names) && Computed(c2) == Computed(c1) + AskedBy(s.thn, names)
    requires Computed(c3) == Computed(c2) + AskedBy(s.els, names)
    ensures Computed(c3) == Computed(c0) + AskedBy(s, names)
  {
    hide Computed, Asked;
  }

  lemma LoopAsked(cond: Expr, body: Stmt, names: seq<Text>, c0: seq<Op>, c1: seq<Op>, c2: seq<Op>)
    ensures Computed(c1) == Computed(c0) + Asked(cond, names) && Computed(c2) == Computed(c1) + AskedBy(body, names) ==>
              Computed(c2) == Computed(c0) + AskedBy(While(cond, body), names)
    ensures Computed(c1) == Computed(c0) + AskedBy(body, names) && Computed(c2) == Computed(c1) + Asked(cond, names) ==>
              Computed(c2) == Computed(c0) + AskedBy(DoWhile(body, cond), names)
  {
    hide Computed, Asked;
  }

  lemma AskedPlain(s: Stmt, names: seq<Text>)
    ensures match s
            case ExprStmt(e) => AskedBy(s, names) == Asked(e, names) + [Consume]
            case ReturnStmt(e) => AskedBy(s, names) == Asked(e, names) + [Return]
            case Break => AskedBy(s, names) == []
            case Continue => AskedBy(s, names) == []
            case _ => true
  {
  }

  lemma ForAsked(s: Stmt, names: seq<Text>, c0: seq<Op>, cI: seq<Op>, c1: seq<Op>, c2: seq<Op>, c3: seq<Op>)
    requires s.For?
    requires var inner := names + Declared(s.init, false);
      && Computed(cI) == Computed(c0) + AskedByAll(s.init, names, false)
      && Computed(c1) == Computed(cI) + (if s.test.Some? then Asked(s.test.value, inner) else [])
      && Computed(c2) == Computed(c1) + (if s.step.Some? then Asked(s.step.value, inner) + [Consume] else [])
      && Computed(c3) == Computed(c2) + AskedBy(s.body, inner)
    ensures Computed(c3) == Computed(c0) + AskedBy(s, names)
  {
    hide Computed, SlotsUsed, Asked, Declared, AskedByAll, AskedBy;
    var inner := names + Declared(s.init, false);
    var a := AskedByAll(s.init, names, false);
    var t := if s.test.Some? then Asked(s.test.value, inner) else [];
    var u := if s.step.Some? then Asked(s.step.value, inner) + [Consume] else [];
    AskedFor(s, names);
    Joined(Computed(c0), a, t, u, AskedBy(s.body, inner));
  }

  lemma AskedFor(s: Stmt, names: seq<Text>)
    requires s.For?
    ensures var inner := names + Declared(s.init, false);
            AskedBy(s, names) ==
            AskedByAll(s.init, names, false) + (if s.test.Some? then Asked(s.test.value, inner) else [])
            + (if s.step.Some? then Asked(s.step.value, inner) + [Consume] else []) + AskedBy(s.body, inner)
  {
    hide SlotsUsed, Asked, Declared, AskedByAll;
  }

  lemma Joined(c: seq<Op>, a: seq<Op>, t: seq<Op>, u: seq<Op>, b: seq<Op>)
    ensures c + a + t + u + b == c + (a + t + u + b)
  {
  }

  lemma FollowedDepth(x: Context, y: Context)
    requires Followed(x, y)
    ensures y.depth == x.depth
  {
  }

  lemma NothingComputed()
    ensures Computed([]) == []
  {
  }

  lemma ComputedMore(code: seq<Op>, op: Op)
    ensures Computed(code + [op]) == Computed(code) + if op.Closure? || op.Consume? || op.Return? then [op] else []
  {
    assert (code + [op])[..|code|] == code;
  }

  lemma {:induction false} ComputedPatched(code: seq<Op>, p: nat, op: Op)
    requires p < |code| && IsJump(code[p]) && IsJump(op)
    ensures Computed(code[p := op]) == Computed(code)
    decreases |code|
  {
    var n := |code| - 1;
    if p < n {
      ComputedPatched(code[..n], p, op);
      assert code[p := op][..n] == code[..n][p := op];
    } else {
      assert code[p := op][..n] == code[..n];
    }
  }

  /** The slots that some closure is known to capture. */
  function CapturedSlots(locals: seq<Local>): set<nat> {
    set i | 0 <= i < |locals| && locals[i].isCaptured
  }

  /** The compiler's state, the notes of the code and the loops around it included. */
  datatype Context = Context(d: Draft, rs: seq<Region>, locals: seq<Local>, depth: nat, loop: Option<LoopContext>,
                             pending: set<nat>)

  /** The jump lists of the loop hold the jumps that leave it, each once. */
  ghost predicate LoopOk(d: Draft, rs: seq<Region>, loop: Option<LoopContext>)
    requires |d.notes| == |d.code| + 1
  {
    && (loop.Some? <==> rs != [])
    && (loop.Some? ==>
          var l, r := loop.value, rs[|rs| - 1];
          && 0 < l.enterParamCount == r.height && r.top <= l.start <= |d.code| && d.notes[l.start].height == r.height
          && r.outs !! r.backs
          && Listed(l.breakJumps, r.outs) && Listed(l.continueJumps, r.outs)
          && (forall j :: j in l.breakJumps ==> j !in l.continueJumps)
          && (forall j :: j in r.outs ==> j in l.breakJumps || j in l.continueJumps)
          && (!l.isDoWhile ==> l.continueJumps == [])
          && (forall j :: j in l.backJumps ==> j in r.backs && j < |d.code| && d.code[j] == Jump(l.start)))
  }

  predicate Entered(rs: seq<Region>, p: nat) {
    exists i :: 0 <= i < |rs| && p in rs[i].outs + rs[i].backs
  }

  /** Every hole is a jump that belongs to a loop, or one that the statement being compiled is to patch. */
  ghost predicate Known(x: Context) {
    forall p :: p in x.d.holes ==> p in x.pending || Entered(x.rs, p)
  }

  ghost predicate Listed(list: seq<nat>, outs: set<nat>) {
    (forall j :: j in list ==> j in outs) && forall i, k :: 0 <= i < k < |list| ==> list[i] != list[k]
  }

  ghost predicate ScopesOk(locals: seq<Local>, depth: nat) {
    && |locals| > 0 && locals[0].depth == 0
    && (forall i :: 0 <= i < |locals| ==> -1 <= locals[i].depth <= depth)
    && (forall i :: 0 <= i < |locals| - 1 ==> 0 <= locals[i].depth)
    && (forall i, k :: 0 <= i < k < |locals| && locals[k].depth >= 0 ==> locals[i].depth <= locals[k].depth)
  }

  ghost predicate Ready(locals: seq<Local>) {
    forall i :: 0 <= i < |locals| ==> locals[i].depth >= 0
  }

  /** The notes of the position that the compiler is at: `temps` values are above the locals; or, while the value of a
      new local is yet to come, -1. */
  ghost predicate Core(x: Context, temps: int) {
    && -1 <= temps && |x.locals| > 0
    && Good(x.d, x.rs, CapturedSlots(x.locals))
    && Here(x.d) == Note(|x.locals| + temps, CapturedSlots(x.locals))
    && ScopesOk(x.locals, x.depth) && Room(x.rs, |x.locals| + if temps < 0 then -1 else 0) && Known(x)
  }

  ghost predicate Valid(x: Context) {
    Core(x, 0) && Ready(x.locals) && LoopOk(x.d, x.rs, x.loop)
  }

  /** The code so far and what is noted of it stay, and so do locals and loops, but that more becomes known of them. */
  ghost predicate Kept(d: Draft, d1: Draft) {
    var n := |d.code|;
    && n <= |d1.code| && |d.notes| == n + 1 && |d1.notes| == |d1.code| + 1
    && d1.code[..n] == d.code && d1.notes[..n] == d.notes[..n] && d1.notes[n].height == d.notes[n].height
    && (forall p :: 0 <= p < n ==> (p in d1.holes <==> p in d.holes))
    && (forall p :: p in d.bounds ==> p in d1.bounds && d1.bounds[p] == d.bounds[p])
  }

  ghost predicate KeptLocals(ls: seq<Local>, ls1: seq<Local>, depth: nat) {
    && |ls| <= |ls1|
    && (forall i :: 0 <= i < |ls| ==> ls1[i].name == ls[i].name && ls1[i].depth == ls[i].depth
                                      && (ls[i].isCaptured ==> ls1[i].isCaptured))
    && (forall i :: |ls| <= i < |ls1| ==> ls1[i].depth == depth)
  }

  /** Only the innermost loop gets new jumps, from position n on. */
  ghost predicate KeptRegions(rs: seq<Region>, rs1: seq<Region>, n: nat) {
    && |rs1| == |rs|
    && (rs != [] ==>
          var r, r1 := rs[|rs| - 1], rs1[|rs| - 1];
          && rs1[..|rs| - 1] == rs[..|rs| - 1] && r1.top == r.top && r1.height == r.height
          && (forall j :: j in r.outs ==> j in r1.outs) && (forall j :: j in r.backs ==> j in r1.backs)
          && (forall j :: j in r1.outs + r1.backs ==> j in r.outs + r.backs || n <= j))
  }

  ghost predicate KeptLoop(l: Option<LoopContext>, l1: Option<LoopContext>) {
    && (l1.Some? <==> l.Some?)
    && (l.Some? ==> l1.value.start == l.value.start && l1.value.enterParamCount == l.value.enterParamCount
                    && l1.value.isDoWhile == l.value.isDoWhile)
    && OutsOf(l) <= OutsOf(l1) && BacksOf(l) <= BacksOf(l1)
  }

  ghost predicate Followed(x: Context, x1: Context) {
    && Kept(x.d, x1.d) && KeptLocals(x.locals, x1.locals, x.depth) && KeptRegions(x.rs, x1.rs, |x.d.code|)
    && KeptLoop(x.loop, x1.loop) && x1.depth == x.depth
  }

  lemma KeptTwice(d: Draft, d1: Draft, d2: Draft)
    requires Kept(d, d1) && Kept(d1, d2)
    ensures Kept(d, d2)
  {
    var n := |d.code|;
    assert d2.code[..n] == d2.code[..|d1.code|][..n];
    assert d2.notes[..n] == d2.notes[..|d1.code|][..n];
    assert d1.notes[..|d1.code|][..n] == d1.notes[..n];
    assert n < |d1.code| ==> d2.notes[n] == d2.notes[..|d1.code|][n] == d1.notes[..|d1.code|][n];
  }

  lemma FollowedTwice(x: Context, x1: Context, x2: Context)
    requires Followed(x, x1) && Followed(x1, x2)
    ensures Followed(x, x2)
  {
    hide Kept;
    KeptTwice(x.d, x1.d, x2.d);
    KeptSizes(x.d, x1.d);
  }

  lemma KeptSizes(d: Draft, d1: Draft)
    requires Kept(d, d1)
    ensures |d.code| <= |d1.code| && |d.notes| == |d.code| + 1 && |d1.notes| == |d1.code| + 1
  {
  }

  lemma FollowedSelf(x: Context)
    requires |x.d.notes| == |x.d.code| + 1
    ensures Followed(x, x)
  {
  }

  lemma AddedKept(d: Draft, op: Op, next: Note)
    requires |d.notes| == |d.code| + 1
    ensures Kept(d, Added(d, op, next))
  {
  }

  lemma CoreSize(x: Context, temps: int)
    requires Core(x, temps)
    ensures |x.d.notes| == |x.d.code| + 1 && Below(Here(x.d).open, Here(x.d).height)
  {
  }

  // ---- Single instructions ----

  function Noted(x: Context, temps: int): Note
    requires |x.locals| + temps >= 0
  {
    Note(|x.locals| + temps, CapturedSlots(x.locals))
  }

  /** The context behind an instruction that leaves `temps` values above the locals. */
  function Emitted(x: Context, op: Op, temps: int): Context
    requires |x.locals| + temps >= 0
  {
    x.(d := Added(x.d, op, Noted(x, temps)), pending := if IsJump(op) then x.pending + {|x.d.code|} else x.pending)
  }

  lemma SlotsBelow(locals: seq<Local>)
    ensures Below(CapturedSlots(locals), |locals|)
  {
  }

  /** Whatever takes values above the locals can be emitted. */
  lemma TakesTemps(x: Context, op: Op, temps: nat, temps1: nat)
    requires Core(x, temps) && (op.Consume? || op.PopCount?)
    requires temps1 + Pops(op) == temps
    ensures Core(Emitted(x, op, temps1), temps1) && Followed(x, Emitted(x, op, temps1))
  {
    hide Good, ScopesOk;
    CoreSize(x, temps);
    SlotsBelow(x.locals);
    AddedGood(x.d, x.rs, CapturedSlots(x.locals), op, Noted(x, temps1));
    AddedKept(x.d, op, Noted(x, temps1));
  }

  // ---- Closures ----

  function WithCaptured(locals: seq<Local>, slots: seq<nat>): (ls: seq<Local>)
    ensures |ls| == |locals|
  {
    seq(|locals|, i requires 0 <= i < |locals| => locals[i].(isCaptured := locals[i].isCaptured || i in slots))
  }

  /** The search from the last local on comes to the innermost of the name. */
  lemma InnermostIs(names: seq<Text>, name: Text, i: int)
    requires -1 <= i < |names| && (i >= 0 ==> names[i] == name)
    requires forall j :: i < j < |names| ==> names[j] != name
    ensures Syntax.Innermost(names, name) == i
  {
    hide Syntax.Innermost;
    var k := Syntax.Innermost(names, name);
    forall j | k < j < |names| ensures names[j] != name {
      assert k < 0 ==> names[j] in names;
      assert k >= 0 ==> names[k + 1..][j - k - 1] == names[j] && names[j] in names[k + 1..];
    }
  }

  lemma CapturedMore(locals: seq<Local>, slots: seq<nat>, i: nat)
    requires i < |locals|
    ensures var ls := WithCaptured(locals, slots);
            ls[i := ls[i].(isCaptured := true)] == WithCaptured(locals, slots + [i])
  {
  }

  lemma CapturedNames(locals: seq<Local>, slots: seq<nat>)
    ensures NamesOf(WithCaptured(locals, slots)) == NamesOf(locals)
  {
  }

  lemma NoSlots(names: seq<Text>)
    ensures SlotsUsed([], names) == []
  {
  }

  lemma SlotsMore(e: Expr, n: nat, names: seq<Text>)
    requires n < |e|
    ensures var i := Syntax.Innermost(names, e[n]);
            SlotsUsed(e[..n + 1], names) == SlotsUsed(e[..n], names) + if i >= 0 then [i] else []
  {
    assert e[..n + 1][..n] == e[..n];
  }

  lemma NoneCaptured(locals: seq<Local>)
    ensures WithCaptured(locals, []) == locals
  {
  }

  /** The flags are set before the closure is emitted. */
  lemma ClosureEmitted(x: Context, slots: seq<nat>, temps: int)
    requires Core(x, temps) && forall c :: c in slots ==> c < |x.locals|
    ensures var y := x.(locals := WithCaptured(x.locals, slots));
            Core(Emitted(y, Closure(slots), temps + 1), temps + 1) && Followed(x, Emitted(y, Closure(slots), temps + 1))
  {
    hide Good;
    var y := x.(locals := WithCaptured(x.locals, slots));
    CoreSize(x, temps);
    SlotsBelow(y.locals);
    SlotsBelow(x.locals);
    CapturedGood(x.d, x.rs, CapturedSlots(x.locals), CapturedSlots(y.locals));
    AddedGood(x.d, x.rs, CapturedSlots(y.locals), Closure(slots), Noted(y, temps + 1));
    AddedKept(x.d, Closure(slots), Noted(y, temps + 1));
  }

  // ---- Jumps ----

  /** The jump at p waits for its target; what it brings is known of the locals. */
  ghost predicate Waits(x: Context, p: nat) {
    && |x.d.notes| == |x.d.code| + 1
    && p < |x.d.code| && p in x.d.holes && IsJump(x.d.code[p])
    && x.d.notes[p].height == |x.locals| + Pops(x.d.code[p]) && x.d.notes[p].open <= CapturedSlots(x.locals)
    && forall i :: 0 <= i < |x.rs| ==> p !in x.rs[i].outs + x.rs[i].backs
  }

  /** A conditional jump, or one behind which nothing goes on: the locals there are those of the scope. */
  lemma JumpEmitted(x: Context, op: Op)
    requires IsJump(op) && Core(x, Pops(op))
    ensures Core(Emitted(x, op, 0), 0) && Followed(x, Emitted(x, op, 0)) && Waits(Emitted(x, op, 0), |x.d.code|)
  {
    hide Good, ScopesOk;
    CoreSize(x, Pops(op));
    SlotsBelow(x.locals);
    AddedGood(x.d, x.rs, CapturedSlots(x.locals), op, Noted(x, 0));
    AddedKept(x.d, op, Noted(x, 0));
    EarlierJumps(x.d, x.rs, CapturedSlots(x.locals));
  }

  lemma EarlierJumps(d: Draft, rs: seq<Region>, captured: set<nat>)
    requires Good(d, rs, captured)
    ensures forall i, j :: 0 <= i < |rs| && j in rs[i].outs + rs[i].backs ==> j < |d.code|
  {
    forall i, j | 0 <= i < |rs| && j in rs[i].outs + rs[i].backs ensures j < |d.code| {
      assert RegionOk(d, rs[i], captured);
      assert Leaves(d, rs[i], captured, j);
    }
  }

  lemma KeptSlots(ls: seq<Local>, ls1: seq<Local>, depth: nat)
    requires KeptLocals(ls, ls1, depth)
    ensures CapturedSlots(ls) <= CapturedSlots(ls1)
  {
  }

  lemma WaitsOn(x: Context, x1: Context, p: nat)
    requires Waits(x, p) && Followed(x, x1) && |x1.locals| == |x.locals|
    ensures Waits(x1, p)
  {
    KeptSlots(x.locals, x1.locals, x.depth);
    assert forall i :: 0 <= i < |x.rs| - 1 ==> x1.rs[i] == x1.rs[..|x.rs| - 1][i] == x.rs[i];
    assert x1.d.code[..|x.d.code|][p] == x.d.code[p];
    assert x1.d.notes[..|x.d.code|][p] == x.d.notes[p];
  }

  function PatchedAt(x: Context, p: nat): Context
    requires p < |x.d.code| && IsJump(x.d.code[p])
  {
    x.(d := Patched(x.d, p), pending := x.pending - {p})
  }

  lemma JumpPatched(x: Context, p: nat)
    requires Core(x, 0) && Waits(x, p)
    ensures Core(PatchedAt(x, p), 0)
  {
    hide Good, ScopesOk;
    PatchedGood(x.d, x.rs, CapturedSlots(x.locals), p);
  }

  lemma PatchKept(d0: Draft, d: Draft, p: nat)
    requires Kept(d0, d) && |d0.code| <= p < |d.code| && IsJump(d.code[p])
    ensures Kept(d0, Patched(d, p))
  {
    assert Patched(d, p).code[..|d0.code|] == d.code[..|d0.code|];
  }

  // ---- Scopes ----

  /** A local that no closure captured is left to be popped. */
  lemma LeftToPop(x: Context, temps: nat)
    requires Core(x, temps) && |x.locals| > 1 && !x.locals[|x.locals| - 1].isCaptured && Room(x.rs, |x.locals| - 1)
    ensures Core(x.(locals := x.locals[..|x.locals| - 1]), temps + 1)
  {
    hide Good;
    var ls := x.locals[..|x.locals| - 1];
    assert CapturedSlots(ls) == CapturedSlots(x.locals);
  }

  /** A captured local is closed; what is above it has been popped. */
  lemma ClosedLocal(x: Context)
    requires Core(x, 0) && |x.locals| > 1 && x.locals[|x.locals| - 1].isCaptured && Room(x.rs, |x.locals| - 1)
    ensures var y := x.(locals := x.locals[..|x.locals| - 1]);
            Core(Emitted(y, CloseUpvalue, 0), 0) && Kept(x.d, Emitted(y, CloseUpvalue, 0).d)
  {
    hide Good;
    var y := x.(locals := x.locals[..|x.locals| - 1]);
    CoreSize(x, 0);
    SlotsBelow(y.locals);
    assert CapturedSlots(y.locals) == CapturedSlots(x.locals) - {|x.locals| - 1};
    AddedGood(x.d, x.rs, CapturedSlots(x.locals), CloseUpvalue, Noted(y, 0));
    CapturedGood(Emitted(y, CloseUpvalue, 0).d, x.rs, CapturedSlots(x.locals), CapturedSlots(y.locals));
    AddedKept(x.d, CloseUpvalue, Noted(y, 0));
  }

  /** A new local joins the scope. */
  lemma LocalAdded(x: Context, name: Text)
    requires Core(x, 0) && Ready(x.locals)
    ensures Core(x.(locals := x.locals + [Local(name, -1, false)]), -1)
    ensures Core(x.(locals := x.locals + [Local(name, x.depth, false)]), -1)
  {
    hide Good;
    assert CapturedSlots(x.locals + [Local(name, -1, false)]) == CapturedSlots(x.locals);
    assert CapturedSlots(x.locals + [Local(name, x.depth, false)]) == CapturedSlots(x.locals);
  }

  lemma LocalReady(x: Context, ls: seq<Local>)
    requires Core(x, 0) && |x.locals| == |ls| > 1 && x.locals[..|ls| - 1] == ls[..|ls| - 1]
    requires ls[|ls| - 1].isCaptured == x.locals[|ls| - 1].isCaptured && ls[|ls| - 1].depth == x.depth
    requires Ready(ls[..|ls| - 1])
    ensures Core(x.(locals := ls), 0) && Ready(ls)
  {
    hide Good;
    assert forall i :: 0 <= i < |ls| - 1 ==> ls[i] == ls[..|ls| - 1][i] == x.locals[..|ls| - 1][i] == x.locals[i];
    assert CapturedSlots(ls) == CapturedSlots(x.locals);
    assert Good(x.d, x.rs, CapturedSlots(ls));
  }

  // ---- Loops ----

  lemma EnteredMore(rs: seq<Region>, rs1: seq<Region>)
    requires |rs| <= |rs1|
    requires forall i :: 0 <= i < |rs| ==> rs[i].outs <= rs1[i].outs && rs[i].backs <= rs1[i].backs
    ensures forall p :: Entered(rs, p) ==> Entered(rs1, p)
  {
    forall p | Entered(rs, p) ensures Entered(rs1, p) {
      var i :| 0 <= i < |rs| && p in rs[i].outs + rs[i].backs;
      assert p in rs1[i].outs + rs1[i].backs;
    }
  }

  lemma EnteredLast(rs: seq<Region>, p: nat)
    requires rs != [] && p in rs[|rs| - 1].outs + rs[|rs| - 1].backs
    ensures Entered(rs, p)
  {
  }

  /** A loop begins; break and continue are still those of the loop around. */
  lemma LoopOpened(x: Context)
    requires Core(x, 0)
    ensures Core(x.(rs := x.rs + [Region(|x.d.code|, |x.locals|, {}, {})]), 0)
  {
    hide Good;
    CoreSize(x, 0);
    EnteredMore(x.rs, x.rs + [Region(|x.d.code|, |x.locals|, {}, {})]);
    PushedGood(x.d, x.rs, CapturedSlots(x.locals));
  }

  function WithOut(rs: seq<Region>, p: nat): seq<Region>
    requires rs != []
  {
    var r := rs[|rs| - 1];
    WithInnermost(rs, r.(outs := r.outs + {p}))
  }

  function WithBack(rs: seq<Region>, p: nat): seq<Region>
    requires rs != []
  {
    var r := rs[|rs| - 1];
    WithInnermost(rs, r.(backs := r.backs + {p}))
  }

  predicate Begins(ls: seq<Local>, ls1: seq<Local>) {
    |ls| <= |ls1| && ls == ls1[..|ls|]
  }

  lemma BeginsSlots(ls: seq<Local>, ls1: seq<Local>)
    requires Begins(ls, ls1)
    ensures CapturedSlots(ls) <= CapturedSlots(ls1)
  {
  }

  /** Behind the locals of the loop, closed or popped, a jump leaves it or goes back in it.  x has the locals outside the
      loop, y all of them. */
  lemma LoopLeft(x: Context, y: Context, target: nat)
    requires Core(x, 0) && x.rs != [] && |x.locals| == x.rs[|x.rs| - 1].height
    requires y == x.(locals := y.locals) && ScopesOk(y.locals, y.depth) && Begins(x.locals, y.locals)
    ensures var z := Emitted(y, Jump(target), 0); var p := |x.d.code|;
      && Core(z.(rs := WithOut(x.rs, p), pending := x.pending), 0) && Kept(x.d, z.d)
      && (x.rs[|x.rs| - 1].top <= target <= p && x.d.notes[target].height == |x.locals| ==>
            Core(z.(rs := WithBack(x.rs, p), pending := x.pending), 0))
  {
    hide Good, ScopesOk, WithOut, WithBack;
    LeftGood(x, y, target);
    LeftKnown(x, y, target);
    WithSame(x.rs, |x.d.code|);
  }

  lemma WithSame(rs: seq<Region>, p: nat)
    requires rs != []
    ensures forall h: nat :: Room(rs, h) ==> Room(WithOut(rs, p), h) && Room(WithBack(rs, p), h)
  {
  }

  lemma LeftKnown(x: Context, y: Context, target: nat)
    requires Known(x) && x.rs != [] && y == x.(locals := y.locals)
    ensures var z := Emitted(y, Jump(target), 0); var p := |x.d.code|;
            Known(z.(rs := WithOut(x.rs, p), pending := x.pending)) && Known(z.(rs := WithBack(x.rs, p), pending := x.pending))
  {
    var p := |x.d.code|;
    EnteredMore(x.rs, WithOut(x.rs, p));
    EnteredMore(x.rs, WithBack(x.rs, p));
    EnteredLast(WithOut(x.rs, p), p);
    EnteredLast(WithBack(x.rs, p), p);
  }

  lemma LeftGood(x: Context, y: Context, target: nat)
    requires Core(x, 0) && x.rs != [] && |x.locals| == x.rs[|x.rs| - 1].height
    requires y == x.(locals := y.locals) && Begins(x.locals, y.locals)
    ensures var z := Emitted(y, Jump(target), 0); var p := |x.d.code|;
      && Good(z.d, WithOut(x.rs, p), CapturedSlots(y.locals)) && Kept(x.d, z.d) && |z.d.notes| == |z.d.code| + 1
      && Here(z.d) == Noted(y, 0)
      && (x.rs[|x.rs| - 1].top <= target <= p && x.d.notes[target].height == |x.locals| ==>
            Good(z.d, WithBack(x.rs, p), CapturedSlots(y.locals)))
  {
    hide Sound, RegionOk, Known, ScopesOk;
    CoreSize(x, 0);
    BeginsSlots(x.locals, y.locals);
    SlotsBelow(y.locals);
    CapturedGood(x.d, x.rs, CapturedSlots(x.locals), CapturedSlots(y.locals));
    AddedGood(x.d, x.rs, CapturedSlots(y.locals), Jump(target), Noted(y, 0));
    AddedKept(x.d, Jump(target), Noted(y, 0));
    var z := Emitted(y, Jump(target), 0);
    LeavesBy(x, y, target);
    var r, p := x.rs[|x.rs| - 1], |x.d.code|;
    var out, back := r.(outs := r.outs + {p}), r.(backs := r.backs + {p});
    SameRegion(z.d, r, out, CapturedSlots(y.locals), p);
    InnermostGood(z.d, x.rs, CapturedSlots(y.locals), out);
    if r.top <= target <= p && x.d.notes[target].height == |x.locals| {
      SameRegion(z.d, r, back, CapturedSlots(y.locals), p);
      InnermostGood(z.d, x.rs, CapturedSlots(y.locals), back);
    }
  }

  lemma SameRegion(d: Draft, r: Region, q: Region, captured: set<nat>, p: nat)
    requires |d.notes| == |d.code| + 1 && q.top == r.top && q.height == r.height
    requires q.outs + q.backs == r.outs + r.backs + {p}
    requires (forall j :: j in r.outs + r.backs + {p} ==> Leaves(d, r, captured, j))
    requires (forall j :: j in r.backs ==> GoesBack(d, r, j)) && q.backs <= r.backs + {p}
    requires p in q.backs ==> GoesBack(d, r, p)
    ensures forall j :: j in q.outs + q.backs ==> Leaves(d, q, captured, j)
    ensures forall j :: j in q.backs ==> GoesBack(d, q, j)
  {
    forall j | j in q.outs + q.backs ensures Leaves(d, q, captured, j) { assert j in r.outs + r.backs + {p}; }
    forall j | j in q.backs ensures GoesBack(d, q, j) { assert j in r.backs || j == p; }
  }

  lemma LeavesBy(x: Context, y: Context, target: nat)
    requires Core(x, 0) && x.rs != [] && |x.locals| == x.rs[|x.rs| - 1].height
    requires y == x.(locals := y.locals) && Begins(x.locals, y.locals)
    ensures var z := Emitted(y, Jump(target), 0); var r := x.rs[|x.rs| - 1]; var p := |x.d.code|;
      && |z.d.notes| == |z.d.code| + 1
      && (forall j :: j in r.outs + r.backs + {p} ==> Leaves(z.d, r, CapturedSlots(y.locals), j))
      && (forall j :: j in r.backs ==> GoesBack(z.d, r, j))
      && (r.top <= target <= p && x.d.notes[target].height == |x.locals| ==> GoesBack(z.d, r, p))
  {
    var z, r := Emitted(y, Jump(target), 0), x.rs[|x.rs| - 1];
    BeginsSlots(x.locals, y.locals);
    assert RegionOk(x.d, r, CapturedSlots(x.locals));
    forall j | j in r.outs + r.backs + {|x.d.code|} ensures Leaves(z.d, r, CapturedSlots(y.locals), j) {
      if j < |x.d.code| { assert Leaves(x.d, r, CapturedSlots(x.locals), j); }
    }
    forall j | j in r.backs ensures GoesBack(z.d, r, j) { assert GoesBack(x.d, r, j); }
  }

  lemma LastRegion(x: Context, temps: int)
    requires Core(x, temps) && x.rs != []
    ensures RegionOk(x.d, x.rs[|x.rs| - 1], CapturedSlots(x.locals))
  {
  }

  /** The context behind a loop, and the jumps that are still to lead there. */
  function LoopEnd(x: Context): Context
    requires x.rs != []
  {
    var n := |x.rs| - 1;
    x.(d := LoopClosed(x.d, x.rs[n], CapturedSlots(x.locals)), rs := x.rs[..n], pending := x.pending + x.rs[n].outs)
  }

  lemma LoopEnds(x: Context, d0: Draft)
    requires Core(x, 0) && x.rs != [] && |x.locals| == x.rs[|x.rs| - 1].height
    requires Kept(d0, x.d) && |d0.code| <= x.rs[|x.rs| - 1].top
    ensures Core(LoopEnd(x), 0) && Kept(d0, LoopEnd(x).d)
  {
    hide Good, RegionOk;
    CoreSize(x, 0);
    LastRegion(x, 0);
    EndKnown(x);
    ClosedGood(x.d, x.rs, CapturedSlots(x.locals));
    ClosedKept(d0, x.d, x.rs[|x.rs| - 1], CapturedSlots(x.locals));
  }

  lemma EndKnown(x: Context)
    requires Known(x) && x.rs != []
    ensures Known(LoopEnd(x))
  {
    var y := LoopEnd(x);
    forall p | p in y.d.holes ensures p in y.pending || Entered(y.rs, p) {
      if p !in x.pending {
        var i :| 0 <= i < |x.rs| && p in x.rs[i].outs + x.rs[i].backs;
        if i < |x.rs| - 1 { assert y.rs[i] == x.rs[i]; }
      }
    }
  }

  lemma ClosedKept(d0: Draft, d: Draft, r: Region, captured: set<nat>)
    requires Kept(d0, d) && |d0.code| <= r.top && RegionOk(d, r, captured)
    ensures Kept(d0, LoopClosed(d, r, captured))
  {
    var d1 := LoopClosed(d, r, captured);
    assert d1.notes[..|d0.code|] == d.notes[..|d0.code|];
    forall j | j in r.backs ensures r.top <= j { assert Leaves(d, r, captured, j); }
  }

  lemma OutWaits(x: Context, j: nat)
    requires Core(x, 0) && x.rs != [] && |x.locals| == x.rs[|x.rs| - 1].height
    requires j in x.rs[|x.rs| - 1].outs && j !in x.rs[|x.rs| - 1].backs
    ensures Waits(LoopEnd(x), j) && j >= x.rs[|x.rs| - 1].top
  {
    var n := |x.rs| - 1;
    assert RegionOk(x.d, x.rs[n], CapturedSlots(x.locals));
    assert Leaves(x.d, x.rs[n], CapturedSlots(x.locals), j);
    forall i | 0 <= i < n ensures j !in x.rs[i].outs + x.rs[i].backs { assert Around(x.rs[i], x.rs[n]); }
  }

  lemma ExitWaits(x: Context, p: nat)
    requires Core(x, 0) && x.rs != [] && Waits(x, p)
    ensures Waits(LoopEnd(x), p)
  {
  }

  lemma WaitsPatched(x: Context, p: nat, j: nat)
    requires Waits(x, p) && Waits(x, j) && j != p
    ensures Waits(PatchedAt(x, p), j)
  {
  }

  /** The jumps to the condition of a do-while loop come to an end in it. */
  function WithoutConts(rs: seq<Region>, conts: seq<nat>): seq<Region>
    requires rs != []
  {
    var r := rs[|rs| - 1];
    WithInnermost(rs, r.(outs := r.outs - set j | j in conts))
  }

  function WithoutContinues(x: Context, conts: seq<nat>): Context
    requires x.rs != []
  {
    x.(rs := WithoutConts(x.rs, conts), pending := x.pending + set j | j in conts)
  }

  lemma ContsKnown(x: Context, conts: seq<nat>)
    requires Known(x) && x.rs != []
    ensures Known(WithoutContinues(x, conts))
  {
    var y := WithoutContinues(x, conts);
    forall p | p in y.d.holes ensures p in y.pending || Entered(y.rs, p) {
      if p !in y.pending {
        var i :| 0 <= i < |x.rs| && p in x.rs[i].outs + x.rs[i].backs;
        assert p in y.rs[i].outs + y.rs[i].backs;
      }
    }
  }

  lemma ContsWait(x: Context, conts: seq<nat>)
    requires Core(x, 0) && x.rs != [] && |x.locals| == x.rs[|x.rs| - 1].height
    requires Listed(conts, x.rs[|x.rs| - 1].outs) && x.rs[|x.rs| - 1].outs !! x.rs[|x.rs| - 1].backs
    ensures Core(WithoutContinues(x, conts), 0)
    ensures forall j :: j in conts ==> Waits(WithoutContinues(x, conts), j) && x.rs[|x.rs| - 1].top <= j
  {
    hide Sound;
    CoreSize(x, 0);
    var n := |x.rs| - 1;
    var r, captured := x.rs[n], CapturedSlots(x.locals);
    var q := r.(outs := r.outs - set j | j in conts);
    assert RegionOk(x.d, r, captured);
    forall j | j in q.outs + q.backs ensures Leaves(x.d, q, captured, j) {
      assert j in r.outs + r.backs;
      assert Leaves(x.d, r, captured, j);
    }
    forall j | j in q.backs ensures GoesBack(x.d, q, j) { assert GoesBack(x.d, r, j); }
    InnermostGood(x.d, x.rs, captured, q);
    ContsKnown(x, conts);
    forall j | j in conts ensures Waits(WithoutContinues(x, conts), j) && r.top <= j {
      assert Leaves(x.d, r, captured, j);
      forall i | 0 <= i < n ensures j !in x.rs[i].outs + x.rs[i].backs { assert Around(x.rs[i], r); }
    }
  }

  // ---- The compiler ----

  class FunctionCompiler {
    var code: seq<Op>
    var locals: seq<Local>
    var scopeDepth: nat
    var currentLoop: Option<LoopContext>
    ghost var notes: seq<Note>
    ghost var holes: set<nat>
    ghost var regions: seq<Region>
    ghost var pending: set<nat>
    ghost var bounds: map<nat, nat>

    ghost function Now(): Context
      reads this
    {
      Context(Draft(code, notes, holes, bounds), regions, locals, scopeDepth, currentLoop, pending)
    }

    /** Slot 0 is the function itself; the parameters of a function follow.  A script has none, and depth 0. */
    constructor (isScript: bool, params: seq<Text>)
      requires isScript ==> params == []
      ensures Valid(Now()) && code == [] && currentLoop == None && pending == {}
      ensures Here(Now().d) == Note(1 + |params|, {})
    {
      code, notes, holes, bounds := [], [Note(1 + |params|, {})], {}, map[];
      regions, pending := [], {};
      locals := [Local([], 0, false)] +
                seq(|params|, i requires 0 <= i < |params| => Local(params[i], 1, false));
      scopeDepth := if isScript then 0 else 1;
      currentLoop := None;
      new;
      assert CapturedSlots(locals) == {};
    }

    ghost function Names(): seq<Text>
      reads this`locals
    {
      NamesOf(locals)
    }

    method Emit(op: Op, ghost next: Note)
      requires |notes| == |code| + 1
      modifies this`code, this`notes, this`holes
      ensures Now() == old(Now()).(d := Added(old(Now()).d, op, next))
      ensures Computed(code) == Computed(old(code)) + if op.Closure? || op.Consume? || op.Return? then [op] else []
    {
      ComputedMore(code, op);
      if IsJump(op) { holes := holes + {|code|}; }
      code := code + [op];
      notes := notes + [next];
    }

    /** The value on top goes. */
    method EmitConsume()
      requires Core(Now(), 1)
      modifies this`code, this`notes, this`holes
      ensures Core(Now(), 0) && Followed(old(Now()), Now()) && SameScope(old(Now()), Now())
      ensures Computed(code) == Computed(old(code)) + [Consume]
      ensures code == old(code) + [Consume] && holes == old(holes)
    {
      hide Core, Followed, Computed;
      TakesTemps(Now(), Consume, 1, 0);
      CoreSize(Now(), 1);
      Emit(Consume, Noted(Now(), 0));
    }

    /** For x, which has some of the locals, popCount of the others are left. */
    method EmitPopCount(popCount: nat, ghost x: Context)
      requires x == Now().(locals := x.locals, depth := x.depth) && Core(x, popCount)
      modifies this`code, this`notes, this`holes
      ensures Core(x.(d := Now().d), 0) && Kept(x.d, Now().d)
      ensures Now() == old(Now()).(d := Now().d) && Computed(code) == Computed(old(code))
      ensures code == old(code) + PopOps(popCount) && holes == old(holes)
    {
      hide Core, Computed;
      CoreSize(x, popCount);
      if popCount == 0 {
        FollowedSelf(x);
        return;
      }
      TakesTemps(x, PopCount(popCount), popCount, 0);
      Emit(PopCount(popCount), Noted(x, 0));
    }

    // ---- Names ----

    method ResolveLocal(name: Text) returns (arg: int)
      ensures arg == Syntax.Innermost(Names(), name) && arg < |locals|
    {
      arg := |locals| - 1;
      while arg >= 0 && locals[arg].name != name
        invariant -1 <= arg < |locals|
        invariant forall i :: arg < i < |locals| ==> locals[i].name != name
      {
        arg := arg - 1;
      }
      InnermostIs(Names(), name, arg);
    }

    /** The variables that are locals here are captured; the others are globals, or locals of an enclosing function.  An
        error if one is being initialized. */
    method ResolveUpvalues(names: Expr) returns (ok: bool, slots: seq<nat>)
      modifies this`locals
      ensures locals == WithCaptured(old(locals), slots) && Names() == old(Names())
      ensures forall c :: c in slots ==> c < |locals|
      ensures ok ==> slots == SlotsUsed(names, Names())
      ensures ok <==> forall n :: n in names ==> !Uninitialized(old(locals), n)
    {
      hide Uninitialized, WithCaptured, SlotsUsed, NamesOf;
      ok, slots := true, [];
      NoneCaptured(locals);
      NoSlots(Names());
      assert names[..|names|] == names && names[..0] == [];
      for n := 0 to |names|
        invariant locals == WithCaptured(old(locals), slots) && forall c :: c in slots ==> c < |locals|
        invariant forall m :: 0 <= m < n ==> !Uninitialized(old(locals), names[m])
        invariant slots == SlotsUsed(names[..n], old(Names()))
      {
        CapturedNames(old(locals), slots);
        SlotsMore(names, n, Names());
        var arg := ResolveLocal(names[n]);
        FoundUninitialized(old(locals), slots, names[n], arg);
        if arg >= 0 {
          if locals[arg].depth == -1 { return false, slots; }
          CapturedMore(old(locals), slots, arg);
          locals := locals[arg := locals[arg].(isCaptured := true)];
          slots := slots + [arg];
        }
      }
      CapturedNames(old(locals), slots);
    }

    method Expression(e: Expr, ghost temps: int) returns (ok: bool)
      requires Core(Now(), temps)
      modifies this`code, this`locals, this`notes, this`holes
      ensures ok ==> Core(Now(), temps + 1) && Followed(old(Now()), Now()) && |locals| == |old(locals)|
      ensures ok ==> regions == old(regions) && currentLoop == old(currentLoop)
      ensures ok ==> Names() == old(Names()) && Computed(code) == Computed(old(code)) + Asked(e, Names())
      ensures ok ==> code == old(code) + Asked(e, Names()) && holes == old(holes)
      ensures ok <==> forall n :: n in e ==> !Uninitialized(old(locals), n)
    {
      hide Uninitialized, Core, Followed, Computed, SlotsUsed, NamesOf;
      ghost var x := Now();
      CoreSize(x, temps);
      var slots;
      ok, slots := ResolveUpvalues(e);
      if !ok { return; }
      ClosureEmitted(x, slots, temps);
      CoreTemps(x, temps);
      Emit(Closure(slots), Noted(Now(), temps + 1));
    }

    // ---- Scopes ----

    method BeginScope()
      modifies this`scopeDepth
      ensures Now() == old(Now()).(depth := old(scopeDepth) + 1)
    {
      scopeDepth := scopeDepth + 1;
    }

    /** Of the locals of x, the last is captured; popCount above it are left to be popped first. */
    method CloseLocal(popCount: nat, ghost x: Context)
      requires x == Now().(locals := x.locals, depth := x.depth) && Core(x, popCount)
      requires |x.locals| > 1 && x.locals[|x.locals| - 1].isCaptured && Room(regions, |x.locals| - 1)
      modifies this`code, this`notes, this`holes
      ensures Core(x.(d := Now().d, locals := x.locals[..|x.locals| - 1]), 0) && Kept(x.d, Now().d)
      ensures Now() == old(Now()).(d := Now().d) && Computed(code) == Computed(old(code))
      ensures code == old(code) + PopOps(popCount) + [CloseUpvalue] && holes == old(holes)
    {
      hide Core, Kept, Room, Computed;
      EmitPopCount(popCount, x);
      ghost var z := x.(d := Now().d);
      CoreSize(z, 0);
      ClosedLocal(z);
      Emit(CloseUpvalue, Noted(z.(locals := x.locals[..|x.locals| - 1]), 0));
      KeptTwice(x.d, z.d, Now().d);
    }

    /** The locals of the scope leave the stack; n are outside of it. */
    method EndScope(ghost n: nat)
      requires Core(Now(), 0) && Ready(locals) && scopeDepth > 0 && 0 < n <= |locals| && Room(regions, n)
      requires forall i :: 0 <= i < n ==> locals[i].depth < scopeDepth
      requires forall i :: n <= i < |locals| ==> locals[i].depth == scopeDepth
      modifies this`code, this`locals, this`scopeDepth, this`notes, this`holes
      ensures Core(Now(), 0) && Kept(old(Now()).d, Now().d)
      ensures Now() == old(Now()).(d := Now().d, locals := old(locals)[..n], depth := old(scopeDepth) - 1)
      ensures Computed(code) == Computed(old(code)) && code == old(code) + Drops(old(locals)[n..], 0)
      ensures holes == old(holes)
    {
      hide Core, Kept, Room, Computed, Drops, PopOps;
      ghost var x := Now();
      CoreSize(x, 0);
      KeptSelf(x.d);
      scopeDepth := scopeDepth - 1;
      var popCount := 0;
      while |locals| > 0 && locals[|locals| - 1].depth > scopeDepth
        invariant n <= |locals| <= |x.locals| && locals == x.locals[..|locals|]
        invariant Core(x.(d := Now().d, locals := locals), popCount) && Kept(x.d, Now().d)
        invariant Now() == x.(d := Now().d, locals := locals, depth := scopeDepth) && scopeDepth == x.depth - 1
        invariant Computed(code) == Computed(old(code)) && code + Drops(locals[n..], popCount) == x.d.code + Drops(x.locals[n..], 0)
        invariant holes == old(holes)
      {
        ghost var y := x.(d := Now().d, locals := locals);
        RoomAbove(regions, n, |locals| - 1);
        DropsStep(locals, n, popCount);
        if locals[|locals| - 1].isCaptured {
          CloseLocal(popCount, y);
          KeptTwice(x.d, y.d, Now().d);
          popCount := 0;
        } else {
          LeftToPop(y, popCount);
          popCount := popCount + 1;
        }
        locals := locals[..|locals| - 1];
      }
      ghost var y := x.(d := Now().d, locals := locals);
      DropsEnd(locals, n, popCount);
      EmitPopCount(popCount, y);
      KeptTwice(x.d, y.d, Now().d);
      Shallower(x.(d := Now().d, locals := locals));
    }

    /** What the end of the loop's scopes would emit, down to its first local; the locals stay known. */
    method CloseLoopLocals(target: nat)
      requires Core(Now(), 0) && Ready(locals) && 0 < target <= |locals| && Room(regions, target)
      modifies this`code, this`notes, this`holes
      ensures Core(Now().(locals := locals[..target]), 0) && Kept(old(Now()).d, Now().d)
      ensures Now() == old(Now()).(d := Now().d) && Computed(code) == Computed(old(code))
      ensures code == old(code) + Drops(locals[target..], 0)
      ensures holes == old(holes)
    {
      hide Core, Kept, Room, Computed, Drops, PopOps;
      ghost var x := Now();
      CoreSize(x, 0);
      KeptSelf(x.d);
      var popCount := 0;
      var i: int := |locals| - 1;
      assert locals[..i + 1] == locals;
      while i >= target
        invariant target - 1 <= i < |locals|
        invariant Core(x.(d := Now().d, locals := locals[..i + 1]), popCount) && Kept(x.d, Now().d)
        invariant Now() == x.(d := Now().d) && Computed(code) == Computed(old(code))
        invariant code + Drops(locals[..i + 1][target..], popCount) == x.d.code + Drops(locals[target..], 0)
        invariant holes == old(holes)
      {
        ghost var y := x.(d := Now().d, locals := locals[..i + 1]);
        RoomAbove(regions, target, i);
        DropsStep(y.locals, target, popCount);
        assert y.locals[..i] == locals[..i];
        if locals[i].isCaptured {
          CloseLocal(popCount, y);
          KeptTwice(x.d, y.d, Now().d);
          popCount := 0;
        } else {
          LeftToPop(y, popCount);
          popCount := popCount + 1;
        }
        i := i - 1;
      }
      ghost var y := x.(d := Now().d, locals := locals[..target]);
      DropsEnd(y.locals, target, popCount);
      EmitPopCount(popCount, y);
      KeptTwice(x.d, y.d, Now().d);
    }

    // ---- Jumps ----

    method EmitJumpIfFalse() returns (jump: nat)
      requires Core(Now(), 1)
      modifies this`code, this`notes, this`holes, this`pending
      ensures jump == |old(code)| && Core(Now(), 0) && Followed(old(Now()), Now()) && Waits(Now(), jump)
      ensures SameScope(old(Now()), Now()) && pending == old(pending) + {jump} && Computed(code) == Computed(old(code))
      ensures code == old(code) + [JumpIfFalsePop(0)] && holes == old(holes) + {jump}
    {
      hide Core, Followed, Waits, Computed;
      CoreSize(Now(), 1);
      JumpEmitted(Now(), JumpIfFalsePop(0));
      jump := |code|;
      Emit(JumpIfFalsePop(0), Noted(Now(), 0));
      pending := pending + {jump};
    }

    method EmitJump() returns (jump: nat)
      requires Core(Now(), 0)
      modifies this`code, this`notes, this`holes, this`pending
      ensures jump == |old(code)| && Core(Now(), 0) && Followed(old(Now()), Now()) && Waits(Now(), jump)
      ensures SameScope(old(Now()), Now()) && pending == old(pending) + {jump} && Computed(code) == Computed(old(code))
      ensures code == old(code) + [Jump(0)] && holes == old(holes) + {jump}
    {
      hide Core, Followed, Waits, Computed;
      CoreSize(Now(), 0);
      JumpEmitted(Now(), Jump(0));
      jump := |code|;
      Emit(Jump(0), Noted(Now(), 0));
      pending := pending + {jump};
    }

    method PatchJump(jump: nat, ghost d0: Draft)
      requires Core(Now(), 0) && Waits(Now(), jump) && Kept(d0, Now().d) && |d0.code| <= jump
      modifies this`code, this`holes, this`pending
      ensures Core(Now(), 0) && Kept(d0, Now().d) && SameScope(old(Now()), Now()) && pending == old(pending) - {jump}
      ensures notes == old(notes) && |code| == |old(code)|
      ensures forall j :: Waits(old(Now()), j) && j != jump ==> Waits(Now(), j)
      ensures Computed(code) == Computed(old(code)) && LeadsTo(code, jump, |code|)
      ensures forall j :: 0 <= j < |code| && j != jump ==> code[j] == old(code)[j]
      ensures Keeps(old(Now()).d, Now().d)
      ensures jump < |old(code)| && IsJump(old(code)[jump]) && Now().d == Patched(old(Now()).d, jump)
    {
      hide Core, Kept, Waits, Computed, Keeps;
      ghost var x := Now();
      WaitsFacts(x, jump);
      JumpPatched(x, jump);
      PatchKept(d0, x.d, jump);
      forall j | Waits(x, j) && j != jump ensures Waits(PatchedAt(x, jump), j) { WaitsPatched(x, jump, j); }
      ComputedPatched(code, jump, Aimed(code[jump], |code|));
      code := code[jump := Aimed(code[jump], |code|)];
      holes := holes - {jump};
      pending := pending - {jump};
      AimedKeeps(x.d, Now().d, jump, code[jump]);
    }

    /** From the last on, as the list is emptied. */
    method PatchAll(jumps: seq<nat>, ghost d0: Draft)
      requires Core(Now(), 0) && Kept(d0, Now().d)
      requires forall i :: 0 <= i < |jumps| ==> Waits(Now(), jumps[i]) && |d0.code| <= jumps[i]
      requires forall i, k :: 0 <= i < k < |jumps| ==> jumps[i] != jumps[k]
      modifies this`code, this`holes, this`pending
      ensures Core(Now(), 0) && Kept(d0, Now().d) && SameScope(old(Now()), Now())
      ensures notes == old(notes) && |code| == |old(code)| && pending == old(pending) - set j | j in jumps
      ensures Computed(code) == Computed(old(code)) && forall i :: 0 <= i < |jumps| ==> LeadsTo(code, jumps[i], |code|)
      ensures forall j :: 0 <= j < |code| && j !in jumps ==> code[j] == old(code)[j]
      ensures Keeps(old(Now()).d, Now().d)
      ensures holes == old(holes) - set j | j in jumps
      ensures forall j :: 0 <= j < |code| ==> (code[j].Jump? <==> old(code)[j].Jump?)
    {
      hide Core, Kept, Waits, Computed, Keeps;
      SameKeeps(Now().d, Now().d);
      var count := |jumps|;
      while count > 0
        invariant 0 <= count <= |jumps|
        invariant Core(Now(), 0) && Kept(d0, Now().d) && SameScope(old(Now()), Now())
        invariant notes == old(notes) && |code| == |old(code)| && pending == old(pending) - set j | j in jumps[count..]
        invariant forall i :: 0 <= i < count ==> Waits(Now(), jumps[i])
        invariant Computed(code) == Computed(old(code)) && forall i :: count <= i < |jumps| ==> LeadsTo(code, jumps[i], |code|)
        invariant forall j :: 0 <= j < |code| && j !in jumps ==> code[j] == old(code)[j]
        invariant Keeps(old(Now()).d, Now().d) && holes == old(holes) - set j | j in jumps[count..]
        invariant forall j :: 0 <= j < |code| ==> (code[j].Jump? <==> old(code)[j].Jump?)
      {
        count := count - 1;
        ghost var before := Now();
        PatchJump(jumps[count], d0);
        KeepsTwice(old(Now()).d, before.d, Now().d);
        assert jumps[count..] == [jumps[count]] + jumps[count + 1..];
      }
      assert jumps[0..] == jumps;
    }

    /** Out of the loop, from where its locals are gone. */
    method EmitOut(ghost x: Context) returns (jump: nat)
      requires x == Now().(locals := x.locals) && Core(x, 0) && regions != [] && |x.locals| == regions[|regions| - 1].height
      requires Begins(x.locals, locals) && ScopesOk(locals, scopeDepth)
      modifies this`code, this`notes, this`holes, this`regions
      ensures jump == |old(code)| && Core(Now(), 0) && Kept(x.d, Now().d)
      ensures Now() == old(Now()).(d := Now().d, rs := WithOut(x.rs, jump)) && Computed(code) == Computed(old(code))
      ensures code == old(code) + [Jump(0)] && holes == old(holes) + {jump}
    {
      hide Core, Kept, ScopesOk, Computed;
      CoreSize(x, 0);
      LoopLeft(x, Now(), 0);
      jump := |code|;
      Emit(Jump(0), Noted(Now(), 0));
      regions := WithOut(regions, jump);
    }

    /** Back in the loop, from where its locals are gone. */
    method EmitLoop(start: nat, ghost x: Context)
      requires x == Now().(locals := x.locals) && Core(x, 0) && regions != [] && |x.locals| == regions[|regions| - 1].height
      requires Begins(x.locals, locals) && ScopesOk(locals, scopeDepth)
      requires regions[|regions| - 1].top <= start <= |code| < |notes| && notes[start].height == |x.locals|
      modifies this`code, this`notes, this`holes, this`regions
      ensures Core(Now(), 0) && Kept(x.d, Now().d)
      ensures Now() == old(Now()).(d := Now().d, rs := WithBack(x.rs, |old(code)|)) && Computed(code) == Computed(old(code))
      ensures code == old(code) + [Jump(start)] && holes == old(holes) + {|old(code)|}
    {
      hide Core, Kept, ScopesOk, Computed;
      CoreSize(x, 0);
      LoopLeft(x, Now(), start);
      ghost var p := |code|;
      Emit(Jump(start), Noted(Now(), 0));
      regions := WithBack(regions, p);
    }

    // ---- Statements ----

    method BreakStatement() returns (ok: bool)
      requires Valid(Now())
      modifies this`code, this`notes, this`holes, this`regions, this`currentLoop
      ensures ok ==> Valid(Now()) && Followed(old(Now()), Now()) && locals == old(locals)
      ensures ok ==> pending == old(pending) && Computed(code) == Computed(old(code)) && old(currentLoop).Some?
      ensures ok ==> LeavesLoop(old(code), code, locals, old(currentLoop).value, 0)
      ensures ok ==> Laid(Now().d, Break, Names(), |old(code)|, |code|, OutsOf(currentLoop), BacksOf(currentLoop))
      ensures ok <==> !Faulty(Break, old(currentLoop).Some?)
    {
      hide Drops, Silent, Laid, Core, Kept, ScopesOk, KeptRegions, Room, Listed, Computed;
      if currentLoop.None? { return false; }
      ok := true;
      ghost var x := Now();
      CoreSize(x, 0);
      LoopFacts(x);
      HolesBelow(x, 0);
      var l := currentLoop.value;
      CloseLoopLocals(l.enterParamCount);
      ghost var y := Now();
      var jump := EmitOut(y.(locals := locals[..l.enterParamCount]));
      KeptTwice(x.d, y.d, Now().d);
      SameCore(Now(), Some(l.(breakJumps := l.breakJumps + [jump])));
      currentLoop := Some(l.(breakJumps := l.breakJumps + [jump]));
      assert Now() == x.(d := Now().d, rs := WithOut(x.rs, jump), loop := currentLoop);
      JumpListed(x, y, Now(), jump);
      LeaveLaid(x.d, Now().d, locals[l.enterParamCount..], 0, Break, Names(),
                OutsOf(currentLoop), BacksOf(currentLoop));
    }

    method ContinueStatement() returns (ok: bool)
      requires Valid(Now())
      modifies this`code, this`notes, this`holes, this`regions, this`currentLoop
      ensures ok ==> Valid(Now()) && Followed(old(Now()), Now()) && locals == old(locals)
      ensures ok ==> pending == old(pending) && Computed(code) == Computed(old(code)) && old(currentLoop).Some?
      ensures ok ==> var l := old(currentLoop).value; LeavesLoop(old(code), code, locals, l, if l.isDoWhile then 0 else l.start)
      ensures ok ==> Laid(Now().d, Continue, Names(), |old(code)|, |code|, OutsOf(currentLoop), BacksOf(currentLoop))
      ensures ok <==> !Faulty(Continue, old(currentLoop).Some?)
    {
      hide Drops, Silent, Laid, Core, Kept, ScopesOk, KeptRegions, Room, Listed, Computed;
      if currentLoop.None? { return false; }
      ok := true;
      ghost var x := Now();
      CoreSize(x, 0);
      LoopFacts(x);
      HolesBelow(x, 0);
      var l := currentLoop.value;
      CloseLoopLocals(l.enterParamCount);
      ghost var y := Now();
      if l.isDoWhile {
        var jump := EmitOut(y.(locals := locals[..l.enterParamCount]));
        KeptTwice(x.d, y.d, Now().d);
        SameCore(Now(), Some(l.(continueJumps := l.continueJumps + [jump])));
        currentLoop := Some(l.(continueJumps := l.continueJumps + [jump]));
        JumpListed(x, y, Now(), jump);
      } else {
        StartKept(x, y);
        EmitLoop(l.start, y.(locals := locals[..l.enterParamCount]));
        KeptTwice(x.d, y.d, Now().d);
        SameCore(Now(), Some(l.(backJumps := l.backJumps + {|y.d.code|})));
        currentLoop := Some(l.(backJumps := l.backJumps + {|y.d.code|}));
        JumpBack(x, y, Now());
      }
      LeaveLaid(x.d, Now().d, locals[l.enterParamCount..], if l.isDoWhile then 0 else l.start, Continue, Names(),
                OutsOf(currentLoop), BacksOf(currentLoop));
    }

    // ---- Loops ----

    /** The jump back, and the jumps to behind the loop. */
    method LoopTail(start: nat, exitJump: int, enclosing: Option<LoopContext>, ghost d0: Draft)
      requires Tail(Now(), start, exitJump, d0) && Covered(Now())
      modifies this`code, this`notes, this`holes, this`regions, this`currentLoop, this`pending
      ensures Core(Now(), 0) && Kept(d0, Now().d)
      ensures Now() == old(Now()).(d := Now().d, rs := old(regions)[..|old(regions)| - 1], loop := enclosing, pending := pending)
      ensures forall p :: p in pending ==> p in old(pending) && p != exitJump
      ensures Computed(code) == Computed(old(code)) && LeadsTo(code, |old(code)|, start)
      ensures forall j :: j in old(currentLoop).value.breakJumps ==> LeadsTo(code, j, |code|)
      ensures exitJump >= 0 ==> LeadsTo(code, exitJump, |code|)
      ensures Keeps(old(Now()).d, Now().d)
      ensures TailLaid(old(Now()), Now().d, start, exitJump)
    {
      hide TailLaid, Computed, Core, Kept, Waits, Listed, ScopesOk, LoopEnd, Tail, Keeps;
      ghost var x := Now();
      TailFacts(x, start, exitJump, d0);
      EmitLoop(start, x);
      ghost var y := Now();
      TailEnds(x, y, start, exitJump, d0);
      notes, holes, regions, pending := LoopEnd(y).d.notes, LoopEnd(y).d.holes, LoopEnd(y).rs, LoopEnd(y).pending;
      LoopEndKeeps(y);
      assert Now() == LoopEnd(y);
      KeptKeeps(x.d, y.d);
      SameKeeps(y.d, Now().d);
      KeepsTwice(x.d, y.d, Now().d);
      ghost var z := Now();
      EndHoles(x, y, z);
      if exitJump >= 0 {
        PatchJump(exitJump, d0);
        KeepsTwice(x.d, z.d, Now().d);
      }
      ghost var w := Now();
      PatchAll(currentLoop.value.breakJumps, d0);
      KeepsTwice(x.d, w.d, Now().d);
      assert LeadsTo(code, |x.d.code|, start);
      TailPatched(x, z, w, Now(), start, exitJump, d0);
      SameCore(Now(), enclosing);
      currentLoop := enclosing;
    }

    method WhileStatement(cond: Expr, body: Stmt) returns (ok: bool)
      requires Valid(Now())
      modifies this
      ensures ok ==> Valid(Now()) && Followed(old(Now()), Now()) && |locals| == |old(locals)| && pending <= old(pending)
      decreases body, 4
      ensures ok ==> Names() == old(Names()) && Computed(code) == Computed(old(code)) + AskedBy(While(cond, body), Names())
      ensures ok ==> Sited(Now().d, SitesOf(While(cond, body), Names(), |Computed(old(code))|))
      ensures ok ==> Laid(Now().d, While(cond, body), Names(), |old(code)|, |code|, OutsOf(currentLoop), BacksOf(currentLoop))
      ensures ok <==> !Faulty(While(cond, body), old(currentLoop).Some?)
    {
      hide Stays, Has, HasAll, Laid, LoopLaid, Computed, SlotsUsed, NamesOf, AskedBy, Asked, Core, Kept, Followed,
           Valid, InLoop, Opened, Sited;
      ghost var x := Now();
      ValidCore(x);
      HolesBelow(x, 0);
      var loopStart := |code|;
      LoopBegins(x);
      regions := regions + [Region(|code|, |locals|, {}, {})];
      var exitJump;
      ok, exitJump := Condition(cond, loopStart, x);
      if !ok { return; }
      ghost var c1 := code;
      ghost var dC := Now().d;
      ghost var o, r;
      ok, o, r := LoopBody(loopStart, exitJump, body, x);
      if !ok { return; }
      KeepsStays(dC, Now().d);
      WhileLaid(x.d, dC, Now().d, cond, body, NamesOf(x.locals), {}, o, r, OutsOf(currentLoop), BacksOf(currentLoop));
      LoopAsked(cond, body, NamesOf(x.locals), x.d.code, c1, code);
    }

    /** The test of a loop, and the jump out of it; start is where the loop began. */
    method Condition(cond: Expr, start: nat, ghost x0: Context) returns (ok: bool, exitJump: int)
      requires Opened(x0, Now(), start, -1)
      modifies this`code, this`locals, this`notes, this`holes, this`pending
      ensures ok ==> Opened(x0, Now(), start, exitJump) && exitJump >= 0 && pending == old(pending) + {exitJump}
      ensures ok ==> regions == old(regions) && currentLoop == old(currentLoop) && scopeDepth == old(scopeDepth)
      ensures ok ==> Names() == old(Names()) && Computed(code) == Computed(old(code)) + Asked(cond, Names())
      ensures ok ==> Keeps(old(Now()).d, Now().d)
      ensures ok ==> code == old(code) + Asked(cond, Names()) + [JumpIfFalsePop(0)] && exitJump == |old(code)| + 1
      ensures ok ==> holes == old(holes) + {exitJump}
      ensures ok
    {
      hide Computed, SlotsUsed, NamesOf, Core, Kept, Followed, Opened, Waits, Keeps;
      exitJump := -1;
      ghost var x := Now();
      OpenedCore(x0, x, start, -1);
      ReadyInitialized(locals);
      ok := Expression(cond, 0);
      if !ok { return; }
      ghost var y := Now();
      exitJump := EmitJumpIfFalse();
      FollowedTwice(x, y, Now());
      OpenedOn(x0, x, Now(), start, -1);
      OpenedExit(x0, x, y, Now(), start, exitJump);
      FollowedKeeps(x, Now());
    }

    /** From the entry of the loop in the list of loops on. */
    method LoopBody(start: nat, exitJump: int, body: Stmt, ghost x0: Context)
      returns (ok: bool, ghost o: set<nat>, ghost r: set<nat>)
      requires Valid(x0) && Opened(x0, Now(), start, exitJump) && currentLoop == x0.loop
      modifies this
      ensures ok ==> Valid(Now()) && Followed(x0, Now()) && |locals| == |x0.locals|
      ensures ok ==> forall p :: p in pending ==> p in old(pending) && p != exitJump
      decreases body, 3
      ensures ok ==> Names() == old(Names()) && Computed(code) == Computed(old(code)) + AskedBy(body, Names())
      ensures ok ==> Sited(Now().d, SitesOf(body, Names(), |Computed(old(code))|)) && Keeps(old(Now()).d, Now().d)
      ensures ok ==> old(regions) != []
      ensures ok ==> LoopLaid(old(Now()).d, Now().d, body, Names(), start, exitJump,
                              old(regions)[|old(regions)| - 1].backs, o, r)
      ensures ok <==> !Faulty(body, true)
    {
      hide Laid, TailLaid, LoopLaid, Computed, SlotsUsed, NamesOf, Core, Kept, Followed, Valid, Opened, Tail, Sited,
           SitesOf, Keeps;
      o, r := {}, {};
      OpenedJump(x0, Now(), start, exitJump);
      var enclosing := currentLoop;
      LoopEntered(x0, Now(), start, exitJump, false);
      currentLoop := Some(LoopContext(start, |locals|, [], [], false, {}));
      ghost var xL := Now();
      ok := Statement(body);
      if !ok { return; }
      ghost var xD := Now();
      BodyDone(x0, xL, xD, start, exitJump);
      o, r := OutsOf(currentLoop), BacksOf(currentLoop);
      LoopTail(start, exitJump, enclosing, x0.d);
      ghost var d := Now().d;
      LoopDone(x0, xD, Now(), start, exitJump);
      KeepsSited(xD.d, Now().d, SitesOf(body, Names(), |Computed(xL.d.code)|));
      FollowedKeeps(xL, xD);
      KeepsStays(xD.d, d);
      OpenedRegion(x0, xL);
      BodyLaid(xL, xD, d, body, Names(), start, exitJump);
      KeepsTwice(xL.d, xD.d, Now().d);
    }

    method DoWhileStatement(body: Stmt, cond: Expr) returns (ok: bool)
      requires Valid(Now())
      modifies this
      ensures ok ==> Valid(Now()) && Followed(old(Now()), Now()) && |locals| == |old(locals)| && pending <= old(pending)
      decreases body, 3
      ensures ok ==> Names() == old(Names()) && Computed(code) == Computed(old(code)) + AskedBy(DoWhile(body, cond), Names())
      ensures ok ==> Sited(Now().d, SitesOf(DoWhile(body, cond), Names(), |Computed(old(code))|))
      ensures ok ==> Laid(Now().d, DoWhile(body, cond), Names(), |old(code)|, |code|, OutsOf(currentLoop), BacksOf(currentLoop))
      ensures ok <==> !Faulty(DoWhile(body, cond), old(currentLoop).Some?)
    {
      hide Stays, Has, HasAll, Laid, TailLaid, AllLead, Computed, SlotsUsed, NamesOf, AskedBy, Asked, Core, Kept,
           Followed, Valid, InLoop, Opened, Tail, Sited, Keeps;
      ghost var x0 := Now();
      ValidCore(x0);
      var loopStart := |code|;
      LoopBegins(x0);
      regions := regions + [Region(|code|, |locals|, {}, {})];
      var enclosing := currentLoop;
      LoopEntered(x0, Now(), loopStart, -1, true);
      currentLoop := Some(LoopContext(loopStart, |locals|, [], [], true, {}));
      ghost var xL := Now();
      ok := Statement(body);
      if !ok { return; }
      ghost var xD := Now();
      BodyDone(x0, xL, xD, loopStart, -1);
      RouteContinues(x0, loopStart);
      ghost var xR := Now();
      var exitJump;
      ok, exitJump := ClosingCondition(cond, loopStart, x0);
      if !ok { return; }
      ghost var xE := Now();
      TailFacts(xE, loopStart, exitJump, x0.d);
      LoopTail(loopStart, exitJump, enclosing, x0.d);
      LoopDone(x0, xE, Now(), loopStart, exitJump);
      FollowedDoWhile(xL, xD);
      TailHoles(xR, loopStart, x0.d);
      KeepsAll(xD.d, xR.d, xE.d, Now().d);
      DoWhileLaid(x0, xD, xR, xE, Now().d, body, cond, NamesOf(x0.locals), OutsOf(currentLoop), BacksOf(currentLoop));
      LoopAsked(cond, body, NamesOf(x0.locals), x0.d.code, xD.d.code, code);
      KeepsTwice(xD.d, xR.d, xE.d);
      KeepsTwice(xD.d, xE.d, Now().d);
      KeepsSited(xD.d, Now().d, SitesOf(body, Names(), |Computed(x0.d.code)|));
    }

    /** Every continue of a do-while loop leads to its condition. */
    method RouteContinues(ghost x0: Context, start: nat)
      requires Valid(Now()) && Tail(Now(), start, -1, x0.d) && InLoop(x0, Now(), -1)
      modifies this`code, this`holes, this`regions, this`pending
      ensures Tail(Now(), start, -1, x0.d) && InLoop(x0, Now(), -1) && locals == old(locals) && Ready(locals)
      ensures Covered(Now()) && pending <= old(pending)
      ensures Computed(code) == Computed(old(code)) && Keeps(old(Now()).d, Now().d)
      ensures |code| == |old(code)| && currentLoop == old(currentLoop) && old(currentLoop).Some?
      ensures AllLead(Now().d, set j | j in old(currentLoop).value.continueJumps, |code|)
    {
      hide AllLead, Computed, SlotsUsed, NamesOf, Core, Kept, Valid, Good, Listed, Waits, ScopesOk, InLoop, Tail, Keeps;
      ghost var x := Now();
      ContsReady(x0, x, start);
      regions := WithoutConts(regions, currentLoop.value.continueJumps);
      pending := pending + set j | j in currentLoop.value.continueJumps;
      ghost var y := Now();
      PatchAll(currentLoop.value.continueJumps, x0.d);
      ContsDone(x0, x, Now(), start);
      ContsLead(x, y, Now());
    }

    /** The condition of a do-while loop, and the jump out of it. */
    method ClosingCondition(cond: Expr, start: nat, ghost x0: Context) returns (ok: bool, exitJump: int)
      requires Tail(Now(), start, -1, x0.d) && InLoop(x0, Now(), -1) && Covered(Now()) && Ready(locals)
      modifies this`code, this`locals, this`notes, this`holes, this`pending
      ensures ok ==> Tail(Now(), start, exitJump, x0.d) && InLoop(x0, Now(), exitJump) && Covered(Now())
      ensures ok ==> exitJump >= 0 && pending == old(pending) + {exitJump}
      ensures ok ==> Names() == old(Names()) && Computed(code) == Computed(old(code)) + Asked(cond, Names())
      ensures ok ==> Keeps(old(Now()).d, Now().d)
      ensures ok ==> code == old(code) + Asked(cond, Names()) + [JumpIfFalsePop(0)] && exitJump == |old(code)| + 1
      ensures ok ==> holes == old(holes) + {exitJump} && currentLoop == old(currentLoop)
      ensures ok
    {
      hide Computed, SlotsUsed, NamesOf, Core, Kept, Followed, Tail, InLoop, Waits, Keeps;
      exitJump := -1;
      ghost var x := Now();
      TailFacts(x, start, -1, x0.d);
      ReadyInitialized(locals);
      ok := Expression(cond, 0);
      if !ok { return; }
      ghost var y := Now();
      exitJump := EmitJumpIfFalse();
      FollowedTwice(x, y, Now());
      TailOn(x0, x, y, Now(), start, exitJump);
      FollowedKeeps(x, Now());
    }

    method ForStatement(s: Stmt) returns (ok: bool)
      requires Valid(Now()) && s.For?
      modifies this
      ensures ok ==> Valid(Now()) && Followed(old(Now()), Now()) && |locals| == |old(locals)| && pending <= old(pending)
      ensures ok ==> Names() == old(Names()) && Computed(code) == Computed(old(code)) + AskedBy(s, Names())
      ensures ok ==> Sited(Now().d, SitesOf(s, Names(), |Computed(old(code))|))
      decreases s, 1
      ensures ok ==> Laid(Now().d, s, Names(), |old(code)|, |code|, OutsOf(currentLoop), BacksOf(currentLoop))
      ensures ok <==> !Faulty(s, old(currentLoop).Some?)
    {
      hide Drops, Silent, ForReady, Laid, Computed, SlotsUsed, NamesOf, Core, Kept, Followed, Valid, AskedBy, Sited,
           SitesOf, Keeps;
      ghost var x := Now();
      DeeperValid(x);
      BeginScope();
      ok := ForInScope(s);
      if !ok { return; }
      ghost var xB := Now();
      ScopeEnds(x, xB);
      EndScope(|x.locals|);
      NamesCut(xB.locals, |x.locals|);
      assert (NamesOf(x.locals) + Declared(s.init, false))[..|x.locals|] == NamesOf(x.locals);
      ScopeDone(x, xB, Now());
      KeptKeeps(xB.d, Now().d);
      ValidHoles(xB);
      ScopeLaid(xB.d, Now().d, xB.locals[|x.locals|..]);
      FollowedKept(x, Now());
      KeptSizes(x.d, Now().d);
      ForEnds(xB.d, Now().d, s, NamesOf(x.locals), |x.d.code|, OutsOf(currentLoop), BacksOf(currentLoop));
      KeepsSited(xB.d, Now().d, SitesOf(s, NamesOf(x.locals), |Computed(x.d.code)|));
    }

    /** The loop, in the scope of its initializer. */
    method ForInScope(s: Stmt) returns (ok: bool)
      requires Valid(Now()) && s.For? && scopeDepth > 0
      modifies this
      ensures ok ==> Valid(Now()) && Followed(old(Now()), Now()) && pending <= old(pending)
      ensures ok ==> Names() == old(Names()) + Declared(s.init, false)
      ensures ok ==> Computed(code) == Computed(old(code)) + AskedBy(s, old(Names()))
      ensures ok ==> Sited(Now().d, SitesOf(s, old(Names()), |Computed(old(code))|))
      decreases s, 0
      ensures ok ==> ForReady(Now().d, s, old(Names()), |old(code)|, OutsOf(currentLoop), BacksOf(currentLoop))
      ensures ok <==> !Faulty(s, old(currentLoop).Some?)
    {
      hide Stays, Has, HasAll, ForReady, StepLaid, LoopLaid, Laid, LaidAll, OutsOf, BacksOf, Computed, SlotsUsed,
           NamesOf, Core, Kept, Followed, Valid, InLoop, Opened, AskedBy, Asked, Sited, Sites, SitesOf, Keeps;
      ghost var x := Now();
      ok := Declarations(s.init);
      if !ok { return; }
      ghost var xI := Now();
      FollowedDepth(x, xI);
      ValidCore(xI);
      HolesBelow(xI, 0);
      var loopStart := |code|;
      LoopBegins(xI);
      regions := regions + [Region(|code|, |locals|, {}, {})];
      var exitJump := -1;
      if s.test.Some? {
        ok, exitJump := Condition(s.test.value, loopStart, xI);
        if !ok { return; }
      }
      ghost var c1 := code;
      ghost var xC := Now();
      if s.test.None? { SameKeeps(xI.d, xC.d); }
      var start := loopStart;
      if s.step.Some? {
        ok, start := ForStep(s.step.value, loopStart, exitJump, xI);
        if !ok { return; }
      }
      ghost var c2 := code;
      ghost var xS := Now();
      if s.step.None? { SameKeeps(xC.d, xS.d); }
      ghost var o, r;
      ok, o, r := LoopBody(start, exitJump, s.body, xI);
      if !ok { return; }
      FollowedTwice(x, xI, Now());
      KeepsTwice(xI.d, xC.d, xS.d);
      KeepsTwice(xI.d, xS.d, Now().d);
      KeepsStays(xI.d, Now().d);
      KeepsTwice(xC.d, xS.d, Now().d);
      KeepsStays(xC.d, Now().d);
      KeepsStays(xS.d, Now().d);
      FollowedSets(xI, Now());
      ForBuilt(s, NamesOf(x.locals), |x.d.code|, xI, xC, xS, Now(), exitJump, start, o, r);
      ForSited(s, NamesOf(x.locals), x.d.code, xI.d, c1, c2, Now().d);
      ForAsked(s, NamesOf(x.locals), x.d.code, xI.d.code, c1, c2, code);
    }

    /** The increment of a for loop, before its body: the body is jumped to, and loops to the increment. */
    method ForStep(step: Expr, loopStart: nat, exitJump: int, ghost x0: Context) returns (ok: bool, start: nat)
      requires Opened(x0, Now(), loopStart, exitJump)
      modifies this`code, this`locals, this`notes, this`holes, this`regions, this`pending
      ensures ok ==> Opened(x0, Now(), start, exitJump) && currentLoop == old(currentLoop) && pending <= old(pending)
      ensures ok ==> Names() == old(Names()) && Computed(code) == Computed(old(code)) + Asked(step, Names()) + [Consume]
      ensures ok ==> Keeps(old(Now()).d, Now().d)
      ensures ok ==> StepLaid(old(Now()), Now(), step, Names(), loopStart, start)
      ensures ok
    {
      hide StepLaid, Patched, Computed, SlotsUsed, NamesOf, Core, Kept, Followed, Opened, Waits, Keeps;
      ghost var x := Now();
      OpenedCore(x0, x, loopStart, exitJump);
      var bodyJump := EmitJump();
      ghost var y := Now();
      start := |code|;
      ReadyInitialized(locals);
      ok := Expression(step, 0);
      if !ok { return; }
      ghost var z := Now();
      FollowedTwice(x, y, z);
      EmitConsume();
      FollowedTwice(x, z, Now());
      FollowedTwice(y, z, Now());
      ghost var w := Now();
      StepReady(x0, x, y, w, loopStart, exitJump, bodyJump);
      EmitLoop(loopStart, w);
      ghost var v := Now();
      StepBack(x0, w, v, loopStart, start, exitJump, bodyJump);
      PatchJump(bodyJump, x0.d);
      StepDone(x0, v, Now(), start, exitJump);
      HolesBelow(x, 0);
      StepBuilt(x, w, v, Now(), step, Names(), loopStart);
      FollowedKeeps(x, w);
      KeptKeeps(w.d, v.d);
      KeepsTwice(x.d, w.d, v.d);
      KeepsTwice(x.d, v.d, Now().d);
    }

    method IfStatement(s: Stmt) returns (ok: bool)
      requires Valid(Now()) && s.If?
      modifies this
      ensures ok ==> Valid(Now()) && Followed(old(Now()), Now()) && |locals| == |old(locals)| && pending <= old(pending)
      decreases s, 0
      ensures ok ==> Names() == old(Names()) && Computed(code) == Computed(old(code)) + AskedBy(s, Names())
      ensures ok ==> Sited(Now().d, SitesOf(s, Names(), |Computed(old(code))|))
      ensures ok ==> Laid(Now().d, s, Names(), |old(code)|, |code|, OutsOf(currentLoop), BacksOf(currentLoop))
      ensures ok <==> !Faulty(s, old(currentLoop).Some?)
    {
      hide Patched, OutsOf, BacksOf, Laid, Computed, SlotsUsed, NamesOf, AskedBy, Asked, Core, Kept, Followed, Valid,
           Waits, Sited, SitesOf, Keeps;
      ghost var x := Now();
      ValidCore(x);
      HolesBelow(x, 0);
      ReadyInitialized(locals);
      ok := Expression(s.cond, 0);
      if !ok { return; }
      ghost var xC := Now();
      var thenJump := EmitJumpIfFalse();
      ghost var xT := Now();
      FollowedTwice(x, xC, xT);
      ValidOn(x, xT);
      ok := Statement(s.thn);
      if !ok { return; }
      ghost var xE := Now();
      ValidHoles(xE);
      WaitsOn(xT, xE, thenJump);
      FollowedTwice(x, xT, xE);
      ValidCore(xE);
      var elseJump := EmitJump();
      ghost var xP := Now();
      FollowedTwice(x, xE, xP);
      WaitsOn(xE, xP, thenJump);
      ValidOn(xE, xP);
      JumpsApart(x, xC, xE, thenJump, elseJump);
      PatchWithin(x, thenJump);
      ghost var xF := Now();
      JumpsValid(x, xP, xF, thenJump);
      FollowedLoop(x, xF);
      ok := Statement(s.els);
      if !ok { return; }
      ghost var xG := Now();
      FollowedSets(xF, xG);
      WaitsOn(xF, xG, elseJump);
      FollowedTwice(x, xF, xG);
      ValidCore(xG);
      PatchWithin(x, elseJump);
      FollowedKept(xT, xE);
      FollowedKept(xF, xG);
      IfBuilt(s, x, xC, xT, xE, xP, xF, xG, Now());
      IfAsked(s, NamesOf(x.locals), x.d.code, xC.d.code, xE.d.code, code);
      JumpsValid(x, xG, Now(), elseJump);
      FollowedKeeps(xE, xP);
      KeepsTwice(xE.d, xP.d, xF.d);
      FollowedKeeps(xF, xG);
      IfSited(s, NamesOf(x.locals), x.d.code, xC.d.code, xE.d, xF.d, xG.d, Now().d);
    }

    /** A jump of a statement that began at x0 leads here. */
    method PatchWithin(ghost x0: Context, jump: nat)
      requires Core(Now(), 0) && Waits(Now(), jump) && Followed(x0, Now()) && |x0.d.code| <= jump
      modifies this`code, this`holes, this`pending
      ensures Core(Now(), 0) && Followed(x0, Now()) && SameScope(old(Now()), Now()) && pending == old(pending) - {jump}
      ensures notes == old(notes) && |code| == |old(code)|
      ensures forall j :: Waits(old(Now()), j) && j != jump ==> Waits(Now(), j)
      ensures Computed(code) == Computed(old(code)) && Keeps(old(Now()).d, Now().d)
      ensures jump < |old(code)| && IsJump(old(code)[jump]) && Now().d == Patched(old(Now()).d, jump)
    {
      hide Computed, SlotsUsed, NamesOf, Core, Kept, Waits, Keeps;
      PatchJump(jump, x0.d);
    }

    method Statement(s: Stmt) returns (ok: bool)
      requires Valid(Now())
      modifies this
      ensures ok ==> Valid(Now()) && Followed(old(Now()), Now()) && |locals| == |old(locals)| && pending <= old(pending)
      decreases s, 2
      ensures ok ==> Names() == old(Names()) && Computed(code) == Computed(old(code)) + AskedBy(s, Names())
      ensures ok ==> Sited(Now().d, SitesOf(s, Names(), |Computed(old(code))|))
      ensures ok ==> Laid(Now().d, s, Names(), |old(code)|, |code|, OutsOf(currentLoop), BacksOf(currentLoop))
      ensures ok <==> !Faulty(s, old(currentLoop).Some?)
    {
      hide Laid, Computed, SlotsUsed, NamesOf, AskedBy, Core, Kept, Followed, Valid, Sited, Sites;
      match s
      case ExprStmt(e) =>
        ok := ExpressionStatement(e);
        AskedPlain(s, Names());
        NoneSited(Now().d);
        PlainLaid(Now().d, s, Names(), |old(code)|, OutsOf(currentLoop), BacksOf(currentLoop));
      case Block(ds) => ok := BlockStatement(ds);
      case If(_, _, _) => ok := IfStatement(s);
      case While(c, b) => ok := WhileStatement(c, b);
      case DoWhile(b, c) => ok := DoWhileStatement(b, c);
      case For(_, _, _, _) => ok := ForStatement(s);
      case Break =>
        ok := BreakStatement();
        AskedPlain(s, Names());
        NoneSited(Now().d);
      case Continue =>
        ok := ContinueStatement();
        AskedPlain(s, Names());
        NoneSited(Now().d);
      case ReturnStmt(e) =>
        ok := ReturnStatement(e);
        AskedPlain(s, Names());
        NoneSited(Now().d);
        PlainLaid(Now().d, s, Names(), |old(code)|, OutsOf(currentLoop), BacksOf(currentLoop));
    }

    method ExpressionStatement(e: Expr) returns (ok: bool)
      requires Valid(Now())
      modifies this
      ensures ok ==> Valid(Now()) && Followed(old(Now()), Now()) && |locals| == |old(locals)| && pending <= old(pending)
      ensures ok ==> Names() == old(Names()) && Computed(code) == Computed(old(code)) + Asked(e, Names()) + [Consume]
      ensures ok ==> code == old(code) + (Asked(e, Names()) + [Consume]) && holes == old(holes)
      ensures ok ==> HasAll(Now().d, |old(code)|, Asked(e, Names()) + [Consume])
      ensures ok
    {
      hide HasAll, Computed, SlotsUsed, NamesOf, Core, Kept, Followed, Valid;
      ghost var x := Now();
      ValidCore(x);
      ReadyInitialized(locals);
      ok := Expression(e, 0);
      if !ok { return; }
      ghost var y := Now();
      EmitConsume();
      FollowedTwice(x, y, Now());
      ValidOn(x, Now());
      HolesBelow(x, 0);
      assert code == x.d.code + (Asked(e, Names()) + [Consume]);
      OpsLaid(x.d, Now().d, Asked(e, Names()) + [Consume]);
    }

    method ReturnStatement(e: Expr) returns (ok: bool)
      requires Valid(Now())
      modifies this
      ensures ok ==> Valid(Now()) && Followed(old(Now()), Now()) && |locals| == |old(locals)| && pending <= old(pending)
      ensures ok ==> Names() == old(Names()) && Computed(code) == Computed(old(code)) + Asked(e, Names()) + [Return]
      ensures ok ==> code == old(code) + (Asked(e, Names()) + [Return])
      ensures ok ==> HasAll(Now().d, |old(code)|, Asked(e, Names()) + [Return])
      ensures ok
    {
      hide HasAll, Computed, SlotsUsed, NamesOf, Core, Kept, Followed, Valid;
      ghost var x := Now();
      ValidCore(x);
      ReadyInitialized(locals);
      ok := Expression(e, 0);
      if !ok { return; }
      ghost var y := Now();
      CoreSize(y, 1);
      ReturnEmitted(y);
      Emit(Return, Noted(y, 0));
      FollowedTwice(x, y, Now());
      ValidOn(x, Now());
      HolesBelow(x, 0);
      assert code == x.d.code + (Asked(e, Names()) + [Return]);
      OpsLaid(x.d, Now().d, Asked(e, Names()) + [Return]);
    }

    method BlockStatement(ds: Decls) returns (ok: bool)
      requires Valid(Now())
      modifies this
      ensures ok ==> Valid(Now()) && Followed(old(Now()), Now()) && |locals| == |old(locals)| && pending <= old(pending)
      decreases ds, 2
      ensures ok ==> Names() == old(Names()) && Computed(code) == Computed(old(code)) + AskedBy(Block(ds), Names())
      ensures ok ==> Sited(Now().d, SitesOf(Block(ds), Names(), |Computed(old(code))|))
      ensures ok ==> Laid(Now().d, Block(ds), Names(), |old(code)|, |code|, OutsOf(currentLoop), BacksOf(currentLoop))
      ensures ok <==> !Faulty(Block(ds), old(currentLoop).Some?)
    {
      hide Drops, Silent, LaidAll, Laid, Computed, SlotsUsed, NamesOf, Core, Kept, Followed, Valid, Sited, Sites, Keeps;
      ghost var x := Now();
      DeeperValid(x);
      BeginScope();
      ok := Declarations(ds);
      if !ok { return; }
      ghost var y := Now();
      ScopeEnds(x, y);
      EndScope(|x.locals|);
      NamesCut(y.locals, |x.locals|);
      assert (NamesOf(x.locals) + Declared(ds, false))[..|x.locals|] == NamesOf(x.locals);
      ScopeDone(x, y, Now());
      HolesBelow(y, 0);
      ScopeLaid(y.d, Now().d, y.locals[|x.locals|..]);
      KeptKeeps(y.d, Now().d);
      FollowedKept(x, Now());
      KeptSizes(x.d, Now().d);
      BlockLaid(y.d, Now().d, ds, NamesOf(x.locals), |x.d.code|, OutsOf(currentLoop), BacksOf(currentLoop));
      KeepsSited(y.d, Now().d, Sites(ds, NamesOf(x.locals), false, |Computed(x.d.code)|));
    }

    /** Between statements exactly the locals are on the stack. */
    method Declarations(ds: Decls) returns (ok: bool)
      requires Valid(Now())
      modifies this
      ensures ok ==> Valid(Now()) && Followed(old(Now()), Now()) && pending <= old(pending)
      ensures ok ==> Between(old(|code|), old(|locals|), bounds) && Between(|code|, |locals|, bounds)
      ensures ok ==> Sited(Now().d, Sites(ds, old(Names()), scopeDepth == 0, |Computed(old(code))|))
      decreases ds, 1
      ensures ok ==> Names() == old(Names()) + Declared(ds, scopeDepth == 0)
      ensures ok ==> Computed(code) == Computed(old(code)) + AskedByAll(ds, old(Names()), scopeDepth == 0)
      ensures ok ==> LaidAll(Now().d, ds, old(Names()), scopeDepth == 0, |old(code)|, |code|, OutsOf(currentLoop),
                             BacksOf(currentLoop))
      ensures ok <==> !FaultyAll(ds, old(scopeDepth) == 0, old(currentLoop).Some?)
    {
      hide LaidAll, LaidDecl, Computed, SlotsUsed, NamesOf, AskedByDecl, DeclaredBy, Core, Kept, Followed, Valid,
           Between, Sited, SitesOfDecl, Keeps;
      ghost var x := Now();
      Mark();
      ghost var w := Now();
      ok := true;
      if ds.More? {
        ok := Declaration(ds.first);
        if !ok { return; }
        ghost var y := Now();
        FollowedLoop(w, y);
        FollowedDepth(w, y);
        ok := Declarations(ds.rest);
        if !ok { return; }
        FollowedTwice(w, y, Now());
        FollowedDepth(w, y);
        FollowedDepth(w, Now());
        MoreAsked(ds, x.locals, y.locals, locals, old(code), y.d.code, code, scopeDepth == 0);
        FollowedKeeps(y, Now());
        FollowedKeeps(w, Now());
        FollowedSets(y, Now());
        KeepsStays(y.d, Now().d);
        MoreLaid(y.d, Now().d, ds, NamesOf(x.locals), scopeDepth == 0, |x.d.code|, OutsOf(y.loop), BacksOf(y.loop),
                 OutsOf(currentLoop), BacksOf(currentLoop));
        MoreSited(ds, NamesOf(x.locals), scopeDepth == 0, w.d, y.d, Now().d, |x.locals|);
      } else {
        ValidCore(w);
        FollowedSelf(w);
        HereSited(w.d, |x.locals|);
        NoneLaid(w.d, NamesOf(x.locals), scopeDepth == 0, OutsOf(currentLoop), BacksOf(currentLoop));
      }
      FollowedTwice(x, w, Now());
      StillBetween(x, w, Now());
    }

    ghost method Mark()
      requires Valid(Now())
      modifies this`bounds
      ensures Valid(Now()) && Followed(old(Now()), Now()) && Now() == old(Now()).(d := Now().d)
      ensures Between(|code|, |locals|, bounds) && code == old(code)
    {
      MarkedValid(Now());
      bounds := Marked(Now().d).bounds;
    }

    method Declaration(d: Decl) returns (ok: bool)
      requires Valid(Now())
      modifies this
      ensures ok ==> Valid(Now()) && Followed(old(Now()), Now()) && pending <= old(pending)
      decreases d, 2
      ensures ok ==> Names() == old(Names()) + DeclaredBy(d, scopeDepth == 0)
      ensures ok ==> Computed(code) == Computed(old(code)) + AskedByDecl(d, old(Names()), scopeDepth == 0)
      ensures ok ==> Sited(Now().d, SitesOfDecl(d, old(Names()), |Computed(old(code))|))
      ensures ok ==> LaidDecl(Now().d, d, old(Names()), scopeDepth == 0, |old(code)|, |code|, OutsOf(currentLoop),
                              BacksOf(currentLoop))
      ensures ok <==> !FaultyDecl(d, old(scopeDepth) == 0, old(currentLoop).Some?)
    {
      hide HasAll, DeclOps, Laid, Computed, SlotsUsed, NamesOf, Core, Kept, Followed, Valid, Sited, SitesOf;
      NoneSited(Now().d);
      match d
      case Var(name, init) =>
        ok := VarDeclaration(name, init);
        DeclLaid(Now().d, d, old(Names()), scopeDepth == 0, |old(code)|, OutsOf(currentLoop), BacksOf(currentLoop));
        NoneSited(Now().d);
      case Fun(name, uses) =>
        ok := FunDeclaration(name, uses);
        DeclLaid(Now().d, d, old(Names()), scopeDepth == 0, |old(code)|, OutsOf(currentLoop), BacksOf(currentLoop));
        NoneSited(Now().d);
      case Statement(s) => ok := Statement(s);
    }

    /** A local stays where the value of its initializer is; a global takes it. */
    method VarDeclaration(name: Text, init: Expr) returns (ok: bool)
      requires Valid(Now())
      modifies this
      ensures ok ==> Valid(Now()) && Followed(old(Now()), Now()) && pending <= old(pending)
      ensures ok ==> Names() == old(Names()) + DeclaredBy(Var(name, init), scopeDepth == 0)
      ensures ok ==> Computed(code) == Computed(old(code)) + AskedByDecl(Var(name, init), old(Names()), scopeDepth == 0)
      ensures ok ==> var ops := DeclOps(Var(name, init), old(Names()), scopeDepth == 0);
                     |code| == |old(code)| + |ops| && HasAll(Now().d, |old(code)|, ops)
      ensures ok <==> !(old(scopeDepth) > 0 && name in init)
    {
      hide HasAll, Computed, SlotsUsed, NamesOf, Core, Kept, Followed, Valid;
      if scopeDepth == 0 {
        ok := ExpressionStatement(init);
        assert old(Names()) + [] == old(Names());
        if ok { FollowedDepth(old(Now()), Now()); }
        return;
      }
      ghost var x := Now();
      ValidCore(x);
      HolesBelow(x, 0);
      LocalAdded(x, name);
      locals := locals + [Local(name, -1, false)];
      ghost var y := Now();
      OwnUninitialized(x.locals, name);
      ok := Expression(init, -1);
      if !ok { return; }
      ghost var z := Now();
      locals := locals[|locals| - 1 := locals[|locals| - 1].(depth := scopeDepth)];
      NamesAdded(x.locals, Local(name, -1, false));
      NamesSame(z.locals, |z.locals| - 1, locals[|locals| - 1]);
      OpsLaid(x.d, Now().d, Asked(init, NamesOf(x.locals) + [name]));
      VarDone(x, y, z, Now(), name);
    }

    /** A function can use itself: its local is initialized before its body is compiled. */
    method FunDeclaration(name: Text, uses: Expr) returns (ok: bool)
      requires Valid(Now())
      modifies this
      ensures ok ==> Valid(Now()) && Followed(old(Now()), Now()) && pending <= old(pending)
      ensures ok ==> Names() == old(Names()) + DeclaredBy(Fun(name, uses), scopeDepth == 0)
      ensures ok ==> Computed(code) == Computed(old(code)) + AskedByDecl(Fun(name, uses), old(Names()), scopeDepth == 0)
      ensures ok ==> var ops := DeclOps(Fun(name, uses), old(Names()), scopeDepth == 0);
                     |code| == |old(code)| + |ops| && HasAll(Now().d, |old(code)|, ops)
      ensures ok
    {
      hide HasAll, Computed, SlotsUsed, NamesOf, Core, Kept, Followed, Valid;
      if scopeDepth == 0 {
        ok := ExpressionStatement(uses);
        assert old(Names()) + [] == old(Names());
        if ok { FollowedDepth(old(Now()), Now()); }
        return;
      }
      ghost var x := Now();
      ValidCore(x);
      HolesBelow(x, 0);
      LocalAdded(x, name);
      locals := locals + [Local(name, scopeDepth, false)];
      ghost var y := Now();
      ReadyInitialized(locals);
      ok := Expression(uses, -1);
      if !ok { return; }
      NamesAdded(x.locals, Local(name, scopeDepth, false));
      OpsLaid(x.d, Now().d, Asked(uses, NamesOf(x.locals) + [name]));
      FunDone(x, y, Now(), name);
    }

    /** The code of a function or script, and the return that ends it.  `start` is the note before it. */
    method Compile(ds: Decls) returns (ok: bool, ghost start: Note)
      requires Valid(Now()) && code == [] && currentLoop == None && pending == {} && Here(Now().d).open == {}
      modifies this
      ensures start == Here(old(Now()).d)
      ensures ok ==> Typed(code, notes) && code != [] && Leads(start, notes[0]) && Safe(code, start)
      ensures ok ==> forall p :: p in bounds ==> p < |notes| && notes[p].height == bounds[p]
      ensures ok ==> Sited(Now().d, Sites(ds, old(Names()), old(scopeDepth) == 0, 0))
      ensures ok ==> Computed(code) == AskedByAll(ds, old(Names()), old(scopeDepth) == 0) + [Closure([]), Return]
      ensures ok ==> AlwaysFollows(code, start, ds, old(Names()), old(scopeDepth) == 0)
      ensures ok <==> !FaultyAll(ds, old(scopeDepth) == 0, false)
    {
      hide AlwaysFollows, LaidAll, Computed, AskedByAll, NamesOf, Core, Kept, Followed, Valid, Typed, Safe, Leads,
           Sited, Sites, Keeps;
      ghost var x := Now();
      ValidCore(x);
      NothingComputed();
      start := notes[0];
      ok := Declarations(ds);
      if !ok { return; }
      Complete(x, Now());
      ghost var n, y := notes[|code|], Now();
      FollowedDepth(x, Now());
      assert code + [Closure([]), Return] == (code + [Closure([])]) + [Return];
      ComputedMore(code, Closure([]));
      ComputedMore(code + [Closure([])], Return);
      code := code + [Closure([]), Return];
      notes := notes + [Note(n.height + 1, n.open)];
      TypedSafe(code, notes, start);
      NoLoop(x, y);
      LaidAlways(y.d, code, start, ds, NamesOf(x.locals), x.depth == 0);
      LongerKeeps(y.d, Now().d, [Closure([]), Return]);
      KeepsSited(y.d, Now().d, Sites(ds, NamesOf(x.locals), x.depth == 0, 0));
    }
  }

  lemma NoLoop(x: Context, y: Context)
    requires x.loop == None && Followed(x, y)
    ensures OutsOf(y.loop) == {} == BacksOf(y.loop)
  {
  }

  /** Every hole of a script or function has been patched. */
  lemma Complete(x: Context, y: Context)
    requires Valid(x) && Valid(y) && Followed(x, y) && x.d.code == [] && x.loop == None && y.pending == {}
    requires Here(x.d).open == {}
    ensures |y.d.notes| == |y.d.code| + 1
    ensures var n := Here(y.d); var notes := y.d.notes + [Note(n.height + 1, n.open)];
            Typed(y.d.code + [Closure([]), Return], notes) && Leads(x.d.notes[0], notes[0])
    ensures forall p :: p in y.d.bounds ==> p <= |y.d.code| && y.d.notes[p].height == y.d.bounds[p]
  {
    hide Typed;
    FinishedTyped(y.d);
  }

  /** The position is recorded as one where exactly n locals are on the stack. */
  predicate Between(p: nat, n: nat, bounds: map<nat, nat>) {
    p in bounds && bounds[p] == n
  }

  lemma BoundsHeights(d: Draft, rs: seq<Region>, captured: set<nat>)
    requires Good(d, rs, captured)
    ensures |d.notes| == |d.code| + 1 && forall p :: p in d.bounds ==> p <= |d.code| && d.notes[p].height == d.bounds[p]
  {
  }

  lemma MarkedValid(x: Context)
    requires Valid(x)
    ensures |x.d.notes| == |x.d.code| + 1 && Valid(x.(d := Marked(x.d))) && Followed(x, x.(d := Marked(x.d)))
    ensures Between(|x.d.code|, |x.locals|, Marked(x.d).bounds)
  {
    hide Good;
    CoreSize(x, 0);
    BoundsHeights(x.d, x.rs, CapturedSlots(x.locals));
    MarkedGood(x.d, x.rs, CapturedSlots(x.locals));
  }

  lemma StillBetween(x: Context, w: Context, y: Context)
    requires Followed(x, y) && Followed(w, y) && Valid(y) && Valid(w) && |w.d.code| == |x.d.code|
    requires |w.locals| == |x.locals| && Between(|x.d.code|, |x.locals|, w.d.bounds)
    ensures Between(|x.d.code|, |x.locals|, y.d.bounds)
  {
  }

  lemma ValidCore(x: Context)
    requires Valid(x)
    ensures Core(x, 0) && Ready(x.locals) && |x.d.notes| == |x.d.code| + 1 && |x.locals| > 0
  {
  }

  /** In a loop that began behind x0: the locals are those of x0, start is in it, and exitJump, unless -1, waits. */
  ghost predicate InLoop(x0: Context, x: Context, exitJump: int) {
    && |x.rs| == |x0.rs| + 1 && x.rs[..|x0.rs|] == x0.rs
    && x.rs[|x0.rs|].top == |x0.d.code| && x.rs[|x0.rs|].height == |x0.locals|
    && |x.locals| == |x0.locals| && KeptLocals(x0.locals, x.locals, x0.depth) && x.depth == x0.depth && Kept(x0.d, x.d)
    && -1 <= exitJump && (exitJump >= 0 ==> Waits(x, exitJump) && |x0.d.code| <= exitJump)
  }

  /** Before the loop is entered in the list of loops: nothing leads out of it but exitJump. */
  ghost predicate Opened(x0: Context, x: Context, start: nat, exitJump: int) {
    && Core(x, 0) && Ready(x.locals) && InLoop(x0, x, exitJump)
    && |x0.d.code| <= start <= |x.d.code| && x.d.notes[start].height == |x.locals|
    && x.rs[|x0.rs|].outs == {}
  }

  lemma LoopBegins(x: Context)
    requires Valid(x)
    ensures Opened(x, x.(rs := x.rs + [Region(|x.d.code|, |x.locals|, {}, {})]), |x.d.code|, -1)
  {
    hide Good;
    CoreSize(x, 0);
    LoopOpened(x);
  }

  lemma OpenedJump(x0: Context, x: Context, start: nat, exitJump: int)
    requires Opened(x0, x, start, exitJump)
    ensures exitJump >= 0 ==> exitJump < |x.d.code| && IsJump(x.d.code[exitJump])
  {
  }

  lemma OpenedRegion(x0: Context, xL: Context)
    requires |xL.rs| == |x0.rs| + 1
    ensures xL.rs != []
  {
  }

  lemma OpenedCore(x0: Context, x: Context, start: nat, exitJump: int)
    requires Opened(x0, x, start, exitJump)
    ensures Core(x, 0) && Ready(x.locals) && |x.d.notes| == |x.d.code| + 1
  {
  }

  lemma OpenedOn(x0: Context, x: Context, x1: Context, start: nat, exitJump: int)
    requires Opened(x0, x, start, exitJump) && Followed(x, x1) && |x1.locals| == |x.locals| && Core(x1, 0)
    requires x1.rs == x.rs
    ensures Opened(x0, x1, start, exitJump)
  {
    hide Core;
    KeptTwice(x0.d, x.d, x1.d);
    if exitJump >= 0 { WaitsOn(x, x1, exitJump); }
    var n := |x.d.code|;
    assert start < n ==> x1.d.notes[start] == x1.d.notes[..n][start] == x.d.notes[..n][start] == x.d.notes[start];
  }

  lemma OpenedExit(x0: Context, x: Context, y: Context, z: Context, start: nat, exitJump: nat)
    requires Opened(x0, x, start, -1) && Opened(x0, z, start, -1)
    requires Followed(x, y) && exitJump == |y.d.code| && Waits(z, exitJump)
    ensures Opened(x0, z, start, exitJump)
  {
  }

  lemma LoopEntered(x0: Context, x: Context, start: nat, exitJump: int, isDoWhile: bool)
    requires Opened(x0, x, start, exitJump)
    ensures var xL := x.(loop := Some(LoopContext(start, |x.locals|, [], [], isDoWhile, {})));
            Valid(xL) && InLoop(x0, xL, exitJump)
  {
    hide Good, ScopesOk;
  }

  /** The body of a loop ends where its locals are those of the loop. */
  lemma BodyDone(x0: Context, xL: Context, xD: Context, start: nat, exitJump: int)
    requires InLoop(x0, xL, exitJump) && xL.loop.Some? && xL.loop.value.start == start
    requires Valid(xD) && Followed(xL, xD) && |xD.locals| == |xL.locals|
    ensures Tail(xD, start, exitJump, x0.d) && InLoop(x0, xD, exitJump) && (!xL.loop.value.isDoWhile ==> Covered(xD))
  {
    hide Core;
    CoreSize(xD, 0);
    KeptTwice(x0.d, xL.d, xD.d);
    if exitJump >= 0 { WaitsOn(xL, xD, exitJump); }
    assert xD.rs[..|x0.rs|] == xL.rs[..|x0.rs|];
  }

  lemma LoopDone(x0: Context, xD: Context, z: Context, start: nat, exitJump: int)
    requires Valid(x0) && InLoop(x0, xD, exitJump) && Core(z, 0) && Kept(x0.d, z.d)
    requires |xD.rs| > 0 && z == xD.(d := z.d, rs := xD.rs[..|xD.rs| - 1], loop := x0.loop, pending := z.pending)
    ensures Valid(z) && Followed(x0, z) && |z.locals| == |x0.locals|
  {
    hide Good;
    CoreSize(x0, 0);
    CoreSize(z, 0);
    if x0.loop.Some? { StartKept(x0, z); }
  }

  /** The end of the body of a loop whose code began behind d0; exitJump waits, unless it is -1. */
  ghost predicate Tail(x: Context, start: nat, exitJump: int, d0: Draft) {
    && Core(x, 0) && x.rs != [] && |x.d.notes| == |x.d.code| + 1
    && var r := x.rs[|x.rs| - 1];
    && r.height == |x.locals| && r.top <= start <= |x.d.code| && x.d.notes[start].height == r.height
    && Kept(d0, x.d) && |d0.code| <= r.top
    && x.loop.Some? && Listed(x.loop.value.breakJumps, r.outs) && r.outs !! r.backs
    && -1 <= exitJump && (exitJump >= 0 ==> Waits(x, exitJump) && r.top <= exitJump)
  }

  /** All that leads out of the loop is in its list of breaks. */
  ghost predicate Covered(x: Context) {
    x.rs != [] && x.loop.Some? && forall j :: j in x.rs[|x.rs| - 1].outs ==> j in x.loop.value.breakJumps
  }

  lemma TailFacts(x: Context, start: nat, exitJump: int, d0: Draft)
    requires Tail(x, start, exitJump, d0)
    ensures Core(x, 0) && x.rs != [] && |x.d.notes| == |x.d.code| + 1 && x.loop.Some? && -1 <= exitJump
    ensures ScopesOk(x.locals, x.depth) && Begins(x.locals, x.locals)
    ensures var r := x.rs[|x.rs| - 1];
            r.height == |x.locals| && r.top <= start <= |x.d.code| && x.d.notes[start].height == r.height
  {
  }

  lemma LoopEndPending(x: Context)
    requires x.rs != []
    ensures LoopEnd(x).pending == x.pending + x.rs[|x.rs| - 1].outs
  {
  }

  lemma LoopEndKeeps(x: Context)
    requires x.rs != []
    ensures var y := LoopEnd(x);
            && y == x.(d := y.d, rs := x.rs[..|x.rs| - 1], pending := y.pending)
            && y.d.code == x.d.code && y.d.bounds == x.d.bounds
    ensures LoopEnd(x).d.holes == x.d.holes - x.rs[|x.rs| - 1].backs
  {
  }

  /** Behind the jump back, everything that leads out of the loop can be patched. */
  lemma TailEnds(x: Context, y: Context, start: nat, exitJump: int, d0: Draft)
    requires Tail(x, start, exitJump, d0) && Core(y, 0) && Kept(x.d, y.d)
    requires y == x.(d := y.d, rs := WithBack(x.rs, |x.d.code|))
    ensures y.rs != [] && Core(LoopEnd(y), 0) && Kept(d0, LoopEnd(y).d)
    ensures Covered(x) ==> forall p :: p in LoopEnd(y).pending ==> p in x.pending || p in x.loop.value.breakJumps
    ensures exitJump >= 0 ==> Waits(LoopEnd(y), exitJump) && |d0.code| <= exitJump < |x.d.code|
    ensures forall j :: j in x.loop.value.breakJumps ==> j < |x.d.code| && j != exitJump
    ensures var breaks := x.loop.value.breakJumps;
      && (forall i :: 0 <= i < |breaks| ==> Waits(LoopEnd(y), breaks[i]) && |d0.code| <= breaks[i] && breaks[i] != exitJump)
      && (forall i, k :: 0 <= i < k < |breaks| ==> breaks[i] != breaks[k])
  {
    hide Good, RegionOk, LoopEnd, ScopesOk, Room;
    var r := x.rs[|x.rs| - 1];
    LoopEndPending(y);
    CoreSize(x, 0);
    KeptTwice(d0, x.d, y.d);
    LoopEnds(y, d0);
    EarlierJumps(x.d, x.rs, CapturedSlots(x.locals));
    if exitJump >= 0 {
      WaitsBack(x, y, exitJump);
      ExitWaits(y, exitJump);
    }
    var breaks := x.loop.value.breakJumps;
    forall i | 0 <= i < |breaks| ensures Waits(LoopEnd(y), breaks[i]) && |d0.code| <= breaks[i] && breaks[i] != exitJump {
      assert breaks[i] in r.outs && breaks[i] in r.outs + r.backs;
      OutWaits(y, breaks[i]);
    }
    forall j | j in breaks ensures j < |x.d.code| && j != exitJump {
      var i :| 0 <= i < |breaks| && breaks[i] == j;
      assert j in r.outs + r.backs;
    }
  }

  lemma WaitsBack(x: Context, y: Context, p: nat)
    requires Waits(x, p) && Kept(x.d, y.d) && x.rs != []
    requires y == x.(d := y.d, rs := WithBack(x.rs, |x.d.code|))
    ensures Waits(y, p)
  {
    assert y.d.code[..|x.d.code|][p] == x.d.code[p];
    assert y.d.notes[..|x.d.code|][p] == x.d.notes[p];
  }

  lemma SameCore(x: Context, loop: Option<LoopContext>)
    requires Core(x, 0)
    ensures Core(x.(loop := loop), 0)
  {
  }

  /** At p is a jump to the target. */
  predicate LeadsTo(code: seq<Op>, p: nat, target: nat) {
    p < |code| && IsJump(code[p]) && code[p].target == target
  }

  lemma CoreTemps(x: Context, temps: int)
    requires Core(x, temps)
    ensures -1 <= temps && |x.locals| > 0
  {
  }

  /** Where the loop starts, its locals are on the stack. */
  lemma LoopFacts(x: Context)
    requires Valid(x) && x.loop.Some?
    ensures x.rs != [] && ScopesOk(x.locals, x.depth)
    ensures var e := x.loop.value.enterParamCount;
            0 < e <= |x.locals| && e == x.rs[|x.rs| - 1].height && Room(x.rs, e)
  {
    var n := |x.rs| - 1;
    forall i | 0 <= i < |x.rs| ensures x.rs[i].height <= x.rs[n].height { assert i < n ==> Around(x.rs[i], x.rs[n]); }
  }

  lemma StartKept(x: Context, y: Context)
    requires Valid(x) && x.loop.Some? && Kept(x.d, y.d)
    ensures x.rs != [] && |y.d.notes| == |y.d.code| + 1
    ensures var l, r := x.loop.value, x.rs[|x.rs| - 1];
            r.top <= l.start <= |y.d.code| && y.d.notes[l.start].height == r.height
  {
    var n, s := |x.d.code|, x.loop.value.start;
    assert s < n ==> y.d.notes[s] == y.d.notes[..n][s] == x.d.notes[..n][s] == x.d.notes[s];
  }

  lemma ListedMore(list: seq<nat>, outs: set<nat>, p: nat)
    requires Listed(list, outs) && p !in outs
    ensures Listed(list + [p], outs + {p}) && Listed(list, outs + {p})
  {
  }

  /** A jump out of the loop, entered in one of its lists. */
  lemma JumpListed(x: Context, y: Context, z: Context, jump: nat)
    requires Valid(x) && x.loop.Some? && x.rs != [] && Kept(x.d, y.d) && Kept(x.d, z.d) && jump == |y.d.code|
    requires Core(z, 0) && z == x.(d := z.d, rs := WithOut(x.rs, jump), loop := z.loop)
    requires var l := x.loop.value;
             z.loop == Some(l.(breakJumps := l.breakJumps + [jump]))
             || (l.isDoWhile && z.loop == Some(l.(continueJumps := l.continueJumps + [jump])))
    ensures Valid(z) && Followed(x, z)
  {
    hide Good;
    var l, r := x.loop.value, x.rs[|x.rs| - 1];
    KeptSizes(x.d, y.d);
    GoodJumps(x);
    StartKept(x, z);
    ListedMore(l.breakJumps, r.outs, jump);
    ListedMore(l.continueJumps, r.outs, jump);
  }

  lemma GoodJumps(x: Context)
    requires Valid(x) && x.rs != []
    ensures Below(x.rs[|x.rs| - 1].outs, |x.d.code|) && Below(x.rs[|x.rs| - 1].backs, |x.d.code|)
  {
    hide Good;
    EarlierJumps(x.d, x.rs, CapturedSlots(x.locals));
    var r := x.rs[|x.rs| - 1];
    forall j | j in r.outs ensures j < |x.d.code| { assert j in r.outs + r.backs; }
    forall j | j in r.backs ensures j < |x.d.code| { assert j in r.outs + r.backs; }
  }

  lemma JumpBack(x: Context, y: Context, z: Context)
    requires Valid(x) && x.loop.Some? && x.rs != [] && Kept(x.d, y.d) && Kept(x.d, z.d) && !x.loop.value.isDoWhile
    requires Core(z, 0) && z.d.code == y.d.code + [Jump(x.loop.value.start)]
    requires var l := x.loop.value;
             z == x.(d := z.d, rs := WithBack(x.rs, |y.d.code|), loop := Some(l.(backJumps := l.backJumps + {|y.d.code|})))
    ensures Valid(z) && Followed(x, z)
  {
    hide Good;
    KeptSizes(x.d, y.d);
    GoodJumps(x);
    StartKept(x, z);
    forall j | j in x.loop.value.backJumps ensures z.d.code[j] == x.d.code[j] { assert z.d.code[..|x.d.code|][j] == z.d.code[j]; }
  }

  // ---- Loops, laid out ----

  /** Behind a loop: the jump back stands at the end of its code, its breaks and its exit lead here, and what led back in it
      stays. */
  ghost predicate TailLaid(x: Context, d1: Draft, start: nat, exitJump: int) {
    var q := |d1.code|;
    && q == |x.d.code| + 1 && Has(d1, q - 1, Jump(start)) && AllLead(d1, OutsOf(x.loop), q)
    && (exitJump >= 0 ==>
          exitJump < |x.d.code| && IsJump(x.d.code[exitJump]) && Has(d1, exitJump, Aimed(x.d.code[exitJump], q)))
    && x.rs != [] && forall j :: j in x.rs[|x.rs| - 1].backs && j < |x.d.code| ==> Has(d1, j, x.d.code[j])
  }

  /** The jump back and all that leads back in the loop are settled. */
  lemma EndHoles(x: Context, y: Context, z: Context)
    requires x.rs != [] && y == x.(d := y.d, rs := WithBack(x.rs, |x.d.code|)) && z == LoopEnd(y)
    ensures z.d.code == y.d.code && |x.d.code| !in z.d.holes
    ensures forall j :: j in x.rs[|x.rs| - 1].backs ==> j !in z.d.holes
  {
    LoopEndKeeps(y);
  }

  /** From z on the exit is patched (w), and then the breaks. */
  lemma TailPatched(x: Context, z: Context, w: Context, v: Context, start: nat, exitJump: int, d0: Draft)
    requires Tail(x, start, exitJump, d0) && z.d.code == x.d.code + [Jump(start)] && |x.d.code| !in z.d.holes
    requires forall j :: j in x.rs[|x.rs| - 1].backs ==> j !in z.d.holes
    requires if exitJump >= 0 then exitJump < |z.d.code| && IsJump(z.d.code[exitJump]) && w.d == Patched(z.d, exitJump)
             else w.d == z.d
    requires var breaks := x.loop.value.breakJumps;
      && |v.d.code| == |w.d.code| && v.d.holes == w.d.holes - (set j | j in breaks)
      && (forall i :: 0 <= i < |breaks| ==> LeadsTo(v.d.code, breaks[i], |v.d.code|))
      && (forall j :: 0 <= j < |v.d.code| && j !in breaks ==> v.d.code[j] == w.d.code[j])
      && (forall j :: 0 <= j < |v.d.code| ==> (v.d.code[j].Jump? <==> w.d.code[j].Jump?))
      && forall j :: j in breaks ==> j < |x.d.code| && j != exitJump
    ensures TailLaid(x, v.d, start, exitJump)
  {
    hide Good, ScopesOk, Sound;
    var r, breaks := x.rs[|x.rs| - 1], x.loop.value.breakJumps;
    assert RegionOk(x.d, r, CapturedSlots(x.locals)) by { TailRegion(x, start, exitJump, d0); }
    forall j | j in OutsOf(x.loop) ensures Has(v.d, j, Jump(|v.d.code|)) {
      assert j in r.outs + r.backs;
      assert Leaves(x.d, r, CapturedSlots(x.locals), j);
    }
  }

  lemma TailRegion(x: Context, start: nat, exitJump: int, d0: Draft)
    requires Tail(x, start, exitJump, d0)
    ensures RegionOk(x.d, x.rs[|x.rs| - 1], CapturedSlots(x.locals))
  {
  }

  /** The jumps of the continues are patched, from y to z. */
  lemma ContsLead(x: Context, y: Context, z: Context)
    requires Valid(x) && x.loop.Some? && x.rs != [] && y.d == x.d && y.loop == x.loop == z.loop
    requires var conts := x.loop.value.continueJumps;
      && |z.d.code| == |x.d.code| && z.d.holes == x.d.holes - (set j | j in conts)
      && (forall i :: 0 <= i < |conts| ==> LeadsTo(z.d.code, conts[i], |z.d.code|))
      && (forall j :: 0 <= j < |z.d.code| ==> (z.d.code[j].Jump? <==> x.d.code[j].Jump?))
    ensures AllLead(z.d, set j | j in x.loop.value.continueJumps, |z.d.code|)
  {
    var r := x.rs[|x.rs| - 1];
    assert RegionOk(x.d, r, CapturedSlots(x.locals)) by { LastRegion(x, 0); }
    forall j | j in x.loop.value.continueJumps ensures Has(z.d, j, Jump(|z.d.code|)) {
      assert j in r.outs + r.backs;
      assert Leaves(x.d, r, CapturedSlots(x.locals), j);
    }
  }

  lemma FollowedDoWhile(xL: Context, xD: Context)
    requires Followed(xL, xD) && xL.loop.Some? && xL.loop.value.isDoWhile
    ensures xD.loop.Some? && xD.loop.value.isDoWhile && BacksOf(xD.loop) == (set j | j in xD.loop.value.continueJumps)
    ensures |xL.d.code| <= |xD.d.code|
  {
  }

  lemma TailHoles(x: Context, start: nat, d0: Draft)
    requires Tail(x, start, -1, d0)
    ensures forall j :: j in x.d.holes ==> j < |x.d.code|
  {
    hide ScopesOk, Listed;
    HolesBelow(x, 0);
  }

  lemma KeepsAll(d: Draft, d1: Draft, d2: Draft, d3: Draft)
    requires Keeps(d, d1) && Keeps(d1, d2) && Keeps(d2, d3)
    ensures Stays(d, d3) && Stays(d1, d3) && Stays(d2, d3)
  {
    hide Keeps;
    KeepsTwice(d, d1, d2);
    KeepsTwice(d, d2, d3);
    KeepsTwice(d1, d2, d3);
    KeepsStays(d, d3);
    KeepsStays(d1, d3);
    KeepsStays(d2, d3);
  }

  /** A do-while loop: its body (xD), its continues patched (xR), its condition and jump (xE), and its end. */
  lemma DoWhileLaid(x0: Context, xD: Context, xR: Context, xE: Context, d: Draft, body: Stmt, cond: Expr, names: seq<Text>,
                    outs: set<nat>, conts: set<nat>)
    requires xD.loop.Some? && xD.loop.value.isDoWhile && xE.loop == xD.loop
    requires Laid(xD.d, body, names, |x0.d.code|, |xD.d.code|, OutsOf(xD.loop), BacksOf(xD.loop))
    requires |xR.d.code| == |xD.d.code| && AllLead(xR.d, BacksOf(xD.loop), |xD.d.code|)
    requires (forall j :: j in xR.d.holes ==> j < |xR.d.code|) && Stays(xD.d, d) && Stays(xR.d, d) && Stays(xE.d, d)
    requires xE.d.code == xR.d.code + Asked(cond, names) + [JumpIfFalsePop(0)] && xE.d.holes == xR.d.holes + {|xR.d.code| + 1}
    requires TailLaid(xE, d, |x0.d.code|, |xR.d.code| + 1) && |x0.d.code| <= |xD.d.code|
    ensures Laid(d, DoWhile(body, cond), names, |x0.d.code|, |d.code|, outs, conts)
  {
    hide Laid, SlotsUsed, Stays, OutsOf, BacksOf;
    var p, m, q := |x0.d.code|, |xD.d.code|, |d.code|;
    LaidStays(xD.d, d, body, names, p, m, OutsOf(xD.loop), BacksOf(xD.loop), OutsOf(xD.loop), BacksOf(xD.loop));
    CondLaid(xR.d, xE.d, cond, names);
    HasStays(xE.d, d, m, Asked(cond, names));
    LeadStays(xR.d, d, BacksOf(xD.loop), m);
    assert LaidDoWhile(d, cond, names, p, q, OutsOf(xD.loop), BacksOf(xD.loop));
    DoWhileIs(d, cond, body, names, p, q, OutsOf(xD.loop), BacksOf(xD.loop), outs, conts);
  }

  lemma DoWhileIs(d: Draft, cond: Expr, body: Stmt, names: seq<Text>, p: nat, q: nat, o: set<nat>, r: set<nat>,
                  outs: set<nat>, conts: set<nat>)
    requires LaidDoWhile(d, cond, names, p, q, o, r) && Laid(d, body, names, p, q - 3, o, r) && q <= |d.code|
    ensures Laid(d, DoWhile(body, cond), names, p, q, outs, conts)
  {
    hide AllLead, HasAll;
  }

  /** The increment of a for loop: a jump over it, the increment, and a jump back to the test. */
  ghost predicate StepLaid(x: Context, z: Context, step: Expr, names: seq<Text>, loopStart: nat, start: nat) {
    var n := |x.d.code|;
    && |z.d.code| == n + 4 && start == n + 1
    && Has(z.d, n, Jump(n + 4)) && HasAll(z.d, n + 1, Asked(step, names) + [Consume]) && z.d.code[n + 3] == Jump(loopStart)
    && z.rs != [] && n + 3 in z.rs[|z.rs| - 1].backs
    && forall j :: 0 <= j < n ==> z.d.code[j] == x.d.code[j]
  }

  lemma StepBuilt(x: Context, w: Context, v: Context, z: Context, step: Expr, names: seq<Text>, loopStart: nat)
    requires forall j :: j in x.d.holes ==> j < |x.d.code|
    requires w.d.code == x.d.code + [Jump(0)] + Asked(step, names) + [Consume] && w.d.holes == x.d.holes + {|x.d.code|}
    requires v.d.code == w.d.code + [Jump(loopStart)] && v.d.holes == w.d.holes + {|w.d.code|} && w.rs != []
    requires v.rs == WithBack(w.rs, |w.d.code|) && z.rs == v.rs
    requires |x.d.code| < |v.d.code| && IsJump(v.d.code[|x.d.code|]) && z.d == Patched(v.d, |x.d.code|)
    ensures StepLaid(x, z, step, names, loopStart, |x.d.code| + 1)
  {
    hide SlotsUsed;
  }

  /** The initializer of a for loop, and the loop behind it. */
  ghost predicate ForReady(d: Draft, s: Stmt, names: seq<Text>, p: nat, outs: set<nat>, backs: set<nat>)
    requires s.For?
  {
    exists m: nat :: LaidAll(d, s.init, names, false, p, m, outs, backs) &&
                     LaidFor(d, s.test, s.step, s.body, names + Declared(s.init, false), m, |d.code|)
  }

  lemma ForEnds(y: Draft, d: Draft, s: Stmt, names: seq<Text>, p: nat, outs: set<nat>, backs: set<nat>)
    requires s.For? && ForReady(y, s, names, p, outs, backs) && Keeps(y, d) && Silent(d, |y.code|, |d.code|) && p <= |d.code|
    ensures Laid(d, s, names, p, |d.code|, outs, backs)
  {
    hide LaidAll, LaidFor, Silent, Stays, Computed, Declared;
    var m: nat :| LaidAll(y, s.init, names, false, p, m, outs, backs) &&
                  LaidFor(y, s.test, s.step, s.body, names + Declared(s.init, false), m, |y.code|);
    LaidAllStays(y, d, s.init, names, false, p, m, outs, backs, outs, backs);
    LaidForStays(y, d, s.test, s.step, s.body, names + Declared(s.init, false), m, |y.code|);
  }

  /** From the end of the initializer (xI) over the test (xC) and the increment (xS). */
  lemma ForBuilt(s: Stmt, names: seq<Text>, p: nat, xI: Context, xC: Context, xS: Context, z: Context, exitJump: int,
                 start: nat, o: set<nat>, r: set<nat>)
    requires s.For? && (forall j :: j in xI.d.holes ==> j < |xI.d.code|)
    requires LaidAll(xI.d, s.init, names, false, p, |xI.d.code|, OutsOf(xI.loop), BacksOf(xI.loop))
    requires var inner := names + Declared(s.init, false);
      && (if s.test.Some? then
            && xC.d.code == xI.d.code + Asked(s.test.value, inner) + [JumpIfFalsePop(0)]
            && xC.d.holes == xI.d.holes + {|xI.d.code| + 1} && exitJump == |xI.d.code| + 1
          else xC.d == xI.d && exitJump == -1)
      && (if s.step.Some? then StepLaid(xC, xS, s.step.value, inner, |xI.d.code|, start)
          else xS == xC && start == |xI.d.code|)
      && xS.rs != []
      && LoopLaid(xS.d, z.d, s.body, inner, start, exitJump, xS.rs[|xS.rs| - 1].backs, o, r)
    requires Stays(xI.d, z.d) && Stays(xC.d, z.d) && Stays(xS.d, z.d)
    requires OutsOf(xI.loop) <= OutsOf(z.loop) && BacksOf(xI.loop) <= BacksOf(z.loop)
    ensures ForReady(z.d, s, names, p, OutsOf(z.loop), BacksOf(z.loop))
  {
    hide Laid, LaidAll, SlotsUsed, Stays, OutsOf, BacksOf, Declared, AllLead;
    var inner, m, q := names + Declared(s.init, false), |xI.d.code|, |z.d.code|;
    LaidAllStays(xI.d, z.d, s.init, names, false, p, m, OutsOf(xI.loop), BacksOf(xI.loop), OutsOf(z.loop), BacksOf(z.loop));
    HeadBuilt(s.test, s.step, inner, xI, xC, xS, z.d, s.body, exitJump, start, o, r);
    ForIs(z.d, s.test, s.step, s.body, inner, m, q, o, r);
  }

  lemma ForIs(d: Draft, test: Option<Expr>, step: Option<Expr>, b: Stmt, names: seq<Text>, p: nat, q: nat, o: set<nat>,
              r: set<nat>)
    requires LaidHead(d, test, step, names, p, q, o, r) && q > 0 && Laid(d, b, names, BodyAt(test, step, p), q - 1, o, r)
    ensures LaidFor(d, test, step, b, names, p, q)
  {
    hide Laid, LaidHead, BodyAt;
  }

  lemma HeadBuilt(test: Option<Expr>, step: Option<Expr>, names: seq<Text>, xI: Context, xC: Context, xS: Context, d: Draft,
                  b: Stmt, exitJump: int, start: nat, o: set<nat>, r: set<nat>)
    requires forall j :: j in xI.d.holes ==> j < |xI.d.code|
    requires if test.Some? then
               && xC.d.code == xI.d.code + Asked(test.value, names) + [JumpIfFalsePop(0)]
               && xC.d.holes == xI.d.holes + {|xI.d.code| + 1} && exitJump == |xI.d.code| + 1
             else xC.d == xI.d && exitJump == -1
    requires if step.Some? then StepLaid(xC, xS, step.value, names, |xI.d.code|, start)
             else xS == xC && start == |xI.d.code|
    requires xS.rs != [] && LoopLaid(xS.d, d, b, names, start, exitJump, xS.rs[|xS.rs| - 1].backs, o, r)
    requires Stays(xC.d, d) && Stays(xS.d, d)
    ensures var p := |xI.d.code|;
            LaidHead(d, test, step, names, p, |d.code|, o, r) && |d.code| > 0 &&
            Laid(d, b, names, BodyAt(test, step, p), |d.code| - 1, o, r)
  {
    hide Laid, SlotsUsed, Stays, AllLead, HasAll;
    var p, x := |xI.d.code|, |xC.d.code|;
    if test.Some? {
      CondLaid(xI.d, xC.d, test.value, names);
      HasStays(xC.d, d, p, Asked(test.value, names));
    }
    if step.Some? {
      OneStays(xS.d, d, x, Jump(x + 4));
      HasStays(xS.d, d, x + 1, StepOps(step, names));
    }
  }

  /** A loop whose code from before on is its body and the jump back to start; backs are what led back in it before. */
  ghost predicate LoopLaid(d0: Draft, d1: Draft, body: Stmt, names: seq<Text>, start: nat, exitJump: int, backs: set<nat>,
                           o: set<nat>, r: set<nat>) {
    var q := |d1.code|;
    && |d0.code| < q && Laid(d1, body, names, |d0.code|, q - 1, o, r) && AllLead(d1, o, q) && AllLead(d1, r, start)
    && Has(d1, q - 1, Jump(start))
    && (exitJump >= 0 ==>
          exitJump < |d0.code| && IsJump(d0.code[exitJump]) && Has(d1, exitJump, Aimed(d0.code[exitJump], q)))
    && forall j :: j in backs && j < |d0.code| ==> Has(d1, j, d0.code[j])
  }

  /** The body is compiled from xL to xD, and the loop ends at d. */
  lemma BodyLaid(xL: Context, xD: Context, d: Draft, body: Stmt, names: seq<Text>, start: nat, exitJump: int)
    requires Valid(xD) && Followed(xL, xD) && xD.rs != [] && xD.loop.Some? && xL.rs != [] && xL.loop.Some?
    requires !xL.loop.value.isDoWhile && xL.loop.value.start == start
    requires Laid(xD.d, body, names, |xL.d.code|, |xD.d.code|, OutsOf(xD.loop), BacksOf(xD.loop))
    requires TailLaid(xD, d, start, exitJump) && Stays(xD.d, d)
    requires exitJump >= 0 ==> exitJump < |xL.d.code| && IsJump(xL.d.code[exitJump])
    ensures LoopLaid(xL.d, d, body, names, start, exitJump, xL.rs[|xL.rs| - 1].backs, OutsOf(xD.loop), BacksOf(xD.loop))
  {
    hide Laid, Core, Stays;
    LaidStays(xD.d, d, body, names, |xL.d.code|, |xD.d.code|, OutsOf(xD.loop), BacksOf(xD.loop), OutsOf(xD.loop),
              BacksOf(xD.loop));
    assert forall j :: 0 <= j < |xL.d.code| ==> xD.d.code[j] == xD.d.code[..|xL.d.code|][j] == xL.d.code[j];
    forall j | j in BacksOf(xD.loop) ensures Has(d, j, Jump(start)) {
      assert j in xD.rs[|xD.rs| - 1].backs && xD.d.code[j] == Jump(start);
    }
  }

  lemma WhileLaid(d: Draft, dC: Draft, d1: Draft, cond: Expr, body: Stmt, names: seq<Text>, backs: set<nat>, o: set<nat>,
                  r: set<nat>, outs: set<nat>, conts: set<nat>)
    requires (forall j :: j in d.holes ==> j < |d.code|) && Stays(dC, d1)
    requires dC.code == d.code + Asked(cond, names) + [JumpIfFalsePop(0)] && dC.holes == d.holes + {|d.code| + 1}
    requires LoopLaid(dC, d1, body, names, |d.code|, |d.code| + 1, backs, o, r)
    ensures Laid(d1, While(cond, body), names, |d.code|, |d1.code|, outs, conts)
  {
    hide Laid, SlotsUsed, Stays;
    var p, q := |d.code|, |d1.code|;
    CondLaid(d, dC, cond, names);
    HasStays(dC, d1, p, Asked(cond, names));
    assert LaidWhile(d1, cond, names, p, q, o, r);
    WhileIs(d1, cond, body, names, p, q, o, r, outs, conts);
  }

  lemma WhileIs(d: Draft, cond: Expr, body: Stmt, names: seq<Text>, p: nat, q: nat, o: set<nat>, r: set<nat>, outs: set<nat>,
                conts: set<nat>)
    requires LaidWhile(d, cond, names, p, q, o, r) && Laid(d, body, names, p + 2, q - 1, o, r) && q <= |d.code|
    ensures Laid(d, While(cond, body), names, p, q, outs, conts)
  {
    hide AllLead, HasAll;
  }

  /** A condition and its jump, which is still to be patched. */
  lemma CondLaid(d: Draft, dC: Draft, cond: Expr, names: seq<Text>)
    requires forall j :: j in d.holes ==> j < |d.code|
    requires dC.code == d.code + Asked(cond, names) + [JumpIfFalsePop(0)] && dC.holes == d.holes + {|d.code| + 1}
    ensures HasAll(dC, |d.code|, Asked(cond, names))
  {
    hide SlotsUsed;
  }

  // ---- What the code is laid out for ----

  lemma FollowedLoop(x: Context, y: Context)
    requires Followed(x, y)
    ensures y.loop.Some? <==> x.loop.Some?
  {
  }

  lemma FollowedSets(x: Context, y: Context)
    requires Followed(x, y)
    ensures OutsOf(x.loop) <= OutsOf(y.loop) && BacksOf(x.loop) <= BacksOf(y.loop)
  {
    hide OutsOf, BacksOf;
  }

  lemma ValidHoles(x: Context)
    requires Valid(x)
    ensures forall j :: j in x.d.holes ==> j < |x.d.code|
  {
  }

  lemma PlainLaid(d: Draft, s: Stmt, names: seq<Text>, p: nat, outs: set<nat>, backs: set<nat>)
    ensures s.ExprStmt? && |d.code| == p + 2 && HasAll(d, p, Asked(s.e, names) + [Consume]) ==>
              Laid(d, s, names, p, |d.code|, outs, backs)
    ensures s.ReturnStmt? && |d.code| == p + 2 && HasAll(d, p, Asked(s.e, names) + [Return]) ==>
              Laid(d, s, names, p, |d.code|, outs, backs)
  {
    hide HasAll;
  }

  lemma BlockLaid(y: Draft, d: Draft, ds: Decls, names: seq<Text>, p: nat, outs: set<nat>, backs: set<nat>)
    requires LaidAll(y, ds, names, false, p, |y.code|, outs, backs) && Keeps(y, d) && Silent(d, |y.code|, |d.code|)
    requires p <= |d.code|
    ensures Laid(d, Block(ds), names, p, |d.code|, outs, backs)
  {
    hide LaidAll, Silent, Stays, Computed;
    LaidAllStays(y, d, ds, names, false, p, |y.code|, outs, backs, outs, backs);
  }

  lemma NoneLaid(d: Draft, names: seq<Text>, top: bool, outs: set<nat>, backs: set<nat>)
    ensures LaidAll(d, Done, names, top, |d.code|, |d.code|, outs, backs)
  {
  }

  lemma DeclLaid(d: Draft, decl: Decl, names: seq<Text>, top: bool, p: nat, outs: set<nat>, backs: set<nat>)
    ensures !decl.Statement? && |d.code| == p + |DeclOps(decl, names, top)| && HasAll(d, p, DeclOps(decl, names, top)) ==>
              LaidDecl(d, decl, names, top, p, |d.code|, outs, backs)
  {
    hide HasAll, DeclOps;
  }

  lemma MoreLaid(y: Draft, d: Draft, ds: Decls, names: seq<Text>, top: bool, p: nat, outs: set<nat>, backs: set<nat>,
                 outs1: set<nat>, backs1: set<nat>)
    requires ds.More? && Stays(y, d) && outs <= outs1 && backs <= backs1
    requires LaidDecl(y, ds.first, names, top, p, |y.code|, outs, backs)
    requires LaidAll(d, ds.rest, names + DeclaredBy(ds.first, top), top, |y.code|, |d.code|, outs1, backs1)
    ensures LaidAll(d, ds, names, top, p, |d.code|, outs1, backs1)
  {
    hide LaidDecl, Stays, DeclaredBy;
    LaidDeclStays(y, d, ds.first, names, top, p, |y.code|, outs, backs, outs1, backs1);
  }

  /** The code of a conditional: behind its condition (xC), its jump (xT), the then branch (xE) and the jump over the else
      branch (xP), which the first jump leads behind (xF), and behind the else branch (xG), where the second one leads. */
  lemma IfBuilt(s: Stmt, x: Context, xC: Context, xT: Context, xE: Context, xP: Context, xF: Context, xG: Context,
                z: Context)
    requires s.If? && (forall j :: j in x.d.holes ==> j < |x.d.code|) && (forall j :: j in xE.d.holes ==> j < |xE.d.code|)
    requires var names := NamesOf(x.locals);
      && xC.d.code == x.d.code + Asked(s.cond, names) && xC.d.holes == x.d.holes
      && xT.d.code == xC.d.code + [JumpIfFalsePop(0)] && xT.d.holes == xC.d.holes + {|xC.d.code|}
      && Laid(xE.d, s.thn, names, |xT.d.code|, |xE.d.code|, OutsOf(xE.loop), BacksOf(xE.loop))
      && Laid(xG.d, s.els, names, |xF.d.code|, |xG.d.code|, OutsOf(xG.loop), BacksOf(xG.loop))
    requires xP.d.code == xE.d.code + [Jump(0)] && xP.d.holes == xE.d.holes + {|xE.d.code|}
    requires |xC.d.code| < |xP.d.code| && IsJump(xP.d.code[|xC.d.code|])
    requires |xE.d.code| < |xG.d.code| && IsJump(xG.d.code[|xE.d.code|])
    requires Kept(xT.d, xE.d) && xF.d == Patched(xP.d, |xC.d.code|) && Kept(xF.d, xG.d)
    requires z.d == Patched(xG.d, |xE.d.code|)
    requires OutsOf(xE.loop) <= OutsOf(xG.loop) && BacksOf(xE.loop) <= BacksOf(xG.loop) && z.loop == xG.loop
    ensures Laid(z.d, s, NamesOf(x.locals), |x.d.code|, |z.d.code|, OutsOf(z.loop), BacksOf(z.loop))
  {
    hide Laid, SlotsUsed, NamesOf, OutsOf, BacksOf;
    var names, p, m, q := NamesOf(x.locals), |x.d.code|, |xE.d.code|, |z.d.code|;
    IfStepsStay(xC.d, xT.d, xE.d, xP.d, xF.d, xG.d, z.d);
    LaidStays(xE.d, z.d, s.thn, names, p + 2, m, OutsOf(xE.loop), BacksOf(xE.loop), OutsOf(z.loop), BacksOf(z.loop));
    LaidStays(xG.d, z.d, s.els, names, m + 1, q, OutsOf(xG.loop), BacksOf(xG.loop), OutsOf(z.loop), BacksOf(z.loop));
    OpsLaid(x.d, xC.d, Asked(s.cond, names));
    HasStays(xC.d, z.d, p, Asked(s.cond, names));
    assert LaidIf(z.d, s.cond, names, p, m, q);
    IfIs(z.d, s, names, p, m, q, OutsOf(z.loop), BacksOf(z.loop));
  }

  lemma IfIs(d: Draft, s: Stmt, names: seq<Text>, p: nat, m: nat, q: nat, outs: set<nat>, backs: set<nat>)
    requires s.If? && LaidIf(d, s.cond, names, p, m, q) && q <= |d.code|
    requires Laid(d, s.thn, names, p + 2, m, outs, backs) && Laid(d, s.els, names, m + 1, q, outs, backs)
    ensures Laid(d, s, names, p, q, outs, backs)
  {
    hide LaidIf;
    IfOrder(d, s.cond, names, p, m, q);
  }

  lemma IfOrder(d: Draft, e: Expr, names: seq<Text>, p: nat, m: nat, q: nat)
    requires LaidIf(d, e, names, p, m, q)
    ensures p <= m <= q
  {
  }

  lemma IfStepsStay(dC: Draft, dT: Draft, dE: Draft, dP: Draft, dF: Draft, dG: Draft, d: Draft)
    requires dT.code == dC.code + [JumpIfFalsePop(0)] && dT.holes == dC.holes + {|dC.code|} && Kept(dT, dE)
    requires dP.code == dE.code + [Jump(0)] && dP.holes == dE.holes + {|dE.code|}
    requires |dC.code| < |dP.code| && IsJump(dP.code[|dC.code|]) && dF == Patched(dP, |dC.code|) && Kept(dF, dG)
    requires |dE.code| < |dG.code| && IsJump(dG.code[|dE.code|]) && d == Patched(dG, |dE.code|)
    requires forall j :: j in dC.holes ==> j < |dC.code|
    requires forall j :: j in dE.holes ==> j < |dE.code|
    ensures Stays(dC, d) && Stays(dE, d) && Stays(dG, d)
    ensures Has(d, |dC.code|, JumpIfFalsePop(|dE.code| + 1)) && Has(d, |dE.code|, Jump(|d.code|))
  {
    forall p | 0 <= p < |dT.code| ensures dE.code[p] == dT.code[p] && (p in dE.holes <==> p in dT.holes) {
      assert dE.code[..|dT.code|][p] == dE.code[p];
    }
    forall p | 0 <= p < |dF.code| ensures dG.code[p] == dF.code[p] && (p in dG.holes <==> p in dF.holes) {
      assert dG.code[..|dF.code|][p] == dG.code[p];
    }
  }

  lemma HolesBelow(x: Context, temps: int)
    requires Core(x, temps)
    ensures forall j :: j in x.d.holes ==> j < |x.d.code|
  {
  }

  lemma {:induction false} DropsSilent(locals: seq<Local>, count: nat)
    ensures forall i :: 0 <= i < |Drops(locals, count)| ==>
              Drops(locals, count)[i].PopCount? || Drops(locals, count)[i].CloseUpvalue?
    decreases |locals|
  {
    if locals != [] {
      var n := |locals| - 1;
      DropsSilent(locals[..n], 0);
      DropsSilent(locals[..n], count + 1);
    }
  }

  /** Locals leave the stack. */
  lemma DropsLaid(d: Draft, d1: Draft, locals: seq<Local>)
    requires (forall j :: j in d.holes ==> j < |d.code|) && |d1.code| >= |d.code| + |Drops(locals, 0)|
    requires d1.code[..|d.code| + |Drops(locals, 0)|] == d.code + Drops(locals, 0)
    requires forall j :: j in d1.holes ==> j in d.holes || j >= |d.code| + |Drops(locals, 0)|
    ensures Silent(d1, |d.code|, |d.code| + |Drops(locals, 0)|)
  {
    DropsSilent(locals, 0);
    var n, ops := |d.code|, Drops(locals, 0);
    forall i | n <= i < n + |ops| ensures d1.code[i] == ops[i - n] { assert d1.code[..n + |ops|][i] == (d.code + ops)[i]; }
  }

  lemma ScopeLaid(d: Draft, d1: Draft, locals: seq<Local>)
    requires (forall j :: j in d.holes ==> j < |d.code|) && d1.code == d.code + Drops(locals, 0) && d1.holes == d.holes
    ensures Silent(d1, |d.code|, |d1.code|)
  {
    hide Drops;
    assert d1.code[..|d1.code|] == d1.code;
    DropsLaid(d, d1, locals);
  }

  lemma FollowedKept(x: Context, y: Context)
    requires Followed(x, y)
    ensures Kept(x.d, y.d)
  {
  }

  /** Behind the locals that leave the stack, the jump out of the loop or back in it. */
  lemma LeaveLaid(d: Draft, d1: Draft, locals: seq<Local>, target: nat, s: Stmt, names: seq<Text>, outs: set<nat>,
                  backs: set<nat>)
    requires (forall j :: j in d.holes ==> j < |d.code|) && d1.code == d.code + Drops(locals, 0) + [Jump(target)]
    requires d1.holes == d.holes + {|d1.code| - 1}
    requires if s.Break? then |d1.code| - 1 in outs else s.Continue? && |d1.code| - 1 in backs
    ensures Laid(d1, s, names, |d.code|, |d1.code|, outs, backs)
  {
    hide Drops;
    assert d1.code[..|d.code| + |Drops(locals, 0)|] == d.code + Drops(locals, 0);
    DropsLaid(d, d1, locals);
  }

  /** Instructions that follow one another. */
  lemma OpsLaid(d: Draft, d1: Draft, ops: seq<Op>)
    requires (forall j :: j in d.holes ==> j < |d.code|) && d1.code == d.code + ops && d1.holes == d.holes
    ensures HasAll(d1, |d.code|, ops)
  {
  }

  lemma WaitsFacts(x: Context, p: nat)
    requires Waits(x, p)
    ensures p < |x.d.code| && IsJump(x.d.code[p]) && p in x.d.holes
    ensures forall i :: 0 <= i < |x.rs| ==> p !in x.rs[i].outs + x.rs[i].backs
  {
  }

  lemma KeptSelf(d: Draft)
    requires |d.notes| == |d.code| + 1
    ensures Kept(d, d)
  {
  }

  lemma RoomAbove(rs: seq<Region>, n: nat, m: nat)
    requires Room(rs, n) && n <= m
    ensures Room(rs, m)
  {
  }

  /** The locals of the scope are gone. */
  lemma Shallower(x: Context)
    requires Core(x, 0) && x.depth > 0 && x.locals[|x.locals| - 1].depth < x.depth && Ready(x.locals)
    ensures Core(x.(depth := x.depth - 1), 0)
  {
    hide Good;
  }

  /** Only code has been added. */
  ghost predicate SameScope(x: Context, x1: Context) {
    x1.locals == x.locals && x1.rs == x.rs && x1.depth == x.depth && x1.loop == x.loop
  }

  // ---- What the statements rest on ----

  lemma ContsReady(x0: Context, x: Context, start: nat)
    requires Valid(x) && Tail(x, start, -1, x0.d) && InLoop(x0, x, -1)
    ensures x.rs != [] && x.loop.Some? && Ready(x.locals)
    ensures var conts := x.loop.value.continueJumps; var y := WithoutContinues(x, conts);
      && Core(y, 0) && Kept(x0.d, y.d)
      && (forall i :: 0 <= i < |conts| ==> Waits(y, conts[i]) && |x0.d.code| <= conts[i])
      && (forall i, k :: 0 <= i < k < |conts| ==> conts[i] != conts[k])
  {
    hide Core;
    var conts := x.loop.value.continueJumps;
    ContsWait(x, conts);
    var y := WithoutContinues(x, conts);
    forall i | 0 <= i < |conts| ensures Waits(y, conts[i]) && |x0.d.code| <= conts[i] { assert conts[i] in conts; }
  }

  lemma ContsDone(x0: Context, x: Context, z: Context, start: nat)
    requires Valid(x) && Tail(x, start, -1, x0.d) && InLoop(x0, x, -1) && x.loop.Some? && x.rs != []
    requires Core(z, 0) && Kept(x0.d, z.d) && z.d.notes == x.d.notes && |z.d.code| == |x.d.code|
    requires z == x.(d := z.d, rs := WithoutConts(x.rs, x.loop.value.continueJumps), pending := z.pending)
    ensures Tail(z, start, -1, x0.d) && InLoop(x0, z, -1) && Covered(z)
  {
    hide Core;
  }

  lemma TailOn(x0: Context, x: Context, y: Context, z: Context, start: nat, exitJump: nat)
    requires Tail(x, start, -1, x0.d) && InLoop(x0, x, -1)
    requires Followed(x, y) && Followed(x, z) && |z.locals| == |x.locals| && Core(z, 0)
    requires z.rs == x.rs && z.loop == x.loop && exitJump == |y.d.code| && Waits(z, exitJump)
    ensures Tail(z, start, exitJump, x0.d) && InLoop(x0, z, exitJump)
  {
    hide Core;
    CoreSize(z, 0);
    KeptTwice(x0.d, x.d, z.d);
    var n := |x.d.code|;
    assert start < n ==> z.d.notes[start] == z.d.notes[..n][start] == x.d.notes[..n][start] == x.d.notes[start];
  }

  lemma DeeperValid(x: Context)
    requires Valid(x)
    ensures Valid(x.(depth := x.depth + 1)) && Core(x, 0) && |x.d.notes| == |x.d.code| + 1
  {
    hide Good;
    CoreSize(x, 0);
  }

  /** What the end of a scope that began at x relies on. */
  lemma ScopeEnds(x: Context, y: Context)
    requires Valid(x) && Valid(y) && Followed(x.(depth := x.depth + 1), y)
    ensures Core(y, 0) && Ready(y.locals) && y.depth > 0 && 0 < |x.locals| <= |y.locals| && Room(y.rs, |x.locals|)
    ensures forall i :: 0 <= i < |x.locals| ==> y.locals[i].depth < y.depth
    ensures forall i :: |x.locals| <= i < |y.locals| ==> y.locals[i].depth == y.depth
  {
    hide Good;
    forall i | 0 <= i < |y.rs| ensures y.rs[i].height <= |x.locals| {
      assert i < |y.rs| - 1 ==> y.rs[i] == y.rs[..|y.rs| - 1][i] == x.rs[..|y.rs| - 1][i] == x.rs[i];
    }
  }

  lemma ScopeDone(x: Context, y: Context, z: Context)
    requires Valid(x) && Valid(y) && Followed(x.(depth := x.depth + 1), y) && |x.locals| <= |y.locals| && y.depth > 0
    requires Core(z, 0) && Kept(y.d, z.d)
    requires z == y.(d := z.d, locals := y.locals[..|x.locals|], depth := y.depth - 1)
    ensures Valid(z) && Followed(x, z) && |z.locals| == |x.locals|
  {
    hide Good;
    KeptTwice(x.d, y.d, z.d);
    if y.loop.Some? { StartKept(y, z); }
  }

  /** Behind code without jumps that leave a loop, the jump lists are as good as before. */
  lemma ValidOn(x: Context, y: Context)
    requires Valid(x) && Followed(x, y) && Core(y, 0) && y.rs == x.rs && y.loop == x.loop && |y.locals| == |x.locals|
    ensures Valid(y)
  {
    hide Good;
    if x.loop.Some? { StartKept(x, y); }
  }

  lemma ReturnEmitted(x: Context)
    requires Core(x, 1)
    ensures Core(Emitted(x, Return, 0), 0) && Followed(x, Emitted(x, Return, 0))
  {
    hide Good, ScopesOk;
    CoreSize(x, 1);
    SlotsBelow(x.locals);
    AddedGood(x.d, x.rs, CapturedSlots(x.locals), Return, Noted(x, 0));
    AddedKept(x.d, Return, Noted(x, 0));
  }

  lemma JumpsApart(x: Context, xC: Context, xE: Context, thenJump: nat, elseJump: nat)
    requires Followed(x, xC) && thenJump == |xC.d.code| && Waits(xE, thenJump) && elseJump == |xE.d.code|
    requires Followed(x, xE)
    ensures |x.d.code| <= thenJump != elseJump && |x.d.code| <= elseJump
  {
  }

  lemma JumpsValid(x: Context, xP: Context, xF: Context, p: nat)
    requires Valid(x) && Followed(x, xP) && Core(xF, 0) && Followed(x, xF) && SameScope(xP, xF) && |xP.locals| == |x.locals|
    requires Valid(xP) && Waits(xP, p) && xF.d == Patched(xP.d, p)
    ensures Valid(xF)
  {
    hide Good;
  }

  lemma VarDone(x: Context, y: Context, z: Context, w: Context, name: Text)
    requires Valid(x) && x.depth > 0 && y == x.(locals := x.locals + [Local(name, -1, false)])
    requires Core(z, 0) && Followed(y, z) && |z.locals| == |y.locals| && z.rs == x.rs && z.loop == x.loop
    requires w == z.(locals := z.locals[|z.locals| - 1 := z.locals[|z.locals| - 1].(depth := x.depth)])
    ensures Valid(w) && Followed(x, w)
  {
    hide Good;
    LocalReady(z, w.locals);
    if x.loop.Some? { StartKept(x, w); }
  }

  lemma FunDone(x: Context, y: Context, z: Context, name: Text)
    requires Valid(x) && x.depth > 0 && y == x.(locals := x.locals + [Local(name, x.depth, false)])
    requires Core(z, 0) && Followed(y, z) && |z.locals| == |y.locals| && z.rs == x.rs && z.loop == x.loop
    ensures Valid(z) && Followed(x, z)
  {
    hide Good;
    if x.loop.Some? { StartKept(x, z); }
  }

  lemma StepReady(x0: Context, x: Context, y: Context, w: Context, loopStart: nat, exitJump: int, bodyJump: nat)
    requires Opened(x0, x, loopStart, exitJump) && Followed(x, y) && Waits(y, bodyJump) && bodyJump == |x.d.code|
    requires y.rs == x.rs == w.rs && Core(w, 0) && Followed(x, w) && Followed(y, w)
    requires |y.locals| == |x.locals| == |w.locals| && Core(y, 0)
    ensures Opened(x0, w, loopStart, exitJump) && Opened(x0, w, |y.d.code|, exitJump) && Waits(w, bodyJump)
    ensures w.rs != [] && ScopesOk(w.locals, w.depth) && Begins(w.locals, w.locals) && |w.d.notes| == |w.d.code| + 1
    ensures var r := w.rs[|w.rs| - 1]; r.height == |w.locals| && r.top <= loopStart <= |w.d.code|
    ensures w.d.notes[loopStart].height == |w.locals|
    ensures bodyJump != exitJump && |x0.d.code| <= bodyJump
  {
    OpenedOn(x0, x, w, loopStart, exitJump);
    WaitsOn(y, w, bodyJump);
  }

  lemma StepBack(x0: Context, w: Context, v: Context, loopStart: nat, start: nat, exitJump: int, bodyJump: nat)
    requires Opened(x0, w, start, exitJump) && Waits(w, bodyJump) && Core(v, 0) && Kept(w.d, v.d) && w.rs != []
    requires v == w.(d := v.d, rs := WithBack(w.rs, |w.d.code|))
    ensures Opened(x0, v, start, exitJump) && Waits(v, bodyJump) && Kept(x0.d, v.d)
    ensures exitJump >= 0 ==> Waits(v, exitJump)
  {
    hide Core;
    KeptTwice(x0.d, w.d, v.d);
    WaitsBack(w, v, bodyJump);
    if exitJump >= 0 { WaitsBack(w, v, exitJump); }
    var n := |w.d.code|;
    assert start < n ==> v.d.notes[start] == v.d.notes[..n][start] == w.d.notes[..n][start] == w.d.notes[start];
  }

  lemma StepDone(x0: Context, v: Context, z: Context, start: nat, exitJump: int)
    requires Opened(x0, v, start, exitJump) && Core(z, 0) && Kept(x0.d, z.d) && SameScope(v, z)
    requires z.d.notes == v.d.notes && |z.d.code| == |v.d.code| && (exitJump >= 0 ==> Waits(z, exitJump))
    ensures Opened(x0, z, start, exitJump)
  {
    hide Core;
  }
}
