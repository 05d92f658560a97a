/** The compiler's local variables and enclosing loop, and what compiling an item does to them. */
module Scopes {
  import opened Types
  import opened Values
  import opened Syntax
  import opened Semantics
  import opened Bytecode
  import opened Peephole
  import opened Simulation
  import opened Layout
  import opened Items
  import opened Tails
  import opened Buffer
  import opened Regions
  import opened Statements
  import opened Branches

  const LOCAL_MAX := 255
  const UINT16_MAX := 0xFFFF

  /** The capacity of the jump lists of a loop doubles from 8 on, and must stay below 2 to the 16. */
  const JUMPS_MAX := 0x8000

  /** A local variable; its depth is -1 while its initializer is being compiled. */
  datatype Local = Local(name: Text, depth: int, isConst: bool)

  datatype LoopContext = LoopContext(start: nat, enterParamCount: nat, breakJumps: seq<nat>, continueJumps: seq<nat>,
                                     isDoWhile: bool)

  // ---- Locals ----

  /** The names of the locals that can be used: not that of the one being initialized. */
  ghost function InitializedNames(locals: seq<Local>): (names: seq<Text>)
    ensures |names| == |locals| || (|names| + 1 == |locals| && locals[|names|].depth == -1)
    ensures forall i :: 0 <= i < |names| ==> names[i] == locals[i].name
  {
    if locals == [] then []
    else
      var n := if locals[|locals| - 1].depth == -1 then |locals| - 1 else |locals|;
      seq(n, i requires 0 <= i < n => locals[i].name)
  }

  ghost predicate LocalsValid(locals: seq<Local>, scopeDepth: nat) {
    && 1 <= |locals| <= LOCAL_MAX
    && (forall i :: 0 <= i < |locals| - 1 ==> locals[i].depth >= 0)
    && (forall i, j :: 0 <= i < j < |locals| && locals[j].depth >= 0 ==> locals[i].depth <= locals[j].depth)
    && (forall i :: 0 <= i < |locals| ==> -1 <= locals[i].depth <= scopeDepth)
    && locals[0].depth == 0
  }

  lemma NamesFit(locals: seq<Local>, scopeDepth: nat)
    requires LocalsValid(locals, scopeDepth)
    ensures |InitializedNames(locals)| <= |locals| <= 255
  {
  }

  lemma InnermostIs(names: seq<Text>, name: Text, i: int)
    requires -1 <= i < |names|
    requires i >= 0 ==> names[i] == name
    requires forall j :: i < j < |names| ==> names[j] != name
    ensures Innermost(names, name) == i
  {
    hide Innermost;
    var k := Innermost(names, name);
    forall j | k < j < |names| ensures names[j] != name {
      assert k < 0 ==> names[j] in names;
      assert k >= 0 ==> names[k + 1..][j - k - 1] == names[j] && names[j] in names[k + 1..];
    }
  }

  ghost predicate Ready(locals: seq<Local>) {
    forall i :: 0 <= i < |locals| ==> locals[i].depth >= 0
  }

  lemma ReadyNames(locals: seq<Local>)
    requires Ready(locals)
    ensures |InitializedNames(locals)| == |locals|
  {
  }

  /** The names with a new local, before and behind its initialization. */
  lemma NamesAdded(locals: seq<Local>, name: Text, depth: nat, isConst: bool)
    requires Ready(locals)
    ensures InitializedNames(locals + [Local(name, -1, false)]) == InitializedNames(locals)
    ensures InitializedNames(locals + [Local(name, depth, isConst)]) == InitializedNames(locals) + [name]
  {
    ReadyNames(locals);
  }

  lemma LocalsAdded(locals: seq<Local>, scopeDepth: nat, name: Text, isConst: bool)
    requires LocalsValid(locals, scopeDepth) && Ready(locals) && |locals| < LOCAL_MAX
    ensures LocalsValid(locals + [Local(name, -1, false)], scopeDepth)
    ensures LocalsValid(locals + [Local(name, scopeDepth, isConst)], scopeDepth)
    ensures Ready(locals + [Local(name, scopeDepth, isConst)])
  {
  }

  // ---- The context ----

  datatype Context = Context(chunk: Chunk, locals: seq<Local>, depth: nat, loop: Option<LoopContext>)

  function FrameOf(loop: Option<LoopContext>): Frame {
    if loop.None? then Frame(0, None)
    else Frame(loop.value.enterParamCount, if loop.value.isDoWhile then None else Some(loop.value.start))
  }

  function Grown(loop: Option<LoopContext>, holes: Holes): Option<LoopContext> {
    if loop.None? then None
    else
      var l := loop.value;
      Some(l.(breakJumps := l.breakJumps + holes.breaks, continueJumps := l.continueJumps + holes.conts))
  }

  predicate LooseItem(item: Item) {
    match item
    case OfStmt(s) => Loose(s)
    case OfDecl(d, _) => d.Statement? && Loose(d.s)
    case OfDecls(ds, _) => LooseDecls(ds)
  }

  /** Every local is initialized, and the enclosing loop started before whatever can still be rewritten. */
  ghost predicate Sound(x: Context) {
    && LocalsValid(x.locals, x.depth) && Ready(x.locals)
    && (x.loop.Some? ==>
          var l := x.loop.value;
          l.enterParamCount <= |x.locals| && l.start <= |x.chunk.code| &&
          (|x.locals| > l.enterParamCount ==> l.start <= Settled(x.chunk)))
  }

  /** Only in a loop, behind its first local, can an item start by rewriting; only there are there holes. */
  predicate Tidy(loop: Option<LoopContext>, n: nat, tin: seq<Instr>, holes: Holes) {
    && (tin != [] ==> loop.Some? && n == loop.value.enterParamCount + 1)
    && (loop.None? ==> holes == NO_HOLES)
    && (loop.Some? && !loop.value.isDoWhile ==> holes.conts == [])
  }

  /** The locals are still there, perhaps below new ones of the current scope. */
  ghost predicate Kept(l0: seq<Local>, l1: seq<Local>, depth: nat) {
    |l0| <= |l1| && l1[..|l0|] == l0 && forall i :: |l0| <= i < |l1| ==> l1[i].depth == depth
  }

  /** The locals that a declaration adds to the scope it stands in. */
  function LocalOf(d: Decl, top: bool, depth: nat): seq<Local> {
    if d.Var? && !top then [Local(d.name, depth, d.isConst)] else []
  }

  function LocalsOf(ds: Decls, top: bool, depth: nat): seq<Local> {
    match ds
    case Done => []
    case More(d, rest) => LocalOf(d, top, depth) + LocalsOf(rest, top, depth)
  }

  function NewLocals(item: Item, depth: nat): seq<Local> {
    match item
    case OfStmt(_) => []
    case OfDecl(d, top) => LocalOf(d, top, depth)
    case OfDecls(ds, top) => LocalsOf(ds, top, depth)
  }

  /** What an item does to the context apart from the chunk. */
  ghost predicate Followed(x0: Context, x1: Context, item: Item, tin: seq<Instr>, holes: Holes) {
    && x1.depth == x0.depth && x1.loop == Grown(x0.loop, holes)
    && LocalsValid(x1.locals, x1.depth) && Ready(x1.locals) && Kept(x0.locals, x1.locals, x1.depth)
    && InitializedNames(x1.locals) == InitializedNames(x0.locals) + NewNames(item)
    && x1.locals == x0.locals + NewLocals(item, x0.depth)
    && Tidy(x0.loop, |x0.locals|, tin, holes)
    && (x0.loop.None? ==> !LooseItem(item))
  }

  /** Compiling the item took context x0 to x1. */
  ghost predicate Achieved(A: Arith, x0: Context, x1: Context, item: Item, tin: seq<Instr>, holes: Holes) {
    Processed(A, x0.chunk, x1.chunk, tin, item, InitializedNames(x0.locals), FrameOf(x0.loop), holes) &&
    Followed(x0, x1, item, tin, holes)
  }

  /** What the start of a loop has to be before, is. */
  lemma SoundAfter(A: Arith, x0: Context, x1: Context, item: Item, tin: seq<Instr>, holes: Holes)
    requires Sound(x0) && Achieved(A, x0, x1, item, tin, holes) && EndsWith(x0.chunk.code, x0.chunk.tail)
    ensures Sound(x1)
  {
    hide Compiles, LocalsValid, EndsWith, SizeAll, Pending, Settled, SafeItem, LooseItem, Within, Apart, TrivialItem, NewNames;
    NoSize();
    var c0, c1 := x0.chunk, x1.chunk;
    ReadyNames(x0.locals);
    ReadyNames(x1.locals);
    SettledGrows(A, c0, c1, tin, item, InitializedNames(x0.locals), FrameOf(x0.loop), holes);
    SettledEnd(c0);
    if Skipped(c0, c1, tin, item, holes) { SkippedNames(item); }
  }

  lemma SkippedNames(item: Item)
    requires TrivialItem(item)
    ensures NewNames(item) == []
  {
    if item.OfDecls? { TrivialNames(item.ds, item.top); }
  }

  /** Behind an item without new names the locals are the same. */
  lemma SameLocals(A: Arith, x0: Context, x1: Context, item: Item, tin: seq<Instr>, holes: Holes)
    requires Ready(x0.locals) && Achieved(A, x0, x1, item, tin, holes) && NewNames(item) == []
    ensures x1.locals == x0.locals
  {
    hide Processed, LocalsValid, LooseItem;
    ReadyNames(x0.locals);
    ReadyNames(x1.locals);
    assert x1.locals[..|x0.locals|] == x1.locals;
  }

  /** A statement that keeps locals and loop. */
  lemma PlainAchieved(A: Arith, x0: Context, x1: Context, s: Stmt)
    requires Sound(x0) && Built(A, x0.chunk, x1.chunk, [], OfStmt(s), InitializedNames(x0.locals), FrameOf(x0.loop), NO_HOLES)
    requires x1.locals == x0.locals && x1.depth == x0.depth && x1.loop == x0.loop && !Loose(s)
    ensures Achieved(A, x0, x1, OfStmt(s), [], NO_HOLES)
  {
    hide Built, LocalsValid, Settled, Loose;
    GrownNot(x0.loop);
    assert x1.locals[..|x0.locals|] == x0.locals;
    assert InitializedNames(x0.locals) + [] == InitializedNames(x0.locals);
  }

  lemma StatementAchieved(A: Arith, x0: Context, x1: Context, s: Stmt, top: bool, tin: seq<Instr>, holes: Holes)
    requires Achieved(A, x0, x1, OfStmt(s), tin, holes)
    ensures Achieved(A, x0, x1, OfDecl(Statement(s), top), tin, holes)
  {
    hide Processed, LocalsValid, Loose;
    StatementProcessed(A, x0.chunk, x1.chunk, tin, s, top, InitializedNames(x0.locals), FrameOf(x0.loop), holes);
  }

  lemma DoneAchieved(A: Arith, x0: Context, top: bool)
    requires Sound(x0)
    ensures Achieved(A, x0, x0, OfDecls(Done, top), [], NO_HOLES)
  {
    hide LocalsValid, Settled, Grown, FrameOf;
    DoneProcessed(x0.chunk, top);
    GrownNot(x0.loop);
    assert x0.locals[..|x0.locals|] == x0.locals;
    assert InitializedNames(x0.locals) + [] == InitializedNames(x0.locals);
  }

  lemma MoreAchieved(A: Arith, x0: Context, x1: Context, x2: Context, d: Decl, ds: Decls, top: bool,
                     tin: seq<Instr>, tmid: seq<Instr>, h: Holes, k: Holes)
    requires Sound(x0) && Achieved(A, x0, x1, OfDecl(d, top), tin, h) && Achieved(A, x1, x2, OfDecls(ds, top), tmid, k)
    requires EndsWith(x0.chunk.code, x0.chunk.tail) && EndsWith(x1.chunk.code, x1.chunk.tail)
    requires EndsWith(x2.chunk.code, x2.chunk.tail)
    ensures var t := if Skipped(x0.chunk, x1.chunk, tin, OfDecl(d, top), h) then tmid else tin;
            Achieved(A, x0, x2, OfDecls(More(d, ds), top), t, h.Append(k))
  {
    hide Processed, Skipped, EndsWith, Followed, Sound;
    var names := InitializedNames(x0.locals);
    FrameFits(x0);
    MoreContext(x0, x1, d, ds, top, tin, h);
    MoreProcessed(A, x0.chunk, x1.chunk, x2.chunk, tin, tmid, d, ds, top, names, FrameOf(x0.loop), h, k);
    var skip := Skipped(x0.chunk, x1.chunk, tin, OfDecl(d, top), h);
    if skip {
      SkippedItem(x0.chunk, x1.chunk, tin, OfDecl(d, top), h);
      SameLocals(A, x0, x1, OfDecl(d, top), tin, h);
    }
    MoreFollowed(x0, x1, x2, d, ds, top, tin, tmid, h, k);
  }

  lemma MoreContext(x0: Context, x1: Context, d: Decl, ds: Decls, top: bool, tin: seq<Instr>, h: Holes)
    requires Followed(x0, x1, OfDecl(d, top), tin, h) && Sound(x0)
    ensures InitializedNames(x1.locals) == Extended(InitializedNames(x0.locals), d, top)
    ensures FrameOf(x1.loop) == FrameOf(x0.loop) && Ready(x0.locals)
  {
    hide LocalsValid, Loose, Ready, InitializedNames, Tidy, Kept, Settled;
    GrownTwice(x0.loop, h, h);
  }

  lemma MoreFollowed(x0: Context, x1: Context, x2: Context, d: Decl, ds: Decls, top: bool,
                     tin: seq<Instr>, tmid: seq<Instr>, h: Holes, k: Holes)
    requires Followed(x0, x1, OfDecl(d, top), tin, h) && Followed(x1, x2, OfDecls(ds, top), tmid, k)
    ensures Followed(x0, x2, OfDecls(More(d, ds), top), tin, h.Append(k))
    ensures x1.locals == x0.locals ==> Followed(x0, x2, OfDecls(More(d, ds), top), tmid, h.Append(k))
  {
    hide LocalsValid, Loose, LooseDecls, Declared, Grown, Ready, InitializedNames, Tidy, Kept, NewLocals, NewNames;
    LooseMore(d, ds);
    GrownTwice(x0.loop, h, k);
    KeptTwice(x0.locals, x1.locals, x2.locals, x0.depth);
    TidyTwice(x0.loop, |x0.locals|, |x1.locals|, tin, tmid, h, k);
    NamesMore(InitializedNames(x0.locals), d, ds, top);
    LocalsMore(x0.locals, d, ds, top, x0.depth);
  }

  lemma NamesMore(names: seq<Text>, d: Decl, ds: Decls, top: bool)
    ensures names + NewNames(OfDecl(d, top)) + NewNames(OfDecls(ds, top)) == names + NewNames(OfDecls(More(d, ds), top))
  {
    hide Declared;
    DeclaredMore(d, ds, top);
  }

  lemma LocalsMore(locals: seq<Local>, d: Decl, ds: Decls, top: bool, depth: nat)
    ensures locals + NewLocals(OfDecl(d, top), depth) + NewLocals(OfDecls(ds, top), depth) ==
            locals + NewLocals(OfDecls(More(d, ds), top), depth)
  {
    hide LocalOf;
  }

  lemma TidyTwice(loop: Option<LoopContext>, n: nat, n1: nat, tin: seq<Instr>, tmid: seq<Instr>, h: Holes, k: Holes)
    requires Tidy(loop, n, tin, h) && Tidy(Grown(loop, h), n1, tmid, k)
    ensures Tidy(loop, n, tin, h.Append(k)) && (n1 == n ==> Tidy(loop, n, tmid, h.Append(k)))
  {
  }

  lemma GrownNot(loop: Option<LoopContext>)
    ensures Grown(loop, NO_HOLES) == loop
  {
    if loop.Some? {
      var l := loop.value;
      assert l.breakJumps + [] == l.breakJumps && l.continueJumps + [] == l.continueJumps;
    }
  }

  lemma GrownTwice(loop: Option<LoopContext>, h: Holes, k: Holes)
    ensures Grown(Grown(loop, h), k) == Grown(loop, h.Append(k))
    ensures FrameOf(Grown(loop, h)) == FrameOf(loop)
    ensures Grown(loop, h).Some? <==> loop.Some?
    ensures loop.Some? ==> Grown(loop, h).value.enterParamCount == loop.value.enterParamCount
                           && Grown(loop, h).value.isDoWhile == loop.value.isDoWhile
  {
    if loop.Some? {
      var l := loop.value;
      assert l.breakJumps + h.breaks + k.breaks == l.breakJumps + (h.breaks + k.breaks);
      assert l.continueJumps + h.conts + k.conts == l.continueJumps + (h.conts + k.conts);
    }
  }

  lemma KeptTwice(l0: seq<Local>, l1: seq<Local>, l2: seq<Local>, depth: nat)
    requires Kept(l0, l1, depth) && Kept(l1, l2, depth)
    ensures Kept(l0, l2, depth)
  {
    assert l2[..|l0|] == l2[..|l1|][..|l0|];
    assert forall i :: |l0| <= i < |l1| ==> l2[i] == l2[..|l1|][i];
  }

  lemma SkippedItem(c0: Chunk, c1: Chunk, tin: seq<Instr>, item: Item, holes: Holes)
    requires Skipped(c0, c1, tin, item, holes)
    ensures TrivialItem(item) && NewNames(item) == [] && tin == [] && holes == NO_HOLES
  {
    SkippedNames(item);
  }

  lemma LooseMore(d: Decl, ds: Decls)
    ensures LooseDecls(More(d, ds)) <==> (d.Statement? && Loose(d.s)) || LooseDecls(ds)
  {
    hide Loose;
  }

  lemma FrameFits(x: Context)
    requires Sound(x)
    ensures FrameOf(x.loop).height <= |InitializedNames(x.locals)| == |x.locals|
  {
    hide LocalsValid, Settled;
    ReadyNames(x.locals);
  }

  // ---- Scopes ----

  /** A block: x1 is the context in its scope, x2 at the end of that, x3 behind it. */
  lemma BlockAchieved(A: Arith, x0: Context, x1: Context, x2: Context, x3: Context, ds: Decls,
                      tin: seq<Instr>, holes: Holes, T: seq<Instr>, K: seq<Instr>)
    requires Sound(x0) && x1 == x0.(depth := x0.depth + 1)
    requires Achieved(A, x1, x2, OfDecls(ds, false), tin, holes) && EndsWith(x2.chunk.code, x2.chunk.tail)
    requires Dropped(A, x2.chunk, x3.chunk, |x2.locals| - |x0.locals|, T, K)
    requires x3.locals == x0.locals && x3.depth == x0.depth && x3.loop == x2.loop
    ensures Achieved(A, x0, x3, OfStmt(Block(ds)), tin, holes)
  {
    hide Processed, Dropped, LocalsValid, EndsWith, LooseDecls, Settled, Declared;
    FrameFits(x0);
    ReadyNames(x2.locals);
    assert |Declared(ds, false)| == |x2.locals| - |x0.locals|;
    BlockProcessed(A, x1.chunk, x2.chunk, x3.chunk, tin, ds, T, K, InitializedNames(x0.locals), FrameOf(x0.loop), holes);
    LooseBlock(ds);
    assert x3.locals[..|x0.locals|] == x0.locals;
    assert InitializedNames(x0.locals) + [] == InitializedNames(x0.locals);
  }

  lemma LooseBlock(ds: Decls)
    ensures Loose(Block(ds)) == LooseDecls(ds)
  {
  }

  // ---- Single items ----

  lemma LocalAchieved(A: Arith, x0: Context, x1: Context, d: Decl)
    requires Sound(x0) && d.Var? && |x0.locals| < LOCAL_MAX
    requires Built(A, x0.chunk, x1.chunk, [], OfDecl(d, false), InitializedNames(x0.locals), FrameOf(x0.loop), NO_HOLES)
    requires x1 == x0.(chunk := x1.chunk, locals := x0.locals + [Local(d.name, x0.depth, d.isConst)])
    ensures Achieved(A, x0, x1, OfDecl(d, false), [], NO_HOLES)
  {
    hide Built, Settled;
    GrownNot(x0.loop);
    LocalsAdded(x0.locals, x0.depth, d.name, d.isConst);
    NamesAdded(x0.locals, d.name, x0.depth, d.isConst);
    hide LocalsValid;
    assert x1.locals[..|x0.locals|] == x0.locals;
  }

  lemma GlobalAchieved(A: Arith, x0: Context, x1: Context, d: Decl)
    requires Sound(x0) && d.Var?
    requires Built(A, x0.chunk, x1.chunk, [], OfDecl(d, true), InitializedNames(x0.locals), FrameOf(x0.loop), NO_HOLES)
    requires x1 == x0.(chunk := x1.chunk)
    ensures Achieved(A, x0, x1, OfDecl(d, true), [], NO_HOLES)
  {
    hide Built, Settled, LocalsValid;
    GrownNot(x0.loop);
    assert x1.locals[..|x0.locals|] == x0.locals;
    assert InitializedNames(x0.locals) + [] == InitializedNames(x0.locals);
  }

  lemma AchievedDepth(A: Arith, x0: Context, x1: Context, item: Item, tin: seq<Instr>, holes: Holes)
    requires Achieved(A, x0, x1, item, tin, holes)
    ensures x1.depth == x0.depth
  {
    hide Processed, LocalsValid, LooseItem;
  }

  /** A block's scope starts out like the scope around it. */
  lemma DeeperSound(x: Context)
    requires Sound(x)
    ensures Sound(x.(depth := x.depth + 1))
  {
    hide Settled;
  }

  /** At the end of a block its own locals are the ones to drop. */
  lemma ScopeLocals(A: Arith, x0: Context, x1: Context, x2: Context, ds: Decls, tin: seq<Instr>, holes: Holes)
    requires Sound(x0) && x1 == x0.(depth := x0.depth + 1) && Achieved(A, x1, x2, OfDecls(ds, false), tin, holes)
    ensures x2.depth == x0.depth + 1 && |x0.locals| <= |x2.locals| <= LOCAL_MAX && x2.locals[..|x0.locals|] == x0.locals
    ensures forall i :: 0 <= i < |x0.locals| ==> x2.locals[i].depth < x2.depth
    ensures forall i :: |x0.locals| <= i < |x2.locals| ==> x2.locals[i].depth == x2.depth
  {
    hide Processed, Settled, LooseDecls, Declared;
    forall i | 0 <= i < |x0.locals| ensures x2.locals[i].depth < x2.depth {
      assert x2.locals[i] == x2.locals[..|x0.locals|][i] == x0.locals[i];
    }
  }

  lemma SoundSize(x: Context)
    requires Sound(x)
    ensures |x.locals| <= LOCAL_MAX && (x.loop.Some? ==> x.loop.value.enterParamCount <= |x.locals|)
  {
    hide Settled;
  }

  lemma LeaveAchieved(A: Arith, x0: Context, x1: Context, s: Stmt, c1: Chunk, n: nat, tin: seq<Instr>, K: seq<Instr>, holes: Holes)
    requires Sound(x0) && (s.Break? || s.Continue?) && x0.loop.Some? && n == |x0.locals| - x0.loop.value.enterParamCount
    requires Built(A, x0.chunk, x1.chunk, tin, OfStmt(s), InitializedNames(x0.locals), FrameOf(x0.loop), holes)
    requires Dropped(A, x0.chunk, c1, n, tin, K)
    requires x1 == x0.(chunk := x1.chunk, loop := Grown(x0.loop, holes))
    requires s.Break? || !x0.loop.value.isDoWhile ==> holes.conts == []
    ensures Achieved(A, x0, x1, OfStmt(s), tin, holes)
  {
    hide Built, Settled, LocalsValid, Pops;
    assert x1.locals[..|x0.locals|] == x0.locals;
    assert InitializedNames(x0.locals) + [] == InitializedNames(x0.locals);
  }

  /** The loop starts before the jump that continues it. */
  lemma StartBefore(A: Arith, x0: Context, c1: Chunk, n: nat, T: seq<Instr>, K: seq<Instr>)
    requires Sound(x0) && x0.loop.Some? && n == |x0.locals| - x0.loop.value.enterParamCount
    requires Dropped(A, x0.chunk, c1, n, T, K) && EndsWith(x0.chunk.code, x0.chunk.tail)
    ensures x0.loop.value.start <= |c1.code|
  {
    hide LocalsValid, Pops, EndsWith, Pending, SizeAll, EncodeAll;
    SettledEnd(x0.chunk);
    NoSize();
  }

  lemma GrownByLeave(loop: LoopContext, isBreak: bool, jump: nat)
    ensures Grown(Some(loop), LeaveHoles(isBreak, jump)) ==
            Some(if isBreak then loop.(breakJumps := loop.breakJumps + [jump])
                 else loop.(continueJumps := loop.continueJumps + [jump]))
  {
    assert loop.breakJumps + [] == loop.breakJumps && loop.continueJumps + [] == loop.continueJumps;
  }

  // ---- Conditionals and loops ----

  /** Behind a condition nothing is pending. */
  lemma ConditionEnd(A: Arith, x0: Context, xB: Context, cC: Chunk, L: seq<Instr>, c: Expr)
    requires Sound(x0) && ExprDone(A, x0.chunk, cC, L, c, InitializedNames(x0.locals)) && AllWellFormed(L)
    requires xB == x0.(chunk := Chunk(BranchCode(x0.chunk.code, L), [], cC.consts))
    ensures Sound(xB)
  {
    hide LocalsValid, ExprDone, BranchCode;
    BranchEnd(x0.chunk.code, L);
    ClearSettled(xB.chunk);
    SettledBelow(x0.chunk);
  }

  lemma SettledBelow(c: Chunk)
    ensures Settled(c) <= |c.code|
  {
  }

  /** A branch of a conditional, begun with a clear op stack. */
  lemma PartAchieved(A: Arith, x0: Context, xB: Context, xT: Context, s: Stmt, tin: seq<Instr>, h: Holes)
    requires Sound(x0) && xB.locals == x0.locals && FrameOf(xB.loop) == FrameOf(x0.loop)
    requires xB.chunk.tail == [] && Achieved(A, xB, xT, OfStmt(s), tin, h)
    ensures Processed(A, xB.chunk, xT.chunk, tin, OfStmt(s), InitializedNames(x0.locals), FrameOf(x0.loop), h)
    ensures tin == [] && xT.locals == x0.locals && |xB.chunk.code| <= |xT.chunk.code| && xT.chunk.tail == []
    ensures xT.depth == xB.depth && xT.loop == Grown(xB.loop, h)
  {
    hide LocalsValid, Processed, Settled, FrameOf, Loose;
    FrameFits(x0);
    StmtPart(A, xB.chunk, xT.chunk, tin, s, InitializedNames(x0.locals), FrameOf(x0.loop), h);
    SameLocals(A, xB, xT, OfStmt(s), tin, h);
  }

  lemma AfterThen(A: Arith, x0: Context, xB: Context, xT: Context, xP: Context, s: Stmt, tin: seq<Instr>, h: Holes)
    requires Sound(xB) && xB.chunk.tail == [] && Achieved(A, xB, xT, OfStmt(s), tin, h)
    requires xP == xT.(chunk := xP.chunk) && xP.chunk.tail == [] && |xP.chunk.code| >= |xT.chunk.code|
    ensures Sound(xP) && FrameOf(xP.loop) == FrameOf(xB.loop)
  {
    hide LocalsValid, Processed, Settled, Loose, EndsWith;
    NothingEnds(xB.chunk);
    SoundAfter(A, xB, xT, OfStmt(s), tin, h);
    ClearSettled(xP.chunk);
    SettledBelow(xT.chunk);
    GrownTwice(xB.loop, h, h);
  }

  lemma NothingEnds(c: Chunk)
    requires c.tail == []
    ensures EndsWith(c.code, c.tail)
  {
    DescribedEmpty(c.code, c.consts);
  }

  lemma IfAchieved(A: Arith, x0: Context, cC: Chunk, xB: Context, xT: Context, cJ: Chunk, xP: Context, xF: Context,
                   x1: Context, L: seq<Instr>, c: Expr, t: Stmt, f: Stmt, hole: int, tinT: seq<Instr>, tinF: seq<Instr>,
                   hT: Holes, hF: Holes)
    requires Sound(x0) && ExprDone(A, x0.chunk, cC, L, c, InitializedNames(x0.locals)) && PoolValid(cC.consts)
    requires AllWellFormed(L) && xB == x0.(chunk := Chunk(BranchCode(x0.chunk.code, L), [], cC.consts))
    requires hole == (if BranchOf(L).Never? then -1 else |xB.chunk.code| - 2)
    requires Achieved(A, xB, xT, OfStmt(t), tinT, hT)
    requires Jumped(xT.chunk, cJ) && cJ.code[|xT.chunk.code|] == OP_JUMP
    requires xP == xT.(chunk := xP.chunk) && xP.chunk.tail == [] && xP.chunk.consts == cJ.consts
    requires PatchedTo(cJ.code, xP.chunk.code, HoleOf(hole), |cJ.code|)
    requires Achieved(A, xP, xF, OfStmt(f), tinF, hF)
    requires x1 == xF.(chunk := x1.chunk) && x1.chunk.tail == xF.chunk.tail && x1.chunk.consts == xF.chunk.consts
    requires PatchedTo(xF.chunk.code, x1.chunk.code, [|xT.chunk.code| + 1], |xF.chunk.code|)
    ensures Achieved(A, x0, x1, OfStmt(If(c, t, f)), [], hT.Append(hF))
  {
    hide LocalsValid, Processed, Settled, Loose, ExprDone, BranchCode, PoolValid, PatchedTo, BranchOf, Built, Grown, FrameOf,
         InitializedNames, Achieved, Sound;
    FrameFits(x0);
    PartAchieved(A, x0, xB, xT, t, tinT, hT);
    GrownTwice(x0.loop, hT, hF);
    PartAchieved(A, x0, xP, xF, f, tinF, hF);
    IfBuilt(A, x0.chunk, cC, xB.chunk, xT.chunk, cJ, xP.chunk, xF.chunk, x1.chunk, L, c, t, f, hole, tinT, tinF,
            hT, hF, InitializedNames(x0.locals), FrameOf(x0.loop));
    IfOutcome(A, x0, xB, xT, xP, xF, x1, c, t, f, tinT, tinF, hT, hF);
  }

  lemma IfOutcome(A: Arith, x0: Context, xB: Context, xT: Context, xP: Context, xF: Context,
                  x1: Context, c: Expr, t: Stmt, f: Stmt, tinT: seq<Instr>, tinF: seq<Instr>, hT: Holes, hF: Holes)
    requires Sound(x0) && xB == x0.(chunk := xB.chunk) && Achieved(A, xB, xT, OfStmt(t), tinT, hT)
    requires xP == xT.(chunk := xP.chunk) && Achieved(A, xP, xF, OfStmt(f), tinF, hF)
    requires x1 == xF.(chunk := x1.chunk) && x1.locals == x0.locals
    requires Built(A, x0.chunk, x1.chunk, [], OfStmt(If(c, t, f)), InitializedNames(x0.locals), FrameOf(x0.loop), hT.Append(hF))
    ensures Achieved(A, x0, x1, OfStmt(If(c, t, f)), [], hT.Append(hF))
  {
    hide LocalsValid, Processed, Settled, Built, Grown, FrameOf, Loose;
    GrownTwice(x0.loop, hT, hF);
    LooseIf(c, t, f);
    assert x1.locals[..|x0.locals|] == x0.locals;
    assert InitializedNames(x0.locals) + [] == InitializedNames(x0.locals);
    assert Processed(A, x0.chunk, x1.chunk, [], OfStmt(If(c, t, f)), InitializedNames(x0.locals), FrameOf(x0.loop), hT.Append(hF)) by {
      BuiltProcessed(A, x0.chunk, x1.chunk, [], OfStmt(If(c, t, f)), InitializedNames(x0.locals), FrameOf(x0.loop), hT.Append(hF));
    }
  }

  lemma LooseIf(c: Expr, t: Stmt, f: Stmt)
    ensures Loose(If(c, t, f)) <==> Loose(t) || Loose(f)
  {
  }

  /** The body of a loop starts with the locals the loop was entered with, so with nothing pending. */
  lemma BodyAchieved(A: Arith, xB: Context, xT: Context, body: Stmt, tin: seq<Instr>, h: Holes)
    requires LocalsValid(xB.locals, xB.depth) && Ready(xB.locals) && xB.loop.Some?
    requires xB.loop.value.enterParamCount == |xB.locals| && xB.loop.value.breakJumps == [] == xB.loop.value.continueJumps
    requires Achieved(A, xB, xT, OfStmt(body), tin, h)
    ensures tin == [] && (!xB.loop.value.isDoWhile ==> h.conts == [])
    ensures Processed(A, xB.chunk, xT.chunk, [], OfStmt(body), InitializedNames(xB.locals), FrameOf(xB.loop), h)
    ensures xT.locals == xB.locals && xT.depth == xB.depth
    ensures xT.loop.Some? && xT.loop.value.breakJumps == h.breaks && xT.loop.value.continueJumps == h.conts
    ensures |xB.chunk.code| <= |xT.chunk.code|
    ensures Apart(h.All()) && Apart(h.breaks) && Apart(h.conts)
    ensures forall x :: x in h.breaks || x in h.conts ==> x + 2 <= |xT.chunk.code|
    ensures xT.chunk.tail == [] || (xT.chunk.tail == xB.chunk.tail && h == NO_HOLES)
  {
    hide LocalsValid, Settled, Loose, Processed, Apart;
    ReadyNames(xB.locals);
    SameLocals(A, xB, xT, OfStmt(body), tin, h);
    StmtPart(A, xB.chunk, xT.chunk, tin, body, InitializedNames(xB.locals), FrameOf(xB.loop), h);
    PartTail(A, xB.chunk, xT.chunk, tin, body, InitializedNames(xB.locals), FrameOf(xB.loop), h);
    ApartParts(h.breaks, h.conts);
    forall x | x in h.breaks || x in h.conts ensures x + 2 <= |xT.chunk.code| { assert x in h.All(); }
    assert [] + h.breaks == h.breaks && [] + h.conts == h.conts;
  }

  lemma PartTail(A: Arith, c0: Chunk, c1: Chunk, tin: seq<Instr>, s: Stmt, names: seq<Text>, frame: Frame, holes: Holes)
    requires Processed(A, c0, c1, tin, OfStmt(s), names, frame, holes)
    ensures c1.tail == [] || (c1.tail == c0.tail && holes == NO_HOLES)
  {
    hide Compiles, Settled, Pending, SizeAll, Apart, Within;
  }

  lemma ExitFits(hole: int, cI: Chunk, cB: Chunk, cS: Chunk)
    requires Within(HoleOf(hole), |cI.code|, |cB.code|) && |cB.code| <= |cS.code|
    ensures hole >= 0 ==> hole + 2 <= |cS.code|
  {
    if hole >= 0 { assert hole in HoleOf(hole); }
  }

  lemma StepGrows(A: Arith, jump: Chunk, value: Chunk, popped: Chunk, L: seq<Instr>, e: Expr, names: seq<Text>)
    requires ExprDone(A, jump, value, L, e, names) && Popped(value.code, value.tail, popped.code)
    requires popped.tail == [] && popped.consts == value.consts
    ensures |jump.code| <= |popped.code|
  {
    hide Emits, Popped, IsSuffix, EncodeAll, ListDoes;
    var M := ExprStmtResult(A, jump.code, jump.tail, L, e, names, value.tail, value.consts, popped.code);
  }

  lemma ForAchieved(A: Arith, x0: Context, x1: Context, xI: Context, tr: ForTrace, x2: Context, tin: seq<Instr>,
                    init: Decls, h0: Holes, test: Option<Expr>, step: Option<Expr>, body: Stmt, T: seq<Instr>,
                    K: seq<Instr>)
    requires tr.cI == xI.chunk && |xI.locals| >= |x0.locals| && EndsWith(xI.chunk.code, xI.chunk.tail)
    requires x1 == x0.(depth := x0.depth + 1) && x2.locals == x0.locals && x2.depth == x0.depth && x2.loop == xI.loop
    requires Sound(x0) && Achieved(A, x1, xI, OfDecls(init, false), tin, h0)
    requires ForDone(A, tr, test, step, body, InitializedNames(xI.locals))
    requires Dropped(A, tr.cQ, x2.chunk, |xI.locals| - |x0.locals|, T, K)
    ensures Achieved(A, x0, x2, OfStmt(For(init, test, step, body)), tin, h0)
  {
    hide LocalsValid, Processed, Settled, Loose, LooseDecls, Built, EndsWith, Declared, ForDone, Dropped;
    FrameFits(x0);
    ReadyNames(xI.locals);
    var names := InitializedNames(x0.locals);
    assert |Declared(init, false)| == |xI.locals| - |x0.locals|;
    ForDoneTail(A, tr, test, step, body, InitializedNames(xI.locals));
    DroppedClear(A, tr.cQ, x2.chunk, |xI.locals| - |x0.locals|, T, K);
    ForBuilt(A, x0.chunk, tr, x2.chunk, tin, init, h0, test, step, body, K, names, FrameOf(x0.loop));
    LooseFor(init, test, step, body);
    assert x2.locals[..|x0.locals|] == x0.locals;
    assert names + [] == names;
    BuiltProcessed(A, x0.chunk, x2.chunk, tin, OfStmt(For(init, test, step, body)), names, FrameOf(x0.loop), h0);
  }

  lemma DroppedClear(A: Arith, c0: Chunk, c1: Chunk, n: nat, T: seq<Instr>, K: seq<Instr>)
    requires Dropped(A, c0, c1, n, T, K) && c0.tail == []
    ensures T == []
  {
    hide Pops, EncodeAll;
  }

  lemma LooseFor(init: Decls, test: Option<Expr>, step: Option<Expr>, body: Stmt)
    ensures Loose(For(init, test, step, body)) == LooseDecls(init)
  {
  }

  lemma ExprBytes(A: Arith, c0: Chunk, c1: Chunk, L: seq<Instr>, e: Expr, names: seq<Text>)
    requires ExprDone(A, c0, c1, L, e, names)
    ensures AllWellFormed(L) && L != [] && c1.code == c0.code + EncodeAll(L)
  {
    hide Emits, IsSuffix, EncodeAll;
    EmitsSome(A, c1.consts, L, e, names);
  }
}
