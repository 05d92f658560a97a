/** Bytecode under construction.  Jumps whose target is not known yet are holes: two operand bytes to be patched
    later.  A stretch of code is right if it runs as its source does however the holes are filled and whatever is
    emitted around it. */
module Layout {
  import opened Types
  import opened Values
  import opened Syntax
  import opened Semantics
  import opened Bytecode
  import opened Machine
  import opened Peephole
  import opened Simulation

  // ---- Holes ----

  /** The operand at h makes its jump lead to target. */
  ghost predicate JumpTo(code: seq<byte>, h: nat, target: nat) {
    h + 2 <= target && ReadShort(code, h) == Some(target - h - 2)
  }

  ghost predicate IsHole(p: nat, holes: seq<nat>) {
    p in holes || (p > 0 && p - 1 in holes)
  }

  /** code1 has the bytes of code from a to b, except in holes. */
  ghost predicate Extends(code: seq<byte>, code1: seq<byte>, a: nat, b: nat, holes: seq<nat>) {
    b <= |code| && b <= |code1| &&
    forall p :: a <= p < b && !IsHole(p, holes) ==> code1[p] == code[p]
  }

  ghost predicate Patched(code: seq<byte>, holes: seq<nat>, target: nat) {
    forall h :: h in holes ==> JumpTo(code, h, target)
  }

  ghost predicate Within(holes: seq<nat>, a: nat, b: nat) {
    forall h :: h in holes ==> a <= h && h + 2 <= b
  }

  lemma ExtendsVia(code: seq<byte>, mid: seq<byte>, code1: seq<byte>, a: nat, b: nat, holes: seq<nat>,
                   a1: nat, b1: nat, holes1: seq<nat>)
    requires Extends(mid, code1, a1, b1, holes1) && a1 <= a && b <= b1
    requires Extends(code, mid, a, b, holes)
    requires forall p :: a <= p < b && IsHole(p, holes1) ==> IsHole(p, holes)
    ensures Extends(code, code1, a, b, holes)
  {
  }

  lemma HolesElsewhere(holes: seq<nat>, more: seq<nat>, c: nat, d: nat, a: nat, b: nat)
    requires Within(more, c, d) && (d <= a || b <= c)
    ensures forall p :: a <= p < b && IsHole(p, holes + more) ==> IsHole(p, holes)
    ensures forall p :: a <= p < b && IsHole(p, more + holes) ==> IsHole(p, holes)
  {
  }

  lemma KeptBytes(code: seq<byte>, code1: seq<byte>, a: nat, b: nat, holes: seq<nat>, p: nat, q: nat)
    requires Extends(code, code1, a, b, holes) && a <= p <= q <= b
    requires forall x :: p <= x < q ==> !IsHole(x, holes)
    ensures code1[p..q] == code[p..q]
  {
  }

  lemma KeptJumpTo(code: seq<byte>, code1: seq<byte>, a: nat, b: nat, holes: seq<nat>, h: nat, target: nat)
    requires Extends(code, code1, a, b, holes) && a <= h && h + 2 <= b && JumpTo(code, h, target)
    requires !IsHole(h, holes) && !IsHole(h + 1, holes)
    ensures JumpTo(code1, h, target)
  {
  }

  lemma KeptJumpAt(code: seq<byte>, code1: seq<byte>, a: nat, b: nat, holes: seq<nat>, p: nat, target: nat)
    requires Extends(code, code1, a, b, holes) && a <= p && p + 3 <= b && JumpAt(code, p, target)
    requires !IsHole(p, holes) && !IsHole(p + 1, holes) && !IsHole(p + 2, holes)
    ensures JumpAt(code1, p, target)
  {
    KeptBytes(code, code1, a, b, holes, p, p + 3);
  }

  lemma KeptList(code: seq<byte>, code1: seq<byte>, a: nat, b: nat, holes: seq<nat>, p: nat, L: seq<Instr>)
    requires Extends(code, code1, a, b, holes) && a <= p && p + SizeAll(L) <= b && ListAt(code, p, L)
    requires forall x :: p <= x < p + SizeAll(L) ==> !IsHole(x, holes)
    ensures ListAt(code1, p, L)
  {
    KeptBytes(code, code1, a, b, holes, p, p + SizeAll(L));
  }

  /** A three-byte jump whose operand has been filled in. */
  lemma FilledJump(code: seq<byte>, p: nat, target: nat)
    requires p < |code| && code[p] == OP_JUMP && JumpTo(code, p + 1, target)
    ensures JumpAt(code, p, target)
  {
    FilledShort(code, p + 1, target - p - 3);
    assert code[p..p + 3] == [code[p]] + code[p + 1..p + 3];
  }

  lemma FilledShort(code: seq<byte>, h: nat, n: u16)
    requires ReadShort(code, h) == Some(n)
    ensures h + 2 <= |code| && code[h..h + 2] == Short(n)
  {
  }

  // ---- Conditions ----

  function HoleOf(hole: int): seq<nat> {
    if hole < 0 then [] else [hole]
  }

  /** The code from a to b branches on cond: it goes on at b, or jumps to the target filled into the hole.
      There is no hole (-1) when the condition is a truthy constant. */
  ghost predicate BranchCompiles(A: Arith, code: seq<byte>, consts: seq<Value>, a: nat, b: nat, hole: int, cond: Expr,
                                 names: seq<Text>) {
    a <= b <= |code| && Within(HoleOf(hole), a, b) &&
    forall code1, consts1: seq<Value>, f: nat ::
      consts <= consts1 && Extends(code, code1, a, b, HoleOf(hole)) && Patched(code1, HoleOf(hole), f) ==>
      BranchSim(A, Program(code1, consts1), a, b, f, cond, names)
  }

  lemma UseBranch(A: Arith, code: seq<byte>, consts: seq<Value>, a: nat, b: nat, hole: int, cond: Expr,
                  names: seq<Text>, code1: seq<byte>, consts1: seq<Value>, f: nat)
    requires BranchCompiles(A, code, consts, a, b, hole, cond, names)
    requires consts <= consts1 && Extends(code, code1, a, b, HoleOf(hole)) && Patched(code1, HoleOf(hole), f)
    ensures BranchSim(A, Program(code1, consts1), a, b, f, cond, names)
  {
    hide BranchSim, Extends, Patched, HoleOf, Within;
  }

  // ---- Statements ----

  /** The loop around a statement: its height, and its continue target where that is known beforehand. */
  datatype Frame = Frame(height: nat, cont: Option<nat>)

  /** The holes of the break and continue statements of that loop. */
  datatype Holes = Holes(breaks: seq<nat>, conts: seq<nat>)
  {
    function All(): seq<nat> { breaks + conts }

    function Append(h: Holes): Holes { Holes(breaks + h.breaks, conts + h.conts) }
  }

  const NO_HOLES := Holes([], [])

  function End(seg: Seg): nat { seg.stop + SizeAll(seg.tout) }

  ghost predicate Fills(code1: seq<byte>, consts1: seq<Value>, W: Targets,
                        code: seq<byte>, consts: seq<Value>, seg: Seg, frame: Frame, holes: Holes) {
    && consts <= consts1
    && Extends(code, code1, seg.start, seg.stop, holes.All())
    && Patched(code1, holes.breaks, W.brk) && Patched(code1, holes.conts, W.cnt)
    && W.height == frame.height && (frame.cont.Some? ==> W.cnt == frame.cont.value)
  }

  ghost predicate Shaped(code: seq<byte>, seg: Seg, names: seq<Text>, frame: Frame, holes: Holes) {
    && seg.start <= seg.stop && End(seg) <= |code| && ListAt(code, seg.stop, seg.tout)
    && Within(holes.All(), seg.start, seg.stop)
    && frame.height <= |names|
  }

  ghost predicate Compiles(A: Arith, code: seq<byte>, consts: seq<Value>, seg: Seg, item: Item, names: seq<Text>,
                           frame: Frame, holes: Holes) {
    Shaped(code, seg, names, frame, holes) &&
    forall code1, consts1, W :: Fills(code1, consts1, W, code, consts, seg, frame, holes) ==>
      Sim(A, Program(code1, consts1), seg, item, names, W)
  }

  /** Using a stretch compiled as part of `code`, inside a completion code1 of the larger `whole`. */
  lemma UsePart(A: Arith, code: seq<byte>, consts: seq<Value>, seg: Seg, item: Item, names: seq<Text>,
                frame: Frame, holes: Holes,
                whole: seq<byte>, a: nat, b: nat, around: seq<nat>, code1: seq<byte>, consts1: seq<Value>, W: Targets)
    requires Compiles(A, code, consts, seg, item, names, frame, holes)
    requires Extends(code, whole, seg.start, seg.stop, holes.All())
    requires Extends(whole, code1, a, b, around) && a <= seg.start && seg.stop <= b
    requires forall p :: seg.start <= p < seg.stop && IsHole(p, around) ==> IsHole(p, holes.All())
    requires consts <= consts1
    requires Patched(code1, holes.breaks, W.brk) && Patched(code1, holes.conts, W.cnt)
    requires W.height == frame.height && (frame.cont.Some? ==> W.cnt == frame.cont.value)
    ensures Sim(A, Program(code1, consts1), seg, item, names, W)
  {
    hide Sim, JumpTo;
    ExtendsVia(code, whole, code1, seg.start, seg.stop, holes.All(), a, b, around);
    assert Fills(code1, consts1, W, code, consts, seg, frame, holes);
  }

  /** Code that does an item in a straight line. */
  lemma ListCompiles(A: Arith, code: seq<byte>, consts: seq<Value>, p: nat, L: seq<Instr>, T: seq<Instr>, item: Item,
                     names: seq<Text>, frame: Frame)
    requires ListDoes(A, consts, L, T, item, names)
    requires ListAt(code, p, L) && ListAt(code, p + SizeAll(L), T) && frame.height <= |names|
    ensures Compiles(A, code, consts, Seg(p, [], p + SizeAll(L), T), item, names, frame, NO_HOLES)
  {
    hide ListDoes, Sim;
    var seg := Seg(p, [], p + SizeAll(L), T);
    forall code1, consts1, W | Fills(code1, consts1, W, code, consts, seg, frame, NO_HOLES)
      ensures Sim(A, Program(code1, consts1), seg, item, names, W)
    {
      KeptList(code, code1, p, seg.stop, [], p, L);
      SimList(A, Program(code1, consts1), consts, p, L, T, item, names, W);
    }
  }

  /** What is pending behind a stretch may be counted as its end. */
  lemma FlushOutCompiles(A: Arith, code: seq<byte>, consts: seq<Value>, seg: Seg, item: Item, names: seq<Text>,
                         frame: Frame, holes: Holes)
    requires Compiles(A, code, consts, seg, item, names, frame, holes)
    ensures Compiles(A, code, consts, Seg(seg.start, seg.tin, End(seg), []), item, names, frame, holes)
  {
    hide Sim, ListAt;
    var seg1 := Seg(seg.start, seg.tin, End(seg), []);
    EmptyListAt(code, End(seg));
    forall code1, consts1, W | Fills(code1, consts1, W, code, consts, seg1, frame, holes)
      ensures Sim(A, Program(code1, consts1), seg1, item, names, W)
    {
      KeptList(code, code1, seg.start, End(seg), holes.All(), seg.stop, seg.tout);
      assert Fills(code1, consts1, W, code, consts, seg, frame, holes);
      SimFlushOut(A, Program(code1, consts1), seg, item, names, W);
    }
  }

  lemma EmptyListAt(code: seq<byte>, p: nat)
    requires p <= |code|
    ensures ListAt(code, p, [])
  {
  }

  // ---- Sequences ----

  lemma MoreCompiles(A: Arith, code: seq<byte>, consts: seq<Value>, whole: seq<byte>, consts1: seq<Value>,
                     first: Seg, rest: Seg, d: Decl, ds: Decls, top: bool, names: seq<Text>, frame: Frame,
                     h: Holes, k: Holes)
    requires Compiles(A, code, consts, first, OfDecl(d, top), names, frame, h)
    requires Compiles(A, whole, consts1, rest, OfDecls(ds, top),
                      names + (if d.Var? && !top then [d.name] else []), frame, k)
    requires first.stop == rest.start && first.tout == rest.tin && consts <= consts1
    requires |whole| >= first.stop && whole[..first.stop] == code[..first.stop]
    ensures Compiles(A, whole, consts1, Seg(first.start, first.tin, rest.stop, rest.tout), OfDecls(More(d, ds), top),
                     names, frame, h.Append(k))
  {
    hide Sim, ListAt, JumpTo;
    var seg := Seg(first.start, first.tin, rest.stop, rest.tout);
    var H := h.Append(k);
    var names1 := names + (if d.Var? && !top then [d.name] else []);
    AllOfBoth(h, k);
    forall code2, consts2, W | Fills(code2, consts2, W, whole, consts1, seg, frame, H)
      ensures Sim(A, Program(code2, consts2), seg, OfDecls(More(d, ds), top), names, W)
    {
      HolesElsewhere(h.All(), k.All(), rest.start, rest.stop, first.start, first.stop);
      HolesElsewhere(k.All(), h.All(), first.start, first.stop, rest.start, rest.stop);
      UsePart(A, code, consts, first, OfDecl(d, top), names, frame, h,
              whole, seg.start, seg.stop, H.All(), code2, consts2, W);
      UsePart(A, whole, consts1, rest, OfDecls(ds, top), names1, frame, k,
              whole, seg.start, seg.stop, H.All(), code2, consts2, W);
      SimMore(A, Program(code2, consts2), first, rest, d, ds, top, names, W);
    }
  }

  lemma AllOfBoth(h: Holes, k: Holes)
    ensures forall x :: x in h.Append(k).All() <==> x in h.All() || x in k.All()
    ensures forall p :: IsHole(p, h.Append(k).All()) <==> IsHole(p, h.All() + k.All())
  {
  }

  lemma StatementCompiles(A: Arith, code: seq<byte>, consts: seq<Value>, seg: Seg, s: Stmt, top: bool,
                          names: seq<Text>, frame: Frame, holes: Holes)
    requires Compiles(A, code, consts, seg, OfStmt(s), names, frame, holes)
    ensures Compiles(A, code, consts, seg, OfDecl(Statement(s), top), names, frame, holes)
  {
    hide Sim, Shaped;
    forall code1, consts1, W | Fills(code1, consts1, W, code, consts, seg, frame, holes)
      ensures Sim(A, Program(code1, consts1), seg, OfDecl(Statement(s), top), names, W)
    {
      SimStatement(A, Program(code1, consts1), seg, s, top, names, W);
    }
  }

  /** A later state of the chunk that still has the stretch. */
  lemma LaterCompiles(A: Arith, code: seq<byte>, consts: seq<Value>, whole: seq<byte>, consts1: seq<Value>, seg: Seg,
                      item: Item, names: seq<Text>, frame: Frame, holes: Holes)
    requires Compiles(A, code, consts, seg, item, names, frame, holes)
    requires consts <= consts1 && Extends(code, whole, seg.start, seg.stop, holes.All())
    requires ListAt(whole, seg.stop, seg.tout)
    ensures Compiles(A, whole, consts1, seg, item, names, frame, holes)
  {
    hide Sim, ListAt, JumpTo;
    ListWithin(whole, seg.stop, seg.tout);
    forall code2, consts2, W | Fills(code2, consts2, W, whole, consts1, seg, frame, holes)
      ensures Sim(A, Program(code2, consts2), seg, item, names, W)
    {
      UsePart(A, code, consts, seg, item, names, frame, holes,
              whole, seg.start, seg.stop, holes.All(), code2, consts2, W);
    }
  }

  /** Statements that emit no code, and do nothing. */
  predicate Trivial(s: Stmt) {
    s.Block? && TrivialDecls(s.ds)
  }

  predicate TrivialDecls(ds: Decls) {
    ds.More? ==> ds.first.Statement? && Trivial(ds.first.s) && TrivialDecls(ds.rest)
  }

  lemma {:induction false} TrivialExec(A: Arith, s: Stmt, env: Env, g: Globals, out: seq<Value>, fuel: nat)
    requires Trivial(s)
    ensures Exec(A, s, env, g, out, fuel) == Normal(env, g, out)
    decreases s
  {
    TrivialExecDecls(A, s.ds, false, env, g, out, fuel);
  }

  lemma {:induction false} TrivialExecDecls(A: Arith, ds: Decls, top: bool, env: Env, g: Globals, out: seq<Value>, fuel: nat)
    requires TrivialDecls(ds)
    ensures ExecDecls(A, ds, top, env, g, out, fuel) == Normal(env, g, out) && Declared(ds, top) == []
    decreases ds
  {
    if ds.More? {
      TrivialExec(A, ds.first.s, env, g, out, fuel);
      TrivialExecDecls(A, ds.rest, top, env, g, out, fuel);
    }
  }

  /** Trivial declarations behind a stretch leave it as it is. */
  lemma TrivialBehind(A: Arith, code: seq<byte>, consts: seq<Value>, seg: Seg, d: Decl, ds: Decls, top: bool,
                      names: seq<Text>, frame: Frame, holes: Holes)
    requires Compiles(A, code, consts, seg, OfDecl(d, top), names, frame, holes) && TrivialDecls(ds)
    ensures Compiles(A, code, consts, seg, OfDecls(More(d, ds), top), names, frame, holes)
  {
    hide Shaped, Follows;
    forall code1, consts1, W | Fills(code1, consts1, W, code, consts, seg, frame, holes)
      ensures Sim(A, Program(code1, consts1), seg, OfDecls(More(d, ds), top), names, W)
    {
      var P := Program(code1, consts1);
      assert Sim(A, P, seg, OfDecl(d, top), names, W);
      forall env, g, out, fuel: nat, m | NamesOf(env) == names && Carries(A, P.consts, seg.tin, m, env, g, out)
        ensures Follows(A, P, Running(seg.start, m), seg.stop, seg.tout, W,
                        ExecItem(A, OfDecls(More(d, ds), top), env, g, out, fuel), fuel)
      {
        var o := ExecDecl(A, d, top, env, g, out, fuel);
        if o.Normal? { TrivialExecDecls(A, ds, top, o.env, o.g, o.out, fuel); }
        assert ExecItem(A, OfDecls(More(d, ds), top), env, g, out, fuel) == ExecItem(A, OfDecl(d, top), env, g, out, fuel);
      }
    }
  }

  /** A trivial declaration before a stretch does not matter either. */
  lemma TrivialBefore(A: Arith, code: seq<byte>, consts: seq<Value>, seg: Seg, d: Decl, ds: Decls, top: bool,
                      names: seq<Text>, frame: Frame, holes: Holes)
    requires Compiles(A, code, consts, seg, OfDecls(ds, top), names, frame, holes) && d.Statement? && Trivial(d.s)
    ensures Compiles(A, code, consts, seg, OfDecls(More(d, ds), top), names, frame, holes)
  {
    hide Shaped, Follows;
    forall code1, consts1, W | Fills(code1, consts1, W, code, consts, seg, frame, holes)
      ensures Sim(A, Program(code1, consts1), seg, OfDecls(More(d, ds), top), names, W)
    {
      var P := Program(code1, consts1);
      assert Sim(A, P, seg, OfDecls(ds, top), names, W);
      forall env, g, out, fuel: nat, m | NamesOf(env) == names && Carries(A, P.consts, seg.tin, m, env, g, out)
        ensures Follows(A, P, Running(seg.start, m), seg.stop, seg.tout, W,
                        ExecItem(A, OfDecls(More(d, ds), top), env, g, out, fuel), fuel)
      {
        TrivialExec(A, d.s, env, g, out, fuel);
        assert ExecDecl(A, d, top, env, g, out, fuel) == Normal(env, g, out);
        assert ExecItem(A, OfDecls(More(d, ds), top), env, g, out, fuel) == ExecItem(A, OfDecls(ds, top), env, g, out, fuel);
      }
    }
  }

  // ---- Scopes and jumps out of loops ----

  lemma BlockCompiles(A: Arith, code: seq<byte>, consts: seq<Value>, whole: seq<byte>, consts1: seq<Value>, seg: Seg,
                      ds: Decls, K: seq<Instr>, n: nat, names: seq<Text>, frame: Frame, holes: Holes)
    requires Compiles(A, code, consts, seg, OfDecls(ds, false), names, frame, holes)
    requires consts <= consts1 && n == |Declared(ds, false)|
    requires |whole| >= seg.stop && whole[..seg.stop] == code[..seg.stop]
    requires Pops(A, consts1, seg.tout, K, n) && ListAt(whole, seg.stop, K)
    ensures Compiles(A, whole, consts1, Seg(seg.start, seg.tin, seg.stop + SizeAll(K), []), OfStmt(Block(ds)),
                     names, frame, holes)
  {
    hide Sim, ListAt, JumpTo, Pops;
    var seg1 := Seg(seg.start, seg.tin, seg.stop + SizeAll(K), []);
    ListWithin(whole, seg.stop, K);
    forall code2, consts2, W | Fills(code2, consts2, W, whole, consts1, seg1, frame, holes)
      ensures Sim(A, Program(code2, consts2), seg1, OfStmt(Block(ds)), names, W)
    {
      UsePart(A, code, consts, seg, OfDecls(ds, false), names, frame, holes,
              whole, seg1.start, seg1.stop, holes.All(), code2, consts2, W);
      KeptList(whole, code2, seg1.start, seg1.stop, holes.All(), seg.stop, K);
      SimBlock(A, Program(code2, consts2), consts1, seg, ds, K, n, names, W);
    }
  }

  lemma ListWithin(code: seq<byte>, p: nat, L: seq<Instr>)
    requires ListAt(code, p, L)
    ensures p + SizeAll(L) <= |code| && ListAt(code, p + SizeAll(L), [])
  {
  }

  /** break, or continue in a do-while loop: a jump to be patched. */
  lemma LeaveCompiles(A: Arith, code: seq<byte>, consts: seq<Value>, p: nat, T: seq<Instr>, K: seq<Instr>, n: nat,
                      isBreak: bool, names: seq<Text>, frame: Frame)
    requires Pops(A, consts, T, K, n) && ListAt(code, p, K) && frame.height + n == |names|
    requires p + SizeAll(K) + 3 <= |code| && code[p + SizeAll(K)] == OP_JUMP
    ensures var h := [p + SizeAll(K) + 1];
            Compiles(A, code, consts, Seg(p, T, p + SizeAll(K) + 3, []), OfStmt(if isBreak then Break else Continue),
                     names, frame, if isBreak then Holes(h, []) else Holes([], h))
  {
    hide Sim, ListAt, JumpTo, Pops;
    var q := p + SizeAll(K);
    var seg := Seg(p, T, q + 3, []);
    var holes := if isBreak then Holes([q + 1], []) else Holes([], [q + 1]);
    EmptyListAt(code, q + 3);
    assert holes.All() == [q + 1];
    forall code1, consts1, W | Fills(code1, consts1, W, code, consts, seg, frame, holes)
      ensures Sim(A, Program(code1, consts1), seg, OfStmt(if isBreak then Break else Continue), names, W)
    {
      KeptList(code, code1, p, q + 3, holes.All(), p, K);
      assert code1[q] == code[q];
      assert q + 1 in holes.All();
      FilledJump(code1, q, if isBreak then W.brk else W.cnt);
      SimLeave(A, Program(code1, consts1), consts, p, T, K, n, isBreak, names, W);
    }
  }

  /** continue in the other loops: a jump to a point known already. */
  lemma ContinueCompiles(A: Arith, code: seq<byte>, consts: seq<Value>, p: nat, T: seq<Instr>, K: seq<Instr>, n: nat,
                         names: seq<Text>, frame: Frame)
    requires Pops(A, consts, T, K, n) && ListAt(code, p, K) && frame.height + n == |names|
    requires p + SizeAll(K) + 3 <= |code| && frame.cont.Some? && JumpAt(code, p + SizeAll(K), frame.cont.value)
    ensures Compiles(A, code, consts, Seg(p, T, p + SizeAll(K) + 3, []), OfStmt(Continue), names, frame, NO_HOLES)
  {
    hide Sim, ListAt, JumpTo, Pops, JumpAt;
    var q := p + SizeAll(K);
    var seg := Seg(p, T, q + 3, []);
    EmptyListAt(code, q + 3);
    forall code1, consts1, W | Fills(code1, consts1, W, code, consts, seg, frame, NO_HOLES)
      ensures Sim(A, Program(code1, consts1), seg, OfStmt(Continue), names, W)
    {
      KeptList(code, code1, p, q + 3, [], p, K);
      KeptJumpAt(code, code1, p, q + 3, [], q, W.cnt);
      SimLeave(A, Program(code1, consts1), consts, p, T, K, n, false, names, W);
    }
  }

  // ---- Conditionals ----

  lemma UseCondition(A: Arith, code: seq<byte>, consts: seq<Value>, a: nat, b: nat, hole: int, c: Expr, names: seq<Text>,
                     whole: seq<byte>, p: nat, q: nat, around: seq<nat>, code1: seq<byte>, consts1: seq<Value>, f: nat)
    requires BranchCompiles(A, code, consts, a, b, hole, c, names) && consts <= consts1
    requires Extends(code, whole, a, b, HoleOf(hole)) && Patched(whole, HoleOf(hole), f)
    requires p <= a && b <= q && Extends(whole, code1, p, q, around)
    requires forall x :: a <= x < b ==> !IsHole(x, around)
    ensures BranchSim(A, Program(code1, consts1), a, b, f, c, names)
  {
    hide BranchSim, JumpTo, IsHole;
    ExtendsVia(code, whole, code1, a, b, HoleOf(hole), p, q, around);
    if hole >= 0 {
      assert hole in HoleOf(hole);
      KeptJumpTo(whole, code1, p, q, around, hole, f);
    }
    UseBranch(A, code, consts, a, b, hole, c, names, code1, consts1, f);
  }

  lemma IfCompiles(A: Arith, whole: seq<byte>, consts: seq<Value>,
                   codeC: seq<byte>, constsC: seq<Value>, a: nat, b: nat, hole: int, c: Expr,
                   codeT: seq<byte>, constsT: seq<Value>, j: nat, t: Stmt, hT: Holes,
                   end: nat, f: Stmt, codeF: seq<byte>, hF: Holes, names: seq<Text>, frame: Frame)
    requires BranchCompiles(A, codeC, constsC, a, b, hole, c, names) && constsC <= consts
    requires Compiles(A, codeT, constsT, Seg(b, [], j, []), OfStmt(t), names, frame, hT) && constsT <= consts
    requires Compiles(A, codeF, consts, Seg(j + 3, [], end, []), OfStmt(f), names, frame, hF)
    requires Extends(codeC, whole, a, b, HoleOf(hole)) && Patched(whole, HoleOf(hole), j + 3)
    requires Extends(codeT, whole, b, j, hT.All()) && JumpAt(whole, j, end) && Extends(codeF, whole, j + 3, end, hF.All())
    ensures Compiles(A, whole, consts, Seg(a, [], end, []), OfStmt(If(c, t, f)), names, frame, hT.Append(hF))
  {
    hide Sim, ListAt, JumpTo, JumpAt, BranchSim, IsHole;
    var seg := Seg(a, [], end, []);
    var H := hT.Append(hF);
    IfHoles(hT, hF, a, b, j, end);
    EmptyListAt(whole, end);
    forall code1, consts1, W | Fills(code1, consts1, W, whole, consts, seg, frame, H)
      ensures Sim(A, Program(code1, consts1), seg, OfStmt(If(c, t, f)), names, W)
    {
      IfParts(A, whole, consts, codeC, constsC, a, b, hole, c, codeT, constsT, j, t, hT, end, f, codeF, hF, names, frame,
              code1, consts1, W);
    }
  }

  lemma IfParts(A: Arith, whole: seq<byte>, consts: seq<Value>,
                codeC: seq<byte>, constsC: seq<Value>, a: nat, b: nat, hole: int, c: Expr,
                codeT: seq<byte>, constsT: seq<Value>, j: nat, t: Stmt, hT: Holes,
                end: nat, f: Stmt, codeF: seq<byte>, hF: Holes, names: seq<Text>, frame: Frame,
                code1: seq<byte>, consts1: seq<Value>, W: Targets)
    requires BranchCompiles(A, codeC, constsC, a, b, hole, c, names) && constsC <= consts <= consts1
    requires Compiles(A, codeT, constsT, Seg(b, [], j, []), OfStmt(t), names, frame, hT) && constsT <= consts
    requires Compiles(A, codeF, consts, Seg(j + 3, [], end, []), OfStmt(f), names, frame, hF)
    requires Extends(codeC, whole, a, b, HoleOf(hole)) && Patched(whole, HoleOf(hole), j + 3)
    requires Extends(codeT, whole, b, j, hT.All()) && JumpAt(whole, j, end) && Extends(codeF, whole, j + 3, end, hF.All())
    requires a <= b <= j && j + 3 <= end
    requires Extends(whole, code1, a, end, hT.Append(hF).All())
    requires Patched(code1, hT.Append(hF).breaks, W.brk) && Patched(code1, hT.Append(hF).conts, W.cnt)
    requires W.height == frame.height && (frame.cont.Some? ==> W.cnt == frame.cont.value)
    ensures Sim(A, Program(code1, consts1), Seg(a, [], end, []), OfStmt(If(c, t, f)), names, W)
  {
    hide Sim, ListAt, JumpTo, JumpAt, BranchSim, IsHole, Extends, Patched, Within, Compiles, BranchCompiles;
    var H := hT.Append(hF);
    CompilesWithin(A, codeT, constsT, Seg(b, [], j, []), OfStmt(t), names, frame, hT);
    CompilesWithin(A, codeF, consts, Seg(j + 3, [], end, []), OfStmt(f), names, frame, hF);
    IfHoles(hT, hF, a, b, j, end);
    UseCondition(A, codeC, constsC, a, b, hole, c, names, whole, a, end, H.All(), code1, consts1, j + 3);
    IfBranches(A, whole, consts, codeT, constsT, a, b, j, t, hT, end, f, codeF, hF, names, frame, code1, consts1, W);
    KeptJumpAt(whole, code1, a, end, H.All(), j, end);
    ForwardJump(code1, j, end);
    SimIf(A, Program(code1, consts1), a, b, j, j + 3, end, c, t, f, names, W, end - j - 3);
  }

  lemma CompilesWithin(A: Arith, code: seq<byte>, consts: seq<Value>, seg: Seg, item: Item, names: seq<Text>, frame: Frame,
                       holes: Holes)
    requires Compiles(A, code, consts, seg, item, names, frame, holes)
    ensures Within(holes.All(), seg.start, seg.stop)
  {
    hide Sim, Fills;
  }

  lemma IfBranches(A: Arith, whole: seq<byte>, consts: seq<Value>,
                   codeT: seq<byte>, constsT: seq<Value>, a: nat, b: nat, j: nat, t: Stmt, hT: Holes,
                   end: nat, f: Stmt, codeF: seq<byte>, hF: Holes, names: seq<Text>, frame: Frame,
                   code1: seq<byte>, consts1: seq<Value>, W: Targets)
    requires Compiles(A, codeT, constsT, Seg(b, [], j, []), OfStmt(t), names, frame, hT) && constsT <= consts <= consts1
    requires Compiles(A, codeF, consts, Seg(j + 3, [], end, []), OfStmt(f), names, frame, hF)
    requires Extends(codeT, whole, b, j, hT.All()) && Extends(codeF, whole, j + 3, end, hF.All())
    requires a <= b <= j && j + 3 <= end && Within(hT.All(), b, j) && Within(hF.All(), j + 3, end)
    requires Extends(whole, code1, a, end, hT.Append(hF).All())
    requires Patched(code1, hT.Append(hF).breaks, W.brk) && Patched(code1, hT.Append(hF).conts, W.cnt)
    requires W.height == frame.height && (frame.cont.Some? ==> W.cnt == frame.cont.value)
    ensures Sim(A, Program(code1, consts1), Seg(b, [], j, []), OfStmt(t), names, W)
    ensures Sim(A, Program(code1, consts1), Seg(j + 3, [], end, []), OfStmt(f), names, W)
  {
    hide Sim, ListAt, JumpTo, JumpAt, IsHole, Extends, Patched, Within, Compiles;
    var H := hT.Append(hF);
    IfHoles(hT, hF, a, b, j, end);
    PatchedPart(code1, hT.breaks, H.breaks, W.brk);
    PatchedPart(code1, hF.breaks, H.breaks, W.brk);
    PatchedPart(code1, hT.conts, H.conts, W.cnt);
    PatchedPart(code1, hF.conts, H.conts, W.cnt);
    UsePart(A, codeT, constsT, Seg(b, [], j, []), OfStmt(t), names, frame, hT,
            whole, a, end, H.All(), code1, consts1, W);
    UsePart(A, codeF, consts, Seg(j + 3, [], end, []), OfStmt(f), names, frame, hF,
            whole, a, end, H.All(), code1, consts1, W);
  }

  lemma PatchedPart(code: seq<byte>, part: seq<nat>, holes: seq<nat>, target: nat)
    requires Patched(code, holes, target) && forall x :: x in part ==> x in holes
    ensures Patched(code, part, target)
  {
    hide JumpTo;
  }

  lemma IfHoles(hT: Holes, hF: Holes, a: nat, b: nat, j: nat, end: nat)
    requires a <= b <= j && j + 3 <= end && Within(hT.All(), b, j) && Within(hF.All(), j + 3, end)
    ensures var H := hT.Append(hF).All();
            && Within(H, a, end)
            && (forall p :: a <= p < b || j <= p < j + 3 ==> !IsHole(p, H))
            && (forall p :: b <= p < j && IsHole(p, H) ==> IsHole(p, hT.All()))
            && (forall p :: j + 3 <= p < end && IsHole(p, H) ==> IsHole(p, hF.All()))
    ensures forall x :: x in hT.Append(hF).breaks <==> x in hT.breaks || x in hF.breaks
    ensures forall x :: x in hT.Append(hF).conts <==> x in hT.conts || x in hF.conts
  {
    AllOfBoth(hT, hF);
  }

  lemma ForwardJump(code: seq<byte>, p: nat, target: nat)
    requires JumpAt(code, p, target) && p + 3 <= target
    ensures target - p - 3 < 0x1_0000 && At(code, p, Jump(target - p - 3))
  {
  }

  // ---- Loops ----

  /** The body of a loop, once its own breaks and continues are patched in `whole`. */
  lemma UseBody(A: Arith, code: seq<byte>, consts: seq<Value>, b: nat, j: nat, body: Stmt, names: seq<Text>, frame: Frame,
                h: Holes, whole: seq<byte>, a: nat, end: nat, code1: seq<byte>, consts1: seq<Value>, W: Targets)
    requires Compiles(A, code, consts, Seg(b, [], j, []), OfStmt(body), names, frame, h) && consts <= consts1
    requires a <= b && j <= end && Extends(code, whole, b, j, h.All()) && Extends(whole, code1, a, end, [])
    requires Patched(whole, h.breaks, W.brk) && Patched(whole, h.conts, W.cnt)
    requires W.height == frame.height && (frame.cont.Some? ==> W.cnt == frame.cont.value)
    ensures Sim(A, Program(code1, consts1), Seg(b, [], j, []), OfStmt(body), names, W)
  {
    hide Sim, JumpTo, ListAt;
    forall x | x in h.breaks ensures JumpTo(code1, x, W.brk) {
      assert x in h.All();
      KeptJumpTo(whole, code1, a, end, [], x, W.brk);
    }
    forall x | x in h.conts ensures JumpTo(code1, x, W.cnt) {
      assert x in h.All();
      KeptJumpTo(whole, code1, a, end, [], x, W.cnt);
    }
    UsePart(A, code, consts, Seg(b, [], j, []), OfStmt(body), names, frame, h,
            whole, a, end, [], code1, consts1, W);
  }

  lemma WhileCompiles(A: Arith, whole: seq<byte>, consts: seq<Value>,
                      codeC: seq<byte>, constsC: seq<Value>, a: nat, b: nat, hole: int, c: Expr,
                      codeB: seq<byte>, j: nat, body: Stmt, h: Holes, names: seq<Text>, frame: Frame)
    requires BranchCompiles(A, codeC, constsC, a, b, hole, c, names) && constsC <= consts
    requires Compiles(A, codeB, consts, Seg(b, [], j, []), OfStmt(body), names, Frame(|names|, Some(a)), h)
    requires Extends(codeC, whole, a, b, HoleOf(hole)) && Patched(whole, HoleOf(hole), j + 3)
    requires Extends(codeB, whole, b, j, h.All()) && Patched(whole, h.breaks, j + 3) && h.conts == []
    requires j + 3 <= |whole| && JumpAt(whole, j, a) && frame.height <= |names|
    ensures Compiles(A, whole, consts, Seg(a, [], j + 3, []), OfStmt(While(c, body)), names, frame, NO_HOLES)
  {
    hide Sim, ListAt, JumpTo, JumpAt, BranchSim;
    var seg := Seg(a, [], j + 3, []);
    EmptyListAt(whole, j + 3);
    forall code1, consts1, W0 | Fills(code1, consts1, W0, whole, consts, seg, frame, NO_HOLES)
      ensures Sim(A, Program(code1, consts1), seg, OfStmt(While(c, body)), names, W0)
    {
      var W := Targets(|names|, j + 3, a);
      UseCondition(A, codeC, constsC, a, b, hole, c, names, whole, a, j + 3, [], code1, consts1, j + 3);
      UseBody(A, codeB, consts, b, j, body, names, Frame(|names|, Some(a)), h, whole, a, j + 3, code1, consts1, W);
      KeptJumpAt(whole, code1, a, j + 3, [], j, a);
      SimWhile(A, Program(code1, consts1), a, b, j, j + 3, c, body, names, W, W0);
    }
  }

  lemma DoWhileCompiles(A: Arith, whole: seq<byte>, consts: seq<Value>,
                        codeB: seq<byte>, constsB: seq<Value>, a: nat, j: nat, body: Stmt, h: Holes,
                        codeC: seq<byte>, k: nat, hole: int, c: Expr, names: seq<Text>, frame: Frame)
    requires Compiles(A, codeB, constsB, Seg(a, [], j, []), OfStmt(body), names, Frame(|names|, None), h)
    requires BranchCompiles(A, codeC, consts, j, k, hole, c, names) && constsB <= consts
    requires Extends(codeB, whole, a, j, h.All()) && Patched(whole, h.breaks, k + 3) && Patched(whole, h.conts, j)
    requires Extends(codeC, whole, j, k, HoleOf(hole)) && Patched(whole, HoleOf(hole), k + 3)
    requires k + 3 <= |whole| && JumpAt(whole, k, a) && frame.height <= |names|
    ensures Compiles(A, whole, consts, Seg(a, [], k + 3, []), OfStmt(DoWhile(body, c)), names, frame, NO_HOLES)
  {
    hide Sim, ListAt, JumpTo, JumpAt, BranchSim;
    var seg := Seg(a, [], k + 3, []);
    EmptyListAt(whole, k + 3);
    forall code1, consts1, W0 | Fills(code1, consts1, W0, whole, consts, seg, frame, NO_HOLES)
      ensures Sim(A, Program(code1, consts1), seg, OfStmt(DoWhile(body, c)), names, W0)
    {
      var W := Targets(|names|, k + 3, j);
      UseCondition(A, codeC, consts, j, k, hole, c, names, whole, a, k + 3, [], code1, consts1, k + 3);
      UseBody(A, codeB, constsB, a, j, body, names, Frame(|names|, None), h, whole, a, k + 3, code1, consts1, W);
      KeptJumpAt(whole, code1, a, k + 3, [], k, a);
      SimDoWhile(A, Program(code1, consts1), a, j, k, k + 3, c, body, names, W, W0);
    }
  }

  // ---- For loops ----

  /** A stage of the chunk and of the constant pool. */
  datatype Stage = Stage(code: seq<byte>, consts: seq<Value>)

  lemma ForCompiles(A: Arith, whole: seq<byte>, consts: seq<Value>,
                    atInit: Stage, seg: Seg, init: Decls, h0: Holes,
                    atTest: Stage, hole: int, test: Option<Expr>,
                    atStep: Stage, step: Option<Expr>,
                    atBody: Stage, body: Stmt, h: Holes,
                    F: ForParts, K: seq<Instr>, n: nat, names: seq<Text>, frame: Frame)
    requires Compiles(A, atInit.code, atInit.consts, seg, OfDecls(init, false), names, frame, h0)
    requires n == |Declared(init, false)| && F.s == End(seg) && F.end == F.j + 3
    requires atInit.consts <= consts && atTest.consts <= consts && atStep.consts <= consts && atBody.consts <= consts
    requires |whole| >= F.s && whole[..F.s] == atInit.code[..F.s]
    requires var names1 := names + Declared(init, false);
             && (if test.Some? then BranchCompiles(A, atTest.code, atTest.consts, F.s, F.t, hole, test.value, names1)
                 else F.t == F.s && hole < 0)
             && (if step.Some? then
                   F.t + 3 <= F.i && F.u + 3 <= F.b && JumpAt(whole, F.t, F.b) && JumpAt(whole, F.u, F.s) &&
                   Compiles(A, atStep.code, atStep.consts, Seg(F.i, [], F.u, []), OfStmt(ExprStmt(step.value)), names1,
                            Frame(|names1|, None), NO_HOLES) &&
                   Extends(atStep.code, whole, F.i, F.u, [])
                 else F.b == F.t && F.i == F.s)
             && Compiles(A, atBody.code, atBody.consts, Seg(F.b, [], F.j, []), OfStmt(body), names1,
                         Frame(|names1|, Some(F.i)), h)
    requires test.Some? ==> Extends(atTest.code, whole, F.s, F.t, HoleOf(hole)) && Patched(whole, HoleOf(hole), F.end)
    requires Extends(atBody.code, whole, F.b, F.j, h.All()) && Patched(whole, h.breaks, F.end) && h.conts == []
    requires F.s <= F.t && JumpAt(whole, F.j, F.i)
    requires Pops(A, consts, [], K, n) && ListAt(whole, F.end, K)
    ensures Compiles(A, whole, consts, Seg(seg.start, seg.tin, F.end + SizeAll(K), []),
                     OfStmt(For(init, test, step, body)), names, frame, h0)
  {
    hide Sim, ListAt, JumpTo, JumpAt, BranchSim, IsHole, Pops, ForAt;
    var all := Seg(seg.start, seg.tin, F.end + SizeAll(K), []);
    var names1 := names + Declared(init, false);
    ListWithin(whole, F.end, K);
    BodyShape(A, atBody, Seg(F.b, [], F.j, []), OfStmt(body), names1, Frame(|names1|, Some(F.i)), h);
    if step.Some? {
      BodyShape(A, atStep, Seg(F.i, [], F.u, []), OfStmt(ExprStmt(step.value)), names1, Frame(|names1|, None), NO_HOLES);
    }
    NoHolesBehind(h0, seg);
    forall code1, consts1, W0 | Fills(code1, consts1, W0, whole, consts, all, frame, h0)
      ensures Sim(A, Program(code1, consts1), all, OfStmt(For(init, test, step, body)), names, W0)
    {
      var P := Program(code1, consts1);
      UsePart(A, atInit.code, atInit.consts, seg, OfDecls(init, false), names, frame, h0,
              whole, all.start, all.stop, h0.All(), code1, consts1, W0);
      PrefixList(atInit.code, whole, seg.stop, seg.tout);
      KeptList(whole, code1, all.start, all.stop, h0.All(), seg.stop, seg.tout);
      KeptList(whole, code1, all.start, all.stop, h0.All(), F.end, K);
      assert Extends(whole, code1, F.s, F.end, []) by { LoopBytes(whole, code1, all, h0, F); }
      ForPartsSim(A, whole, consts, atTest, hole, test, atStep, step, atBody, body, h, F, names1, code1, consts1);
      SimFor(A, P, consts, seg, F, init, test, step, body, K, n, names, W0);
    }
  }

  lemma BodyShape(A: Arith, at: Stage, seg: Seg, item: Item, names: seq<Text>, frame: Frame, h: Holes)
    requires Compiles(A, at.code, at.consts, seg, item, names, frame, h)
    ensures seg.start <= seg.stop
  {
  }

  lemma NoHolesBehind(h: Holes, seg: Seg)
    requires Within(h.All(), seg.start, seg.stop)
    ensures forall p :: p >= seg.stop ==> !IsHole(p, h.All())
    ensures forall b: nat :: seg.stop <= b ==> Within(h.All(), seg.start, b)
  {
  }

  lemma LoopBytes(whole: seq<byte>, code1: seq<byte>, all: Seg, h0: Holes, F: ForParts)
    requires Extends(whole, code1, all.start, all.stop, h0.All()) && all.start <= F.s && F.end <= all.stop
    requires forall p :: p >= F.s ==> !IsHole(p, h0.All())
    ensures Extends(whole, code1, F.s, F.end, [])
  {
  }

  lemma PrefixList(code: seq<byte>, whole: seq<byte>, p: nat, L: seq<Instr>)
    requires ListAt(code, p, L) && p + SizeAll(L) <= |whole| && whole[..p + SizeAll(L)] == code[..p + SizeAll(L)]
    ensures ListAt(whole, p, L)
  {
    assert whole[p..p + SizeAll(L)] == whole[..p + SizeAll(L)][p..] == code[p..p + SizeAll(L)];
  }

  lemma ForPartsSim(A: Arith, whole: seq<byte>, consts: seq<Value>,
                    atTest: Stage, hole: int, test: Option<Expr>, atStep: Stage, step: Option<Expr>,
                    atBody: Stage, body: Stmt, h: Holes, F: ForParts, names: seq<Text>,
                    code1: seq<byte>, consts1: seq<Value>)
    requires atTest.consts <= consts && atStep.consts <= consts && atBody.consts <= consts && consts <= consts1
    requires if test.Some? then BranchCompiles(A, atTest.code, atTest.consts, F.s, F.t, hole, test.value, names)
             else F.t == F.s && hole < 0
    requires if step.Some? then
               F.t + 3 <= F.i <= F.u && F.u + 3 <= F.b && JumpAt(whole, F.t, F.b) && JumpAt(whole, F.u, F.s) &&
               Compiles(A, atStep.code, atStep.consts, Seg(F.i, [], F.u, []), OfStmt(ExprStmt(step.value)), names,
                        Frame(|names|, None), NO_HOLES) &&
               Extends(atStep.code, whole, F.i, F.u, [])
             else F.b == F.t && F.i == F.s
    requires Compiles(A, atBody.code, atBody.consts, Seg(F.b, [], F.j, []), OfStmt(body), names,
                      Frame(|names|, Some(F.i)), h)
    requires test.Some? ==> Extends(atTest.code, whole, F.s, F.t, HoleOf(hole)) && Patched(whole, HoleOf(hole), F.end)
    requires Extends(atBody.code, whole, F.b, F.j, h.All()) && Patched(whole, h.breaks, F.end) && h.conts == []
    requires F.s <= F.t && F.b <= F.j && F.end == F.j + 3 && JumpAt(whole, F.j, F.i)
    requires Extends(whole, code1, F.s, F.end, [])
    ensures ForAt(A, Program(code1, consts1), F, test, step, body, names)
  {
    hide Sim, ListAt, JumpTo, JumpAt, BranchSim;
    var P := Program(code1, consts1);
    var W := Targets(|names|, F.end, F.i);
    if test.Some? {
      UseCondition(A, atTest.code, atTest.consts, F.s, F.t, hole, test.value, names, whole, F.s, F.end, [],
                   code1, consts1, F.end);
    }
    if step.Some? {
      KeptJumpAt(whole, code1, F.s, F.end, [], F.t, F.b);
      KeptJumpAt(whole, code1, F.s, F.end, [], F.u, F.s);
      UsePart(A, atStep.code, atStep.consts, Seg(F.i, [], F.u, []), OfStmt(ExprStmt(step.value)), names,
              Frame(|names|, None), NO_HOLES, whole, F.s, F.end, [], code1, consts1, W);
    }
    KeptJumpAt(whole, code1, F.s, F.end, [], F.j, F.i);
    UseBody(A, atBody.code, atBody.consts, F.b, F.j, body, names, Frame(|names|, Some(F.i)), h, whole, F.s, F.end,
            code1, consts1, W);
  }
}
