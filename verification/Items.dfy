/** Straight-line code for declarations and simple statements, and the conditional jumps. */
module Items {
  import opened Types
  import opened Values
  import opened Syntax
  import opened Semantics
  import opened Bytecode
  import opened Machine
  import opened Peephole
  import opened Expressions
  import opened Simulation
  import opened Layout

  // ---- Instructions with known effect ----

  lemma PopRuns(A: Arith, consts: seq<Value>, m: Machine, v: Value)
    ensures ExecList(A, consts, [Pop], m.Push(v)) == Ok(m)
  {
    ExecOne(A, consts, Pop, m.Push(v));
    assert m.Push(v).Drop(1) == m;
  }

  lemma PrintRuns(A: Arith, consts: seq<Value>, m: Machine, v: Value)
    ensures ExecList(A, consts, [PrintTop], m.Push(v)) == Ok(m.(out := m.out + [v]))
  {
    ExecOne(A, consts, PrintTop, m.Push(v));
    assert m.Push(v).(out := m.out + [v]).Drop(1) == m.(out := m.out + [v]);
  }

  lemma DefineRuns(A: Arith, consts: seq<Value>, m: Machine, v: Value, k: u16, name: Text)
    requires k < |consts| && consts[k] == Str(name)
    ensures ExecList(A, consts, [DefineGlobal(k)], m.Push(v)) == Ok(m.(globals := m.globals[name := v]))
  {
    ExecOne(A, consts, DefineGlobal(k), m.Push(v));
    assert m.Push(v).(globals := m.globals[name := v]).Drop(1) == m.(globals := m.globals[name := v]);
  }

  lemma PopSomeRuns(A: Arith, consts: seq<Value>, env: Env, g: Globals, out: seq<Value>, n: u16)
    requires 1 <= n <= |env|
    ensures ExecList(A, consts, [PopN(n)], StateOf(env, [], g, out)) == Ok(StateOf(env[..|env| - n], [], g, out))
    ensures n == 1 ==> ExecList(A, consts, [Pop], StateOf(env, [], g, out)) == Ok(StateOf(env[..|env| - n], [], g, out))
  {
    var m := StateOf(env, [], g, out);
    ExecOne(A, consts, PopN(n), m);
    ExecOne(A, consts, Pop, m);
    assert m.Drop(n) == StateOf(env[..|env| - n], [], g, out);
  }

  // ---- Dropping locals ----

  lemma PopsNone(A: Arith, consts: seq<Value>, T: seq<Instr>)
    ensures Pops(A, consts, T, T, 0)
  {
    hide ExecList;
    forall consts1: seq<Value>, env: Env, g, out, m | consts <= consts1 && Carries(A, consts1, T, m, env, g, out)
      ensures ExecList(A, consts1, T, m) == Ok(StateOf(env[..|env| - 0], [], g, out))
    {
      assert env[..|env|] == env;
    }
  }

  lemma PopsPlain(A: Arith, consts: seq<Value>, T: seq<Instr>, n: u16)
    requires n >= 1
    ensures Pops(A, consts, T, T + [if n == 1 then Pop else PopN(n)], n)
  {
    hide ExecList, EffectOf;
    var i := if n == 1 then Pop else PopN(n);
    forall consts1: seq<Value>, env: Env, g, out, m | consts <= consts1 && n <= |env| && Carries(A, consts1, T, m, env, g, out)
      ensures ExecList(A, consts1, T + [i], m) == Ok(StateOf(env[..|env| - n], [], g, out))
    {
      ExecAppend(A, consts1, T, [i], m);
      PopSomeRuns(A, consts1, env, g, out, n);
    }
  }

  /** The instructions pending at the end of the tail: an assignment to a local, and the load it assigns. */
  function Pending(tail: seq<Instr>): (T: seq<Instr>)
    ensures |T| <= |tail| && T == tail[|tail| - |T|..]
  {
    if tail == [] || !tail[|tail| - 1].SetLocal? then []
    else if |tail| >= 2 && tail[|tail| - 2].GetLocal? then tail[|tail| - 2..]
    else tail[|tail| - 1..]
  }

  function LastOf(tail: seq<Instr>, n: nat): Option<Instr> {
    if n < |tail| then Some(tail[|tail| - 1 - n]) else None
  }

  /** A pop behind a pending assignment merges with it. */
  lemma PopsMerged(A: Arith, consts: seq<Value>, tail: seq<Instr>)
    requires RewritePop(LastOf(tail, 1), LastOf(tail, 0)).Merge?
    ensures var r := RewritePop(LastOf(tail, 1), LastOf(tail, 0));
            r.drop == |Pending(tail)| + 1 && Pops(A, consts, Pending(tail), [r.i], 1)
  {
    hide EffectOf, ExecList;
    var r := RewritePop(LastOf(tail, 1), LastOf(tail, 0));
    var T := Pending(tail);
    assert if |T| == 1 then T == [tail[|tail| - 1]] else T == [tail[|tail| - 2], tail[|tail| - 1]];
    forall consts1: seq<Value>, env: Env, g, out, m | consts <= consts1 && 1 <= |env| && Carries(A, consts1, T, m, env, g, out)
      ensures ExecList(A, consts1, [r.i], m) == Ok(StateOf(env[..|env| - 1], [], g, out))
    {
      ExecAppend(A, consts1, T, [Pop], m);
      PopSomeRuns(A, consts1, env, g, out, 1);
      if |T| == 1 {
        assert T + [Pop] == [SetLocal(T[0].i), Pop];
        MergeSetPop(A, consts1, T[0].i, m);
      } else {
        assert T + [Pop] == [GetLocal(T[0].i), SetLocal(T[1].i), Pop];
        MergeMove(A, consts1, T[0].i, T[1].i, m);
      }
    }
  }

  // ---- Expression statements ----

  /** An expression whose value is dropped. */
  lemma ExprStmtDoes(A: Arith, consts: seq<Value>, L: seq<Instr>, e: Expr, names: seq<Text>)
    requires ExprCode(A, consts, L, e, names)
    ensures ListDoes(A, consts, L + [Pop], [], OfStmt(ExprStmt(e)), names)
  {
    hide EffectOf, ExecList, Eval;
    forall consts1: seq<Value>, env, g, out, fuel: nat | consts <= consts1 && NamesOf(env) == names
      ensures ListFollows(A, consts1, L + [Pop], [], ExecItem(A, OfStmt(ExprStmt(e)), env, g, out, fuel), StateOf(env, [], g, out))
    {
      assert Computes(A, consts1, L, e, env, [], g, out);
      AppendPoint(A, consts1, L, e, Pop, env, [], g, out);
      var r := Eval(A, e, env, g);
      if r.Val? {
        var m := StateOf(r.env, [], r.g, out);
        PopRuns(A, consts1, m, r.v);
        CarriesState(A, consts1, r.env, r.g, out, m);
      }
    }
  }

  /** An assignment whose value is dropped, merged with the pop: behind other code, or behind a single load. */
  lemma AssignStmtDoes(A: Arith, consts: seq<Value>, L: seq<Instr>, name: Text, x: Expr, y: byte, names: seq<Text>)
    requires ExprCode(A, consts, L, x, names) && Innermost(names, name) == y
    ensures ListDoes(A, consts, L + [SetLocalPop(y)], [], OfStmt(ExprStmt(Assign(name, x))), names)
    ensures |L| == 1 && L[0].GetLocal? ==>
              ListDoes(A, consts, [MoveLocal(L[0].i, y)], [], OfStmt(ExprStmt(Assign(name, x))), names)
  {
    hide EffectOf, ExecList, Eval, Fits;
    var e := Assign(name, x);
    AssignLocalCode(A, consts, L, x, y, name, names);
    ExprStmtDoes(A, consts, L + [SetLocal(y)], e, names);
    var K := L + [SetLocal(y)] + [Pop];
    assert K == L + [SetLocal(y), Pop];
    forall consts1: seq<Value>, env, g, out, fuel: nat | consts <= consts1 && NamesOf(env) == names
      ensures ListFollows(A, consts1, L + [SetLocalPop(y)], [], ExecItem(A, OfStmt(ExprStmt(e)), env, g, out, fuel), StateOf(env, [], g, out))
      ensures |L| == 1 && L[0].GetLocal? ==>
                ListFollows(A, consts1, [MoveLocal(L[0].i, y)], [], ExecItem(A, OfStmt(ExprStmt(e)), env, g, out, fuel), StateOf(env, [], g, out))
    {
      var m := StateOf(env, [], g, out);
      assert ListFollows(A, consts1, K, [], ExecItem(A, OfStmt(ExprStmt(e)), env, g, out, fuel), m);
      assert Computes(A, consts1, L, x, env, [], g, out);
      ExecAppend(A, consts1, L, [SetLocal(y), Pop], m);
      ExecAppend(A, consts1, L, [SetLocalPop(y)], m);
      var r := ExecList(A, consts1, L, m);
      if r.Ok? { MergeSetPop(A, consts1, y, r.m); }
      if |L| == 1 && L[0].GetLocal? {
        assert K == [GetLocal(L[0].i), SetLocal(y), Pop];
        MergeMove(A, consts1, L[0].i, y, m);
      }
    }
  }

  // ---- Print and declarations ----

  lemma PrintDoes(A: Arith, consts: seq<Value>, L: seq<Instr>, e: Expr, names: seq<Text>)
    requires ExprCode(A, consts, L, e, names)
    ensures ListDoes(A, consts, L + [PrintTop], [], OfStmt(Print(e)), names)
  {
    hide EffectOf, ExecList, Eval;
    forall consts1: seq<Value>, env, g, out, fuel: nat | consts <= consts1 && NamesOf(env) == names
      ensures ListFollows(A, consts1, L + [PrintTop], [], ExecItem(A, OfStmt(Print(e)), env, g, out, fuel), StateOf(env, [], g, out))
    {
      assert Computes(A, consts1, L, e, env, [], g, out);
      AppendPoint(A, consts1, L, e, PrintTop, env, [], g, out);
      var r := Eval(A, e, env, g);
      if r.Val? {
        PrintRuns(A, consts1, StateOf(r.env, [], r.g, out), r.v);
        CarriesState(A, consts1, r.env, r.g, out + [r.v], StateOf(r.env, [], r.g, out + [r.v]));
      }
    }
  }

  /** A declaration without initializer is one initialized to nil. */
  function InitOf(init: Option<Expr>): Expr {
    if init.Some? then init.value else NilLit
  }

  lemma GlobalDoes(A: Arith, consts: seq<Value>, L: seq<Instr>, name: Text, isConst: bool, init: Option<Expr>, k: u16,
                   names: seq<Text>)
    requires ExprCode(A, consts, L, InitOf(init), names) && k < |consts| && consts[k] == Str(name)
    ensures ListDoes(A, consts, L + [DefineGlobal(k)], [], OfDecl(Var(name, isConst, init), true), names)
  {
    hide EffectOf, ExecList;
    var d := Var(name, isConst, init);
    forall consts1: seq<Value>, env, g, out, fuel: nat | consts <= consts1 && NamesOf(env) == names
      ensures ListFollows(A, consts1, L + [DefineGlobal(k)], [], ExecItem(A, OfDecl(d, true), env, g, out, fuel), StateOf(env, [], g, out))
    {
      assert Computes(A, consts1, L, InitOf(init), env, [], g, out);
      AppendPoint(A, consts1, L, InitOf(init), DefineGlobal(k), env, [], g, out);
      var r := Eval(A, InitOf(init), env, g);
      if r.Val? {
        DefineRuns(A, consts1, StateOf(r.env, [], r.g, out), r.v, k, name);
        CarriesState(A, consts1, r.env, r.g[name := r.v], out, StateOf(r.env, [], r.g[name := r.v], out));
      }
    }
  }

  /** A new local is the value left on the stack. */
  lemma NewLocal(env: Env, g: Globals, out: seq<Value>, name: Text, v: Value)
    ensures StateOf(env, [], g, out).Push(v) == StateOf(env + [Binding(name, v)], [], g, out)
  {
    assert ValuesOf(env + [Binding(name, v)]) == ValuesOf(env) + [v];
  }

  lemma LocalDoes(A: Arith, consts: seq<Value>, L: seq<Instr>, name: Text, isConst: bool, init: Option<Expr>,
                  names: seq<Text>)
    requires ExprCode(A, consts, L, InitOf(init), names)
    ensures ListDoes(A, consts, L, [], OfDecl(Var(name, isConst, init), false), names)
  {
    hide EffectOf, ExecList;
    var d := Var(name, isConst, init);
    forall consts1: seq<Value>, env, g, out, fuel: nat | consts <= consts1 && NamesOf(env) == names
      ensures ListFollows(A, consts1, L, [], ExecItem(A, OfDecl(d, false), env, g, out, fuel), StateOf(env, [], g, out))
    {
      assert Computes(A, consts1, L, InitOf(init), env, [], g, out);
      var r := Eval(A, InitOf(init), env, g);
      if r.Val? {
        NewLocal(r.env, r.g, out, name, r.v);
        CarriesState(A, consts1, r.env + [Binding(name, r.v)], r.g, out, StateOf(r.env + [Binding(name, r.v)], [], r.g, out));
      }
    }
  }

  /** A local initialized by an assignment, which stays pending: behind the code K of the assigned value, or, if
      that is a load, as a whole. */
  lemma PendingLocalDoes(A: Arith, consts: seq<Value>, K: seq<Instr>, name: Text, isConst: bool, init: Option<Expr>,
                         y: byte, names: seq<Text>)
    requires init.Some? && init.value.Assign? && Innermost(names, init.value.name) == y
    requires ExprCode(A, consts, K, init.value.value, names)
    ensures ListDoes(A, consts, K, [SetLocal(y)], OfDecl(Var(name, isConst, init), false), names)
    ensures |K| == 1 && K[0].GetLocal? ==>
              ListDoes(A, consts, [], [K[0], SetLocal(y)], OfDecl(Var(name, isConst, init), false), names)
  {
    hide EffectOf, ExecList, Eval, Fits;
    var d := Var(name, isConst, init);
    var x := init.value.value;
    AssignLocalCode(A, consts, K, x, y, init.value.name, names);
    LocalDoes(A, consts, K + [SetLocal(y)], name, isConst, init, names);
    forall consts1: seq<Value>, env, g, out, fuel: nat | consts <= consts1 && NamesOf(env) == names
      ensures ListFollows(A, consts1, K, [SetLocal(y)], ExecItem(A, OfDecl(d, false), env, g, out, fuel), StateOf(env, [], g, out))
      ensures |K| == 1 && K[0].GetLocal? ==>
                ListFollows(A, consts1, [], [K[0], SetLocal(y)], ExecItem(A, OfDecl(d, false), env, g, out, fuel), StateOf(env, [], g, out))
    {
      var m := StateOf(env, [], g, out);
      var o := ExecItem(A, OfDecl(d, false), env, g, out, fuel);
      assert ListFollows(A, consts1, K + [SetLocal(y)], [], o, m);
      assert Computes(A, consts1, K, x, env, [], g, out);
      ExecAppend(A, consts1, K, [SetLocal(y)], m);
      EvalKeepsNames(A, x, env, g);
      PendingPoint(A, consts1, K, y, o, m);
      if |K| == 1 && K[0].GetLocal? {
        assert K == [GetLocal(K[0].i)];
        assert K + [SetLocal(y)] == [GetLocal(K[0].i), SetLocal(y)];
        LoadPending(A, consts1, K[0].i, y, o, m);
      }
    }
  }

  lemma PendingPoint(A: Arith, consts: seq<Value>, K: seq<Instr>, y: byte, o: Outcome, m: Machine)
    requires ListFollows(A, consts, K + [SetLocal(y)], [], o, m)
    requires !ExecList(A, consts, K, m).Stuck?
    ensures ListFollows(A, consts, K, [SetLocal(y)], o, m)
  {
    ExecAppend(A, consts, K, [SetLocal(y)], m);
    var r := ExecList(A, consts, K, m);
    if r.Ok? {
      ExecOne(A, consts, SetLocal(y), r.m);
      if o.Normal? { CarriesState(A, consts, o.env, o.g, o.out, ExecList(A, consts, K + [SetLocal(y)], m).m); }
    }
  }

  lemma LoadPending(A: Arith, consts: seq<Value>, x: byte, y: byte, o: Outcome, m: Machine)
    requires ListFollows(A, consts, [GetLocal(x), SetLocal(y)], [], o, m)
    requires y < |m.stack| && !ExecList(A, consts, [GetLocal(x)], m).Stuck?
    ensures ListFollows(A, consts, [], [GetLocal(x), SetLocal(y)], o, m)
  {
    ExecOne(A, consts, GetLocal(x), m);
    var m1 := m.Push(m.stack[x]);
    ExecCons(A, consts, GetLocal(x), [SetLocal(y)], m);
    assert [GetLocal(x)] + [SetLocal(y)] == [GetLocal(x), SetLocal(y)];
    ExecOne(A, consts, SetLocal(y), m1);
    if o.Normal? {
      CarriesState(A, consts, o.env, o.g, o.out, ExecList(A, consts, [GetLocal(x), SetLocal(y)], m).m);
    }
  }

  // ---- Conditional jumps ----

  /** The bytes of a jump before its operand. */
  function BranchHead(f: BranchForm): (s: seq<byte>)
    requires !f.Never? && WellFormed(BranchInstr(f, 0xFFFF))
  {
    Encode(BranchInstr(f, 0xFFFF))[..Size(BranchInstr(f, 0xFFFF)) - 2]
  }

  lemma FilledBranch(code: seq<byte>, p: nat, f: BranchForm, target: nat)
    requires !f.Never? && WellFormed(BranchInstr(f, 0xFFFF))
    requires var n := |BranchHead(f)|; p + n <= |code| && code[p..p + n] == BranchHead(f) && JumpTo(code, p + n, target)
    ensures var off := target - p - |BranchHead(f)| - 2;
            0 <= off < 0x1_0000 && At(code, p, BranchInstr(f, off)) && Size(BranchInstr(f, off)) == |BranchHead(f)| + 2
  {
    hide BranchInstr, JumpTo;
    var n := |BranchHead(f)|;
    var off := target - p - n - 2;
    OffsetFits(code, p + n, target);
    HeadThenShort(f, off);
    FilledShort(code, p + n, off);
    assert code[p..p + n + 2] == code[p..p + n] + code[p + n..p + n + 2];
  }

  lemma OffsetFits(code: seq<byte>, h: nat, target: nat)
    requires JumpTo(code, h, target)
    ensures 0 <= target - h - 2 < 0x1_0000 && ReadShort(code, h) == Some(target - h - 2)
  {
  }

  /** A conditional jump is its head, and its operand. */
  lemma HeadThenShort(f: BranchForm, off: u16)
    requires !f.Never? && WellFormed(BranchInstr(f, 0xFFFF))
    ensures WellFormed(BranchInstr(f, off)) && Size(BranchInstr(f, off)) == |BranchHead(f)| + 2
    ensures Encode(BranchInstr(f, off)) == BranchHead(f) + Short(off)
  {
  }

  /** A condition known at compile time, or a comparison fused with its jump, or a tested value. */
  lemma BranchCodeCompiles(A: Arith, code: seq<byte>, consts: seq<Value>, a: nat, L: seq<Instr>, cond: Expr,
                           names: seq<Text>)
    requires ExprCode(A, consts, L, cond, names) && PoolValid(consts)
    requires BranchOf(L).Plain? ==> ListAt(code, a, L)
    requires !BranchOf(L).Never? && WellFormed(BranchInstr(BranchOf(L), 0xFFFF))
    requires var p := a + (if BranchOf(L).Plain? then SizeAll(L) else 0);
             var n := |BranchHead(BranchOf(L))|;
             p + n + 2 <= |code| && code[p..p + n] == BranchHead(BranchOf(L))
    ensures var h := a + (if BranchOf(L).Plain? then SizeAll(L) else 0) + |BranchHead(BranchOf(L))|;
            BranchCompiles(A, code, consts, a, h + 2, h, cond, names)
  {
    hide ExprCode, BranchSim, BranchHead, BranchOf, EffectOf, ListAt, BranchInstr, Extends, Patched, At;
    var f := BranchOf(L);
    var p := a + (if f.Plain? then SizeAll(L) else 0);
    var n := |BranchHead(f)|;
    var h := p + n;
    forall code1, consts1: seq<Value>, target: nat |
      consts <= consts1 && Extends(code, code1, a, h + 2, HoleOf(h)) && Patched(code1, HoleOf(h), target)
      ensures BranchSim(A, Program(code1, consts1), a, h + 2, target, cond, names)
    {
      FilledAt(code, code1, a, p, L, target);
      BranchRuns(A, Program(code1, consts1), consts, a, L, cond, names, target - h - 2);
    }
  }

  /** The condition's code is still there when its jump has been patched. */
  lemma FilledAt(code: seq<byte>, code1: seq<byte>, a: nat, p: nat, L: seq<Instr>, target: nat)
    requires !BranchOf(L).Never? && WellFormed(BranchInstr(BranchOf(L), 0xFFFF))
    requires BranchOf(L).Plain? ==> ListAt(code, a, L)
    requires p == a + (if BranchOf(L).Plain? then SizeAll(L) else 0)
    requires var h := p + |BranchHead(BranchOf(L))|;
             h + 2 <= |code| && code[p..h] == BranchHead(BranchOf(L))
             && Extends(code, code1, a, h + 2, HoleOf(h)) && Patched(code1, HoleOf(h), target)
    ensures var off := target - p - |BranchHead(BranchOf(L))| - 2;
            0 <= off < 0x1_0000 && At(code1, p, BranchInstr(BranchOf(L), off))
            && Size(BranchInstr(BranchOf(L), off)) == |BranchHead(BranchOf(L))| + 2
    ensures BranchOf(L).Plain? ==> ListAt(code1, a, L)
  {
    hide BranchHead, BranchOf, ListAt, BranchInstr, Extends, At, WellFormed;
    var h := p + |BranchHead(BranchOf(L))|;
    assert h in HoleOf(h);
    KeptBytes(code, code1, a, h + 2, HoleOf(h), p, h);
    ExtendsLength(code, code1, a, h + 2, HoleOf(h));
    FilledBranch(code1, p, BranchOf(L), target);
    if BranchOf(L).Plain? { KeptList(code, code1, a, h + 2, HoleOf(h), a, L); }
  }

  lemma ExtendsLength(code: seq<byte>, code1: seq<byte>, a: nat, b: nat, holes: seq<nat>)
    requires Extends(code, code1, a, b, holes) && a <= b <= |code|
    ensures b <= |code1|
  {
  }

  lemma BranchRuns(A: Arith, P: Program, consts: seq<Value>, a: nat, L: seq<Instr>, cond: Expr, names: seq<Text>, off: u16)
    requires ExprCode(A, consts, L, cond, names) && PoolValid(consts) && consts <= P.consts
    requires !BranchOf(L).Never?
    requires BranchOf(L).Plain? ==> ListAt(P.code, a, L)
    requires At(P.code, a + (if BranchOf(L).Plain? then SizeAll(L) else 0), BranchInstr(BranchOf(L), off))
    ensures var b := a + (if BranchOf(L).Plain? then SizeAll(L) else 0) + Size(BranchInstr(BranchOf(L), off));
            BranchSim(A, P, a, b, b + off, cond, names)
  {
    hide EffectOf, ExecList, Eval, At, ListAt, Reaches, WellFormed;
    var f := BranchOf(L);
    var i := BranchInstr(f, off);
    var p := a + (if f.Plain? then SizeAll(L) else 0);
    var b := p + Size(i);
    var target := b + off;
    forall env, g, out | NamesOf(env) == names
      ensures BranchFollows(A, P, a, b, target, cond, env, g, out)
    {
      var m := StateOf(env, [], g, out);
      assert Computes(A, P.consts, L, cond, env, [], g, out);
      var r := Eval(A, cond, env, g);
      if f.Plain? {
        ListRuns(A, P, a, L, m);
        if r.Val? {
          var m1 := StateOf(r.env, [], r.g, out);
          TestRuns(A, P, p, off, m1, r.v);
          ReachesTrans(A, P, Running(a, m), Running(p, m1.Push(r.v)),
                       Running(if Falsey(r.v) then b + off else b, m1));
        }
      } else {
        DirectRuns(A, P, consts, a, L, cond, names, off, env, g, out);
      }
    }
  }

  lemma TestRuns(A: Arith, P: Program, p: nat, off: u16, m: Machine, v: Value)
    requires At(P.code, p, JumpIfFalsePop(off))
    ensures Reaches(A, P, Running(p, m.Push(v)), Running(if Falsey(v) then p + 3 + off else p + 3, m))
  {
    StepAt(A, P, p, JumpIfFalsePop(off), m.Push(v));
    assert m.Push(v).Drop(1) == m;
  }

  /** One instruction that stands for the condition and its test. */
  lemma DirectRuns(A: Arith, P: Program, consts: seq<Value>, a: nat, L: seq<Instr>, cond: Expr, names: seq<Text>, off: u16,
                   env: Env, g: Globals, out: seq<Value>)
    requires ExprCode(A, consts, L, cond, names) && PoolValid(consts) && consts <= P.consts && NamesOf(env) == names
    requires !BranchOf(L).Never? && !BranchOf(L).Plain?
    requires At(P.code, a, BranchInstr(BranchOf(L), off))
    ensures var b := a + Size(BranchInstr(BranchOf(L), off));
            BranchFollows(A, P, a, b, b + off, cond, env, g, out)
  {
    hide EffectOf, ExecList, Eval, At, Reaches, WellFormed, BranchOf, BranchInstr;
    var m := StateOf(env, [], g, out);
    StepAt(A, P, a, BranchInstr(BranchOf(L), off), m);
    var r := Eval(A, cond, env, g);
    if r.Val? {
      var m1 := StateOf(r.env, [], r.g, out);
      assert m1.Push(r.v).Drop(1) == m1;
    }
    assert Computes(A, P.consts, L, cond, env, [], g, out);
    DirectEffect(A, P.consts, consts, L, cond, names, off, m);
  }

  lemma DirectEffect(A: Arith, consts1: seq<Value>, consts: seq<Value>, L: seq<Instr>, cond: Expr, names: seq<Text>,
                     off: u16, m: Machine)
    requires ExprCode(A, consts, L, cond, names) && PoolValid(consts) && consts <= consts1 && |m.stack| == |names|
    requires !BranchOf(L).Never? && !BranchOf(L).Plain? && !ExecList(A, consts1, L, m).Stuck?
    ensures EffectOf(A, consts1, BranchInstr(BranchOf(L), off), m) == BranchEffect(ExecList(A, consts1, L, m), off)
    ensures ExecList(A, consts1, L, m).Fault? ==> ExecList(A, consts1, L, m) == Fault(m.globals, m.out)
  {
    hide EffectOf, ExecList, Computes, BranchInstr;
    assert Fits(L[0], |names|, |consts|);
    if BranchOf(L).Always? {
      LiteralBranch(A, consts1, L, off, m);
    } else {
      assert Fits(L[1], |names|, |consts|);
      FusionSound(A, consts1, L, off, m);
    }
  }

  lemma LiteralBranch(A: Arith, consts: seq<Value>, L: seq<Instr>, off: u16, m: Machine)
    requires BranchOf(L).Always?
    ensures ExecList(A, consts, L, m).Ok?
    ensures EffectOf(A, consts, BranchInstr(BranchOf(L), off), m) == BranchEffect(ExecList(A, consts, L, m), off)
  {
    hide ExecList, EffectOf;
    ConstantBranchSound(A, consts, L, off, m);
    JumpEffect(A, consts, off, m);
  }

  lemma JumpEffect(A: Arith, consts: seq<Value>, off: u16, m: Machine)
    ensures EffectOf(A, consts, Jump(off), m) == Hop(m, off)
  {
  }

  /** A condition that is a truthy constant needs no code at all. */
  lemma NoBranchCompiles(A: Arith, code: seq<byte>, consts: seq<Value>, a: nat, L: seq<Instr>, cond: Expr,
                         names: seq<Text>)
    requires ExprCode(A, consts, L, cond, names) && PoolValid(consts) && BranchOf(L).Never? && a <= |code|
    ensures BranchCompiles(A, code, consts, a, a, -1, cond, names)
  {
    hide EffectOf, Eval, ExecList, ExprCode, BranchFollows, Extends, Patched, BranchOf;
    forall code1, consts1: seq<Value>, target: nat |
      consts <= consts1 && Extends(code, code1, a, a, HoleOf(-1)) && Patched(code1, HoleOf(-1), target)
      ensures BranchSim(A, Program(code1, consts1), a, a, target, cond, names)
    {
      forall env, g, out | NamesOf(env) == names
        ensures BranchFollows(A, Program(code1, consts1), a, a, target, cond, env, g, out)
      {
        NeverRuns(A, Program(code1, consts1), consts, a, target, L, cond, names, env, g, out);
      }
    }
  }

  lemma NeverRuns(A: Arith, P: Program, consts: seq<Value>, a: nat, target: nat, L: seq<Instr>, cond: Expr,
                  names: seq<Text>, env: Env, g: Globals, out: seq<Value>)
    requires ExprCode(A, consts, L, cond, names) && PoolValid(consts) && BranchOf(L).Never?
    requires consts <= P.consts && NamesOf(env) == names
    ensures BranchFollows(A, P, a, a, target, cond, env, g, out)
  {
    hide EffectOf, Eval, ExecList, Reaches;
    var m := StateOf(env, [], g, out);
    assert Computes(A, P.consts, L, cond, env, [], g, out);
    ReachesSelf(A, P, Running(a, m));
    assert Fits(L[0], |names|, |consts|);
    assert L == [L[0]];
    LoadEffect(A, P.consts, L[0], m);
    ExecOne(A, P.consts, L[0], m);
    var r := Eval(A, cond, env, g);
    assert m.Push(LoadedBy(P.consts, L[0])).Drop(1) == m;
    assert StateOf(r.env, [], r.g, out).Push(r.v).Drop(1) == StateOf(r.env, [], r.g, out);
    assert m.Push(LoadedBy(P.consts, L[0])).Top() == r.v;
  }
}
