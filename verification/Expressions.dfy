/** Instruction lists that compute expressions. */
module Expressions {
  import opened Types
  import opened Values
  import opened Syntax
  import opened Semantics
  import opened Bytecode
  import opened Machine
  import opened Peephole

  /** The stack holds the locals and, above them, the operands of the operations under way. */
  function StateOf(env: Env, temps: seq<Value>, g: Globals, out: seq<Value>): Machine {
    Machine(ValuesOf(env) + temps, g, out)
  }

  /** An expression leaves its value on top, or raises its error. */
  function ExprResult(r: EvalResult, temps: seq<Value>, out: seq<Value>): ListResult {
    match r
    case Val(v, env, g) => Ok(StateOf(env, temps, g, out).Push(v))
    case Err(g) => Fault(g, out)
  }

  ghost predicate Computes(A: Arith, consts: seq<Value>, L: seq<Instr>, e: Expr,
                           env: Env, temps: seq<Value>, g: Globals, out: seq<Value>) {
    ExecList(A, consts, L, StateOf(env, temps, g, out)) == ExprResult(Eval(A, e, env, g), temps, out)
  }

  /** Slots of declared locals, constants of the pool. */
  predicate Fits(i: Instr, slots: nat, pool: nat) {
    match i
    case Constant(k) => k < pool
    case GetLocal(x) => x < slots
    case SetLocal(x) => x < slots
    case SetLocalPop(x) => x < slots
    case MoveLocal(x, y) => x < slots && y < slots
    case BinConst(_, k) => k < pool
    case BinLocal(_, x) => x < slots
    case UnLocal(_, x) => x < slots
    case GetGlobal(k) => k < pool
    case SetGlobal(k) => k < pool
    case DefineGlobal(k) => k < pool
    case _ => true
  }

  predicate AllFit(L: seq<Instr>, slots: nat, pool: nat) {
    forall j :: 0 <= j < |L| ==> WellFormed(L[j]) && Fits(L[j], slots, pool)
  }

  /** L is code for e where the locals in scope are called names: for the pool now and as it grows, for all
      values of the locals and globals, and above any operands, L does what evaluating e does. */
  ghost predicate ExprCode(A: Arith, consts: seq<Value>, L: seq<Instr>, e: Expr, names: seq<Text>) {
    L != [] && AllFit(L, |names|, |consts|) &&
    forall consts1: seq<Value>, env, temps, g, out :: consts <= consts1 && NamesOf(env) == names ==>
      Computes(A, consts1, L, e, env, temps, g, out)
  }

  lemma ExprCodeGrows(A: Arith, consts: seq<Value>, consts1: seq<Value>, L: seq<Instr>, e: Expr, names: seq<Text>)
    requires ExprCode(A, consts, L, e, names) && consts <= consts1
    ensures ExprCode(A, consts1, L, e, names)
  {
    hide Computes;
  }

  // ---- Loads ----

  predicate IsConstExpr(e: Expr) {
    e.NilLit? || e.BoolLit? || e.NumberLit? || e.StringLit?
  }

  function LiteralValue(e: Expr): Value
    requires IsConstExpr(e)
  {
    match e
    case NilLit => Nil
    case BoolLit(b) => Bool(b)
    case NumberLit(n) => Number(n)
    case StringLit(s) => Str(s)
  }

  /** Loading the value that an expression always has. */
  lemma LoadCode(A: Arith, consts: seq<Value>, i: Instr, e: Expr, names: seq<Text>)
    requires LoadsConst(i) && InPool(consts, Some(i))
    requires forall env, g :: Eval(A, e, env, g) == Val(LoadedBy(consts, i), env, g)
    ensures ExprCode(A, consts, [i], e, names)
  {
    hide EffectOf, Eval;
    forall consts1: seq<Value>, env, temps, g, out | consts <= consts1 && NamesOf(env) == names
      ensures Computes(A, consts1, [i], e, env, temps, g, out)
    {
      LoadEffect(A, consts1, i, StateOf(env, temps, g, out));
      ExecOne(A, consts1, i, StateOf(env, temps, g, out));
    }
  }

  lemma ReadLocalCode(A: Arith, consts: seq<Value>, i: byte, name: Text, names: seq<Text>)
    requires Innermost(names, name) == i
    ensures ExprCode(A, consts, [GetLocal(i)], Variable(name), names)
  {
    forall consts1: seq<Value>, env, temps, g, out | consts <= consts1 && NamesOf(env) == names
      ensures Computes(A, consts1, [GetLocal(i)], Variable(name), env, temps, g, out)
    {
      ExecOne(A, consts1, GetLocal(i), StateOf(env, temps, g, out));
    }
  }

  lemma ReadGlobalCode(A: Arith, consts: seq<Value>, k: u16, name: Text, names: seq<Text>)
    requires Innermost(names, name) < 0 && k < |consts| && consts[k] == Str(name)
    ensures ExprCode(A, consts, [GetGlobal(k)], Variable(name), names)
  {
    forall consts1: seq<Value>, env, temps, g, out | consts <= consts1 && NamesOf(env) == names
      ensures Computes(A, consts1, [GetGlobal(k)], Variable(name), env, temps, g, out)
    {
      ExecOne(A, consts1, GetGlobal(k), StateOf(env, temps, g, out));
    }
  }

  // ---- Assignments and operators ----

  /** Appending one instruction to the code of an operand. */
  lemma AppendPoint(A: Arith, consts: seq<Value>, L: seq<Instr>, e: Expr, i: Instr,
                    env: Env, temps: seq<Value>, g: Globals, out: seq<Value>)
    requires Computes(A, consts, L, e, env, temps, g, out)
    ensures var r := Eval(A, e, env, g);
            ExecList(A, consts, L + [i], StateOf(env, temps, g, out)) ==
            if r.Val? then ExecList(A, consts, [i], StateOf(r.env, temps, r.g, out).Push(r.v)) else Fault(r.g, out)
  {
    hide Eval, ExecList;
    ExecAppend(A, consts, L, [i], StateOf(env, temps, g, out));
  }

  lemma SetLocalRuns(A: Arith, consts: seq<Value>, i: byte, name: Text, env: Env, temps: seq<Value>, g: Globals,
                     out: seq<Value>, v: Value)
    requires i < |env|
    ensures ExecList(A, consts, [SetLocal(i)], StateOf(env, temps, g, out).Push(v)) ==
            Ok(StateOf(env[i := Binding(name, v)], temps, g, out).Push(v))
  {
    var m := StateOf(env, temps, g, out).Push(v);
    ExecOne(A, consts, SetLocal(i), m);
    assert m.stack[i := v] == ValuesOf(env[i := Binding(name, v)]) + temps + [v];
  }

  lemma AssignLocalCode(A: Arith, consts: seq<Value>, L: seq<Instr>, x: Expr, i: byte, name: Text, names: seq<Text>)
    requires ExprCode(A, consts, L, x, names) && Innermost(names, name) == i
    ensures ExprCode(A, consts, L + [SetLocal(i)], Assign(name, x), names)
  {
    hide Computes, EffectOf, ExecList;
    forall consts1: seq<Value>, env, temps, g, out | consts <= consts1 && NamesOf(env) == names
      ensures Computes(A, consts1, L + [SetLocal(i)], Assign(name, x), env, temps, g, out)
    {
      AssignLocalPoint(A, consts1, L, x, i, name, env, temps, g, out);
    }
  }

  lemma AssignLocalPoint(A: Arith, consts: seq<Value>, L: seq<Instr>, x: Expr, i: byte, name: Text,
                         env: Env, temps: seq<Value>, g: Globals, out: seq<Value>)
    requires Computes(A, consts, L, x, env, temps, g, out) && Innermost(NamesOf(env), name) == i
    ensures Computes(A, consts, L + [SetLocal(i)], Assign(name, x), env, temps, g, out)
  {
    hide EffectOf, ExecList;
    AppendPoint(A, consts, L, x, SetLocal(i), env, temps, g, out);
    EvalKeepsNames(A, x, env, g);
    var r := Eval(A, x, env, g);
    if r.Val? { SetLocalRuns(A, consts, i, name, r.env, temps, r.g, out, r.v); }
  }

  lemma SetGlobalRuns(A: Arith, consts: seq<Value>, k: u16, name: Text, m: Machine)
    requires k < |consts| && consts[k] == Str(name) && |m.stack| > 0
    ensures ExecList(A, consts, [SetGlobal(k)], m) ==
            if name in m.globals then Ok(m.(globals := m.globals[name := m.Top()])) else Fault(m.globals, m.out)
  {
    ExecOne(A, consts, SetGlobal(k), m);
  }

  lemma AssignGlobalCode(A: Arith, consts: seq<Value>, L: seq<Instr>, x: Expr, k: u16, name: Text, names: seq<Text>)
    requires ExprCode(A, consts, L, x, names) && Innermost(names, name) < 0
    requires k < |consts| && consts[k] == Str(name)
    ensures ExprCode(A, consts, L + [SetGlobal(k)], Assign(name, x), names)
  {
    hide EffectOf, ExecList;
    forall consts1: seq<Value>, env, temps, g, out | consts <= consts1 && NamesOf(env) == names
      ensures Computes(A, consts1, L + [SetGlobal(k)], Assign(name, x), env, temps, g, out)
    {
      assert Computes(A, consts1, L, x, env, temps, g, out);
      AppendPoint(A, consts1, L, x, SetGlobal(k), env, temps, g, out);
      EvalKeepsNames(A, x, env, g);
      var r := Eval(A, x, env, g);
      if r.Val? { SetGlobalRuns(A, consts1, k, name, StateOf(r.env, temps, r.g, out).Push(r.v)); }
    }
  }

  lemma UnaryCode(A: Arith, consts: seq<Value>, L: seq<Instr>, x: Expr, op: UnOp, names: seq<Text>)
    requires ExprCode(A, consts, L, x, names)
    ensures ExprCode(A, consts, L + [Un(op)], Unary(op, x), names)
  {
    hide Computes, EffectOf, ExecList, ApplyUnary;
    forall consts1: seq<Value>, env, temps, g, out | consts <= consts1 && NamesOf(env) == names
      ensures Computes(A, consts1, L + [Un(op)], Unary(op, x), env, temps, g, out)
    {
      UnaryPoint(A, consts1, L, x, op, env, temps, g, out);
    }
  }

  lemma UnaryPoint(A: Arith, consts: seq<Value>, L: seq<Instr>, x: Expr, op: UnOp,
                   env: Env, temps: seq<Value>, g: Globals, out: seq<Value>)
    requires Computes(A, consts, L, x, env, temps, g, out)
    ensures Computes(A, consts, L + [Un(op)], Unary(op, x), env, temps, g, out)
  {
    hide EffectOf, ExecList, ApplyUnary;
    AppendPoint(A, consts, L, x, Un(op), env, temps, g, out);
    var r := Eval(A, x, env, g);
    if r.Val? { UnEffect(A, consts, op, StateOf(r.env, temps, r.g, out), r.v); }
  }

  /** Running the code of a second operand above the value of the first. */
  lemma OperandsPoint(A: Arith, consts: seq<Value>, L: seq<Instr>, K: seq<Instr>, l: Expr, r: Expr, names: seq<Text>,
                      env: Env, temps: seq<Value>, g: Globals, out: seq<Value>)
    requires ExprCode(A, consts, L, l, names) && ExprCode(A, consts, K, r, names) && NamesOf(env) == names
    ensures ExecList(A, consts, L + K, StateOf(env, temps, g, out)) ==
            (var x := Eval(A, l, env, g);
             if x.Val? then ExprResult(Eval(A, r, x.env, x.g), temps + [x.v], out) else Fault(x.g, out))
  {
    hide EffectOf, Eval, ExecList;
    var m := StateOf(env, temps, g, out);
    assert Computes(A, consts, L, l, env, temps, g, out);
    ExecAppend(A, consts, L, K, m);
    EvalKeepsNames(A, l, env, g);
    var x := Eval(A, l, env, g);
    if x.Val? {
      assert StateOf(x.env, temps, x.g, out).Push(x.v) == StateOf(x.env, temps + [x.v], x.g, out);
      assert Computes(A, consts, K, r, x.env, temps + [x.v], x.g, out);
    }
  }

  lemma BinaryCode(A: Arith, consts: seq<Value>, L: seq<Instr>, K: seq<Instr>, l: Expr, r: Expr, op: BinOp,
                   names: seq<Text>)
    requires ExprCode(A, consts, L, l, names) && ExprCode(A, consts, K, r, names)
    ensures ExprCode(A, consts, L + K + [Bin(op)], Binary(op, l, r), names)
  {
    hide Computes, EffectOf, ExecList, Apply;
    forall consts1: seq<Value>, env, temps, g, out | consts <= consts1 && NamesOf(env) == names
      ensures Computes(A, consts1, L + K + [Bin(op)], Binary(op, l, r), env, temps, g, out)
    {
      ExprCodeGrows(A, consts, consts1, L, l, names);
      ExprCodeGrows(A, consts, consts1, K, r, names);
      BinaryPoint(A, consts1, L, K, l, r, op, names, env, temps, g, out);
    }
  }

  lemma BinaryPoint(A: Arith, consts: seq<Value>, L: seq<Instr>, K: seq<Instr>, l: Expr, r: Expr, op: BinOp,
                    names: seq<Text>, env: Env, temps: seq<Value>, g: Globals, out: seq<Value>)
    requires ExprCode(A, consts, L, l, names) && ExprCode(A, consts, K, r, names) && NamesOf(env) == names
    ensures Computes(A, consts, L + K + [Bin(op)], Binary(op, l, r), env, temps, g, out)
  {
    hide ExprCode, EffectOf, ExecList, Apply, Eval;
    OperandsPoint(A, consts, L, K, l, r, names, env, temps, g, out);
    OperandsRun(A, consts, L, K, l, r, names, env, temps, g, out);
    ExecAppend(A, consts, L + K, [Bin(op)], StateOf(env, temps, g, out));
    EvalBinary(A, op, l, r, env, g);
    var x := Eval(A, l, env, g);
    if x.Val? {
      var y := Eval(A, r, x.env, x.g);
      if y.Val? { OperandsApplied(A, consts, op, x.v, y, temps, out); }
    }
  }

  lemma EvalBinary(A: Arith, op: BinOp, l: Expr, r: Expr, env: Env, g: Globals)
    ensures var x := Eval(A, l, env, g);
            var y := if x.Val? then Eval(A, r, x.env, x.g) else x;
            Eval(A, Binary(op, l, r), env, g) ==
            if y.Val? then (var u := Apply(A, op, x.v, y.v); if u.Some? then Val(u.value, y.env, y.g) else Err(y.g)) else y
  {
    hide Apply;
  }

  lemma OperandsApplied(A: Arith, consts: seq<Value>, op: BinOp, v: Value, y: EvalResult, temps: seq<Value>, out: seq<Value>)
    requires y.Val?
    ensures ExecList(A, consts, [Bin(op)], StateOf(y.env, temps + [v], y.g, out).Push(y.v)) ==
            Computed(Apply(A, op, v, y.v), StateOf(y.env, temps, y.g, out))
  {
    hide Apply, ExecList;
    var m := StateOf(y.env, temps, y.g, out);
    assert StateOf(y.env, temps + [v], y.g, out).Push(y.v) == m.Push(v).Push(y.v);
    BinEffect(A, consts, op, m, v, y.v);
  }

  lemma OperandsRun(A: Arith, consts: seq<Value>, L: seq<Instr>, K: seq<Instr>, l: Expr, r: Expr, names: seq<Text>,
                    env: Env, temps: seq<Value>, g: Globals, out: seq<Value>)
    requires ExprCode(A, consts, L, l, names) && ExprCode(A, consts, K, r, names) && NamesOf(env) == names
    ensures !ExecList(A, consts, L + K, StateOf(env, temps, g, out)).Stuck?
  {
    hide ExprCode, ExecList, Eval;
    OperandsPoint(A, consts, L, K, l, r, names, env, temps, g, out);
  }

  // ---- Short circuits ----

  /** The instruction that leaves with the left operand of `and` (of `or`). */
  function ExitJump(isAnd: bool, off: u16): Instr {
    if isAnd then JumpIfFalse(off) else JumpIfTrue(off)
  }

  function ShortCircuit(isAnd: bool, l: Expr, r: Expr): Expr {
    if isAnd then And(l, r) else Or(l, r)
  }

  lemma SkipAll(L: seq<Instr>)
    ensures Skip(L, SizeAll(L)) == Some([])
    decreases |L|
  {
    if L != [] { SkipAll(L[1..]); }
  }

  lemma ExitEffect(A: Arith, consts: seq<Value>, isAnd: bool, off: u16, m: Machine, v: Value)
    ensures EffectOf(A, consts, ExitJump(isAnd, off), m.Push(v)) ==
            if Falsey(v) == isAnd then Hop(m.Push(v), off) else Go(m.Push(v))
    ensures EffectOf(A, consts, Pop, m.Push(v)) == Go(m)
  {
    assert m.Push(v).Drop(1) == m;
  }

  lemma ShortCircuitCode(A: Arith, consts: seq<Value>, L: seq<Instr>, K: seq<Instr>, l: Expr, r: Expr, isAnd: bool,
                         off: u16, names: seq<Text>)
    requires ExprCode(A, consts, L, l, names) && ExprCode(A, consts, K, r, names)
    requires off == 1 + SizeAll(K)
    ensures ExprCode(A, consts, L + ([ExitJump(isAnd, off)] + ([Pop] + K)), ShortCircuit(isAnd, l, r), names)
  {
    hide ExecList, EffectOf, SizeAll, Skip;
    var exit := ExitJump(isAnd, off);
    var rest := [Pop] + K;
    PopThen(K);
    forall consts1: seq<Value>, env, temps, g, out | consts <= consts1 && NamesOf(env) == names
      ensures Computes(A, consts1, L + ([exit] + rest), ShortCircuit(isAnd, l, r), env, temps, g, out)
    {
      var m := StateOf(env, temps, g, out);
      assert Computes(A, consts1, L, l, env, temps, g, out);
      ExecAppend(A, consts1, L, [exit] + rest, m);
      EvalKeepsNames(A, l, env, g);
      var x := Eval(A, l, env, g);
      if x.Val? {
        var m1 := StateOf(x.env, temps, x.g, out).Push(x.v);
        ExitEffect(A, consts1, isAnd, off, StateOf(x.env, temps, x.g, out), x.v);
        if Falsey(x.v) == isAnd {
          ExecJump(A, consts1, exit, rest, m1);
          ExecNothing(A, consts1, m1);
        } else {
          ExecCons(A, consts1, exit, rest, m1);
          ExecCons(A, consts1, Pop, K, m1);
          assert Computes(A, consts1, K, r, x.env, temps, x.g, out);
        }
      }
    }
  }

  lemma PopThen(K: seq<Instr>)
    ensures Skip([Pop] + K, 1 + SizeAll(K)) == Some([])
  {
    assert ([Pop] + K)[1..] == K;
    SkipAll(K);
  }

  // ---- Rewritten tails ----

  /** The last two instructions of an operation merge into one. */
  lemma MergedCode(A: Arith, consts: seq<Value>, K: seq<Instr>, left: Option<Instr>, right: Instr, last: Instr,
                   e: Expr, names: seq<Text>)
    requires InPool(consts, left) && InPool(consts, Some(right)) && (last.Bin? || last.Un?)
    requires RewriteOf(A, consts, left, Some(right), last).Merge?
    requires ExprCode(A, consts, K + [right, last], e, names)
    requires forall consts1: seq<Value>, env, temps, g, out :: consts <= consts1 && NamesOf(env) == names ==>
               !ExecList(A, consts1, K, StateOf(env, temps, g, out)).Stuck?
    ensures ExprCode(A, consts, K + [RewriteOf(A, consts, left, Some(right), last).i], e, names)
  {
    var i := RewriteOf(A, consts, left, Some(right), last).i;
    var W := [right, last];
    var L := K + W;
    assert L[|K|] == right;
    assert AllFit(K + [i], |names|, |consts|) by {
      forall j | 0 <= j < |K + [i]| ensures WellFormed((K + [i])[j]) && Fits((K + [i])[j], |names|, |consts|) {
        if j < |K| { assert L[j] == K[j]; }
      }
    }
    hide EffectOf, ExecList, Eval, Apply, ApplyUnary, LoadedBy, RewriteBin, RewriteUn, RewritePop;
    forall consts1: seq<Value>, env, temps, g, out | consts <= consts1 && NamesOf(env) == names
      ensures Computes(A, consts1, K + [i], e, env, temps, g, out)
    {
      var m := StateOf(env, temps, g, out);
      assert Computes(A, consts1, L, e, env, temps, g, out);
      RewriteStable(A, consts, consts1, left, Some(right), last);
      ExecAppend(A, consts1, K, W, m);
      ExecAppend(A, consts1, K, [i], m);
      var k := ExecList(A, consts1, K, m);
      if k.Ok? {
        MergeShape(A, consts, left, Some(right), last);
        MergeSound(A, consts1, left, Some(right), last, k.m);
      }
    }
  }

  lemma MergeShape(A: Arith, consts: seq<Value>, left: Option<Instr>, right: Option<Instr>, last: Instr)
    requires InPool(consts, left) && InPool(consts, right) && (last.Bin? || last.Un?)
    requires RewriteOf(A, consts, left, right, last).Merge?
    ensures RewriteOf(A, consts, left, right, last).drop == 2 && right.Some? && !right.value.SetLocal?
  {
    hide Apply, ApplyUnary, LoadedBy;
  }

  /** A rewrite does not depend on constants added later. */
  lemma RewriteStable(A: Arith, consts: seq<Value>, consts1: seq<Value>,
                      left: Option<Instr>, right: Option<Instr>, last: Instr)
    requires InPool(consts, left) && InPool(consts, right) && consts <= consts1
    ensures InPool(consts1, left) && InPool(consts1, right)
    ensures RewriteOf(A, consts, left, right, last) == RewriteOf(A, consts1, left, right, last)
  {
    hide Apply, ApplyUnary;
    if left.Some? && LoadsConst(left.value) { assert LoadedBy(consts, left.value) == LoadedBy(consts1, left.value); }
    if right.Some? && LoadsConst(right.value) { assert LoadedBy(consts, right.value) == LoadedBy(consts1, right.value); }
  }

  /** An operation folds into the load of its value. */
  lemma FoldedCode(A: Arith, consts: seq<Value>, consts1: seq<Value>,
                   left: Option<Instr>, right: Option<Instr>, last: Instr, e: Expr, load: Instr, names: seq<Text>)
    requires InPool(consts, left) && InPool(consts, right) && consts <= consts1
    requires RewriteOf(A, consts, left, right, last).Fold?
    requires LoadsConst(load) && InPool(consts1, Some(load))
    requires LoadedBy(consts1, load) == RewriteOf(A, consts, left, right, last).v
    requires var r := RewriteOf(A, consts, left, right, last);
             (r.drop == 2 || r.drop == 3) && right.Some? && (r.drop == 3 ==> left.Some?) &&
             ExprCode(A, consts, Window(left, right, last, r.drop), e, names)
    ensures ExprCode(A, consts1, [load], e, names)
  {
    var r := RewriteOf(A, consts, left, right, last);
    var W := Window(left, right, last, r.drop);
    hide EffectOf, ExecList, Eval, Apply, ApplyUnary, RewriteBin, RewriteUn, RewritePop;
    forall consts2: seq<Value>, env, temps, g, out | consts1 <= consts2 && NamesOf(env) == names
      ensures Computes(A, consts2, [load], e, env, temps, g, out)
    {
      var m := StateOf(env, temps, g, out);
      assert Computes(A, consts2, W, e, env, temps, g, out);
      RewriteStable(A, consts, consts2, left, right, last);
      FoldSound(A, consts2, left, right, last, m);
      LoadEffect(A, consts2, load, m);
      ExecOne(A, consts2, load, m);
    }
  }
}
