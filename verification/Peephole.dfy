/** The peephole optimizer, as a function of the last three instructions, and why its rewrites are sound. */
module Peephole {
  import opened Types
  import opened Values
  import opened Bytecode
  import opened Machine

  /** The outcome of looking at the last instructions: leave them; report a compile-time error; replace the
      last `drop` instructions by one that loads v; or replace them by the single instruction i. */
  datatype Rewrite = Keep | Reject(drop: nat) | Fold(drop: nat, v: Value) | Merge(drop: nat, i: Instr)

  /** The constant pool holds numbers, strings and functions; nil and the booleans have their own opcodes. */
  predicate PoolValid(consts: seq<Value>) {
    forall k :: 0 <= k < |consts| ==> !consts[k].Nil? && !consts[k].Bool?
  }

  predicate IsLiteral(i: Instr) {
    i.LoadNil? || i.LoadTrue? || i.LoadFalse?
  }

  predicate LoadsConst(i: Instr) {
    i.Constant? || IsLiteral(i)
  }

  /** The value a load pushes, known at compile time. */
  function LoadedBy(consts: seq<Value>, i: Instr): Value
    requires LoadsConst(i)
    requires i.Constant? ==> i.k < |consts|
  {
    match i
    case Constant(k) => consts[k]
    case LoadTrue => Bool(true)
    case LoadFalse => Bool(false)
    case LoadNil => Nil
  }

  /** How a value is loaded depends on its kind. */
  lemma LoadKind(consts: seq<Value>, load: Instr)
    requires LoadsConst(load) && InPool(consts, Some(load)) && PoolValid(consts)
    ensures LoadedBy(consts, load).Bool? ==> IsLiteral(load)
    ensures LoadedBy(consts, load).Number? || LoadedBy(consts, load).Str? ==> load.Constant?
  {
  }

  predicate InPool(consts: seq<Value>, i: Option<Instr>) {
    i.Some? && i.value.Constant? ==> i.value.k < |consts|
  }

  predicate Folds(op: BinOp, left: Option<Instr>, right: Option<Instr>) {
    left.Some? && right.Some? &&
    if op.Eq? || op.Ne? then LoadsConst(left.value) && LoadsConst(right.value)
    else left.value.Constant? && right.value.Constant?
  }

  function RewriteBin(A: Arith, consts: seq<Value>, left: Option<Instr>, right: Option<Instr>, op: BinOp): Rewrite
    requires InPool(consts, left) && InPool(consts, right)
  {
    if Folds(op, left, right) then
      match Apply(A, op, LoadedBy(consts, left.value), LoadedBy(consts, right.value))
      case Some(v) => Fold(3, v)
      case None => Reject(3)
    else if right.Some? && right.value.Constant? then Merge(2, BinConst(op, right.value.k))
    else if right.Some? && right.value.GetLocal? then Merge(2, BinLocal(op, right.value.i))
    else Keep
  }

  function RewriteUn(A: Arith, consts: seq<Value>, right: Option<Instr>, op: UnOp): Rewrite
    requires InPool(consts, right)
  {
    if right.None? then Keep
    else if LoadsConst(right.value) then
      match ApplyUnary(A, op, LoadedBy(consts, right.value))
      case Some(v) => Fold(2, v)
      case None => Reject(2)
    else if right.value.GetLocal? then Merge(2, UnLocal(op, right.value.i))
    else Keep
  }

  function RewritePop(left: Option<Instr>, right: Option<Instr>): Rewrite {
    if right.None? || !right.value.SetLocal? then Keep
    else if left.Some? && left.value.GetLocal? then Merge(3, MoveLocal(left.value.i, right.value.i))
    else Merge(2, SetLocalPop(right.value.i))
  }

  /** left and right are the instructions before `last`, where the op stack still knows them. */
  function RewriteOf(A: Arith, consts: seq<Value>, left: Option<Instr>, right: Option<Instr>, last: Instr): (r: Rewrite)
    requires InPool(consts, left) && InPool(consts, right)
  {
    match last
    case Bin(op) => RewriteBin(A, consts, left, right, op)
    case Un(op) => RewriteUn(A, consts, right, op)
    case Pop => RewritePop(left, right)
    case _ => Keep
  }

  // ---- Soundness ----

  /** The instructions a rewrite replaces. */
  function Window(left: Option<Instr>, right: Option<Instr>, last: Instr, drop: nat): seq<Instr>
    requires drop == 2 || drop == 3
    requires right.Some? && (drop == 3 ==> left.Some?)
  {
    if drop == 3 then [left.value, right.value, last] else [right.value, last]
  }

  lemma RewriteFits(A: Arith, consts: seq<Value>, left: Option<Instr>, right: Option<Instr>, last: Instr)
    requires InPool(consts, left) && InPool(consts, right)
    ensures var r := RewriteOf(A, consts, left, right, last);
            !r.Keep? ==> (r.drop == 2 || r.drop == 3) && right.Some? && (r.drop == 3 ==> left.Some?)
  {
  }

  lemma ExecCons(A: Arith, consts: seq<Value>, i: Instr, rest: seq<Instr>, m: Machine)
    requires EffectOf(A, consts, i, m).Go?
    ensures ExecList(A, consts, [i] + rest, m) == ExecList(A, consts, rest, EffectOf(A, consts, i, m).m)
  {
    hide EffectOf;
    assert ([i] + rest)[1..] == rest;
  }

  lemma LoadEffect(A: Arith, consts: seq<Value>, i: Instr, m: Machine)
    requires LoadsConst(i) && InPool(consts, Some(i))
    ensures EffectOf(A, consts, i, m) == Go(m.Push(LoadedBy(consts, i)))
  {
  }

  /** The result of an operator, pushed, or its runtime error. */
  function Computed(r: Option<Value>, m: Machine): ListResult {
    if r.Some? then Ok(m.Push(r.value)) else Fault(m.globals, m.out)
  }

  lemma BinEffect(A: Arith, consts: seq<Value>, op: BinOp, m: Machine, a: Value, b: Value)
    ensures ExecList(A, consts, [Bin(op)], m.Push(a).Push(b)) == Computed(Apply(A, op, a, b), m)
  {
    var m2 := m.Push(a).Push(b);
    assert m2.Drop(2) == m;
    ExecOne(A, consts, Bin(op), m2);
  }

  lemma UnEffect(A: Arith, consts: seq<Value>, op: UnOp, m: Machine, a: Value)
    ensures ExecList(A, consts, [Un(op)], m.Push(a)) == Computed(ApplyUnary(A, op, a), m)
  {
    assert m.Push(a).Drop(1) == m;
    ExecOne(A, consts, Un(op), m.Push(a));
  }

  lemma BinWindow(A: Arith, consts: seq<Value>, l: Instr, r: Instr, op: BinOp, m: Machine)
    requires LoadsConst(l) && LoadsConst(r) && InPool(consts, Some(l)) && InPool(consts, Some(r))
    ensures ExecList(A, consts, [l, r, Bin(op)], m) ==
            Computed(Apply(A, op, LoadedBy(consts, l), LoadedBy(consts, r)), m)
  {
    hide EffectOf, Apply, LoadedBy;
    var a, b := LoadedBy(consts, l), LoadedBy(consts, r);
    LoadEffect(A, consts, l, m);
    LoadEffect(A, consts, r, m.Push(a));
    ExecCons(A, consts, l, [r, Bin(op)], m);
    ExecCons(A, consts, r, [Bin(op)], m.Push(a));
    assert [l] + [r, Bin(op)] == [l, r, Bin(op)] && [r] + [Bin(op)] == [r, Bin(op)];
    BinEffect(A, consts, op, m, a, b);
  }

  lemma UnWindow(A: Arith, consts: seq<Value>, r: Instr, op: UnOp, m: Machine)
    requires LoadsConst(r) && InPool(consts, Some(r))
    ensures ExecList(A, consts, [r, Un(op)], m) == Computed(ApplyUnary(A, op, LoadedBy(consts, r)), m)
  {
    hide EffectOf, ApplyUnary, LoadedBy;
    LoadEffect(A, consts, r, m);
    ExecCons(A, consts, r, [Un(op)], m);
    assert [r] + [Un(op)] == [r, Un(op)];
    UnEffect(A, consts, op, m, LoadedBy(consts, r));
  }

  /** A folded operation is the operation: its window computes v, from every state. */
  lemma FoldSound(A: Arith, consts: seq<Value>, left: Option<Instr>, right: Option<Instr>, last: Instr, m: Machine)
    requires InPool(consts, left) && InPool(consts, right)
    requires RewriteOf(A, consts, left, right, last).Fold?
    ensures var r := RewriteOf(A, consts, left, right, last);
            (r.drop == 2 || r.drop == 3) && right.Some? && (r.drop == 3 ==> left.Some?) &&
            ExecList(A, consts, Window(left, right, last, r.drop), m) == Ok(m.Push(r.v))
  {
    hide Apply, ApplyUnary, LoadedBy, ExecList;
    if last.Bin? {
      BinWindow(A, consts, left.value, right.value, last.op, m);
    } else {
      UnWindow(A, consts, right.value, last.uop, m);
    }
  }

  /** A fold rejected at compile time is one whose original operation raises a runtime error. */
  lemma RejectSound(A: Arith, consts: seq<Value>, left: Option<Instr>, right: Option<Instr>, last: Instr, m: Machine)
    requires InPool(consts, left) && InPool(consts, right)
    requires RewriteOf(A, consts, left, right, last).Reject?
    ensures var r := RewriteOf(A, consts, left, right, last);
            (r.drop == 2 || r.drop == 3) && right.Some? && (r.drop == 3 ==> left.Some?) &&
            ExecList(A, consts, Window(left, right, last, r.drop), m) == Fault(m.globals, m.out)
  {
    hide Apply, ApplyUnary, LoadedBy, ExecList;
    if last.Bin? {
      BinWindow(A, consts, left.value, right.value, last.op, m);
    } else {
      UnWindow(A, consts, right.value, last.uop, m);
    }
  }

  lemma MergeConst(A: Arith, consts: seq<Value>, op: BinOp, k: u16, m: Machine)
    requires k < |consts|
    ensures ExecList(A, consts, [Constant(k), Bin(op)], m) == ExecList(A, consts, [BinConst(op, k)], m)
  {
    hide Apply;
    ExecCons(A, consts, Constant(k), [Bin(op)], m);
    assert [Constant(k)] + [Bin(op)] == [Constant(k), Bin(op)];
    ExecOne(A, consts, BinConst(op, k), m);
    MergedOperand(A, consts, op, m, consts[k]);
  }

  lemma MergeLocal(A: Arith, consts: seq<Value>, op: BinOp, x: byte, m: Machine)
    ensures ExecList(A, consts, [GetLocal(x), Bin(op)], m) == ExecList(A, consts, [BinLocal(op, x)], m)
  {
    hide Apply;
    ExecOne(A, consts, BinLocal(op, x), m);
    if x < |m.stack| {
      ExecCons(A, consts, GetLocal(x), [Bin(op)], m);
      assert [GetLocal(x)] + [Bin(op)] == [GetLocal(x), Bin(op)];
      MergedOperand(A, consts, op, m, m.stack[x]);
    }
  }

  lemma MergedOperand(A: Arith, consts: seq<Value>, op: BinOp, m: Machine, b: Value)
    ensures ExecList(A, consts, [Bin(op)], m.Push(b)) ==
            if |m.stack| == 0 then Stuck else Computed(Apply(A, op, m.Top(), b), m.Drop(1))
  {
    hide Apply;
    ExecOne(A, consts, Bin(op), m.Push(b));
    if |m.stack| > 0 { assert m.Push(b).Drop(2) == m.Drop(1); }
  }

  lemma MergeUnary(A: Arith, consts: seq<Value>, op: UnOp, x: byte, m: Machine)
    ensures ExecList(A, consts, [GetLocal(x), Un(op)], m) == ExecList(A, consts, [UnLocal(op, x)], m)
  {
    hide ApplyUnary;
    ExecOne(A, consts, UnLocal(op, x), m);
    if x < |m.stack| {
      ExecCons(A, consts, GetLocal(x), [Un(op)], m);
      assert [GetLocal(x)] + [Un(op)] == [GetLocal(x), Un(op)];
      UnEffect(A, consts, op, m, m.stack[x]);
    }
  }

  lemma MergeSetPop(A: Arith, consts: seq<Value>, y: byte, m: Machine)
    ensures ExecList(A, consts, [SetLocal(y), Pop], m) == ExecList(A, consts, [SetLocalPop(y)], m)
  {
    ExecOne(A, consts, SetLocalPop(y), m);
    if y < |m.stack| {
      ExecCons(A, consts, SetLocal(y), [Pop], m);
      assert [SetLocal(y)] + [Pop] == [SetLocal(y), Pop];
      ExecOne(A, consts, Pop, m.(stack := m.stack[y := m.Top()]));
    }
  }

  lemma MergeMove(A: Arith, consts: seq<Value>, x: byte, y: byte, m: Machine)
    requires y < |m.stack|
    ensures ExecList(A, consts, [GetLocal(x), SetLocal(y), Pop], m) == ExecList(A, consts, [MoveLocal(x, y)], m)
  {
    ExecOne(A, consts, MoveLocal(x, y), m);
    if x < |m.stack| {
      var m1 := m.Push(m.stack[x]);
      ExecCons(A, consts, GetLocal(x), [SetLocal(y), Pop], m);
      assert [GetLocal(x)] + [SetLocal(y), Pop] == [GetLocal(x), SetLocal(y), Pop];
      MergeSetPop(A, consts, y, m1);
      ExecOne(A, consts, SetLocalPop(y), m1);
      assert m1.(stack := m1.stack[y := m1.Top()]).Drop(1).stack == m.stack[y := m.stack[x]];
    }
  }

  /** A merged instruction does what its window does, from every state that has the assigned slot. */
  lemma MergeSound(A: Arith, consts: seq<Value>, left: Option<Instr>, right: Option<Instr>, last: Instr, m: Machine)
    requires InPool(consts, left) && InPool(consts, right)
    requires RewriteOf(A, consts, left, right, last).Merge?
    requires right.Some? && right.value.SetLocal? ==> right.value.i < |m.stack|
    ensures var r := RewriteOf(A, consts, left, right, last);
            (r.drop == 2 || r.drop == 3) && right.Some? && (r.drop == 3 ==> left.Some?) &&
            ExecList(A, consts, [r.i], m) == ExecList(A, consts, Window(left, right, last, r.drop), m)
  {
    hide EffectOf, ExecList, Apply, ApplyUnary, LoadedBy;
    match last
    case Bin(op) =>
      if right.value.Constant? { MergeConst(A, consts, op, right.value.k, m); }
      else { MergeLocal(A, consts, op, right.value.i, m); }
    case Un(op) => MergeUnary(A, consts, op, right.value.i, m);
    case Pop =>
      if left.Some? && left.value.GetLocal? { MergeMove(A, consts, left.value.i, right.value.i, m); }
      else { MergeSetPop(A, consts, right.value.i, m); }
  }

  /** Hence a rewrite may happen behind any code K, as long as no jump taken in K leads into the window. */
  lemma RewriteInContext(A: Arith, consts: seq<Value>, K: seq<Instr>,
                         left: Option<Instr>, right: Option<Instr>, last: Instr, m: Machine)
    requires InPool(consts, left) && InPool(consts, right)
    requires !ExecList(A, consts, K, m).Stuck?
    requires right.Some? && right.value.SetLocal? && ExecList(A, consts, K, m).Ok? ==>
               right.value.i < |ExecList(A, consts, K, m).m.stack|
    ensures RewriteFitsHere(A, consts, left, right, last)
    ensures var r := RewriteOf(A, consts, left, right, last);
            !r.Keep? ==>
              var before := ExecList(A, consts, K + Window(left, right, last, r.drop), m);
              var k := ExecList(A, consts, K, m);
              && (r.Merge? ==> ExecList(A, consts, K + [r.i], m) == before)
              && (r.Fold? ==> before == if k.Ok? then Ok(k.m.Push(r.v)) else k)
              && (r.Reject? ==> before.Fault?)
  {
    hide EffectOf, RewriteBin, RewriteUn, RewritePop;
    RewriteFits(A, consts, left, right, last);
    var r := RewriteOf(A, consts, left, right, last);
    if !r.Keep? {
      var W := Window(left, right, last, r.drop);
      ExecAppend(A, consts, K, W, m);
      var k := ExecList(A, consts, K, m);
      if r.Merge? { ExecAppend(A, consts, K, [r.i], m); }
      if k.Ok? {
        match r
        case Merge(_, _) => MergeSound(A, consts, left, right, last, k.m);
        case Fold(_, _) => FoldSound(A, consts, left, right, last, k.m);
        case Reject(_) => RejectSound(A, consts, left, right, last, k.m);
      }
    }
  }

  ghost predicate RewriteFitsHere(A: Arith, consts: seq<Value>, left: Option<Instr>, right: Option<Instr>, last: Instr)
    requires InPool(consts, left) && InPool(consts, right)
  {
    var r := RewriteOf(A, consts, left, right, last);
    !r.Keep? ==> (r.drop == 2 || r.drop == 3) && right.Some? && (r.drop == 3 ==> left.Some?)
  }

  // ---- Fused branches ----

  /** The conditional jump that emitBranchJump chooses for a condition compiled to the instructions L. */
  datatype BranchForm =
    | Always                                        // the condition is a falsy constant
    | Never                                         // the condition is a truthy constant
    | FusedLocals(op: BinOp, a: byte, b: byte)
    | FusedConst(op: BinOp, i: byte, k: u16)
    | Plain                                         // evaluate, then JumpIfFalsePop

  function BranchOf(L: seq<Instr>): BranchForm {
    if |L| == 1 && IsLiteral(L[0]) then (if L[0].LoadTrue? then Never else Always)
    else if |L| == 1 && L[0].Constant? then Never
    else if |L| == 2 && L[0].GetLocal? && L[1].BinLocal? && IsComparison(L[1].op) then
      (match L[1].op
       case Gt => FusedLocals(Lt, L[1].i, L[0].i)
       case Ge => FusedLocals(Le, L[1].i, L[0].i)
       case op => FusedLocals(op, L[0].i, L[1].i))
    else if |L| == 2 && L[0].GetLocal? && L[1].BinConst? && IsComparison(L[1].op) then
      FusedConst(L[1].op, L[0].i, L[1].k)
    else if |L| == 2 && L[0].Constant? && L[1].BinLocal? && IsComparison(L[1].op) then
      FusedConst(Mirror(L[1].op), L[1].i, L[0].k)
    else Plain
  }

  /** The instruction that replaces the condition and its jump; Plain keeps the condition before it. */
  function BranchInstr(f: BranchForm, off: u16): (i: Instr)
    requires !f.Never?
  {
    match f
    case Always => Jump(off)
    case FusedLocals(op, a, b) => JifLocal(op, a, b, off)
    case FusedConst(op, i, k) => JifConst(op, i, k, off)
    case Plain => JumpIfFalsePop(off)
  }

  /** What a branch does with the condition's value: drop it, and jump when it is falsy. */
  function BranchEffect(r: ListResult, off: nat): Effect {
    match r
    case Ok(m) =>
      if |m.stack| == 0 then Bad
      else if Falsey(m.Top()) then Hop(m.Drop(1), off)
      else Go(m.Drop(1))
    case Fault(_, _) => Raise
    case Stuck => Bad
  }

  /** A fused branch goes the same way, leaves the same state and raises the same error as evaluating the
      condition and testing its value, for all operands: numbers, NaN, strings, and mixtures of them. */
  lemma FusionSound(A: Arith, consts: seq<Value>, L: seq<Instr>, off: u16, m: Machine)
    requires BranchOf(L).FusedLocals? || BranchOf(L).FusedConst?
    requires !ExecList(A, consts, L, m).Stuck? && (L[1].BinLocal? ==> L[1].i < |m.stack|)
    ensures WellFormed(BranchInstr(BranchOf(L), off))
    ensures EffectOf(A, consts, BranchInstr(BranchOf(L), off), m) == BranchEffect(ExecList(A, consts, L, m), off)
    ensures ExecList(A, consts, L, m).Fault? ==> ExecList(A, consts, L, m) == Fault(m.globals, m.out)
  {
    hide EffectOf, ExecList, Apply, BranchEffect;
    FusedPair(A, consts, L, m);
    var (a, b) := FusedOperands(consts, L, m);
    FusedEffect(A, consts, L, off, m);
    CheckBranch(A, L[1].op, a, b, m, off);
  }

  /** The two operands that a fused condition compares. */
  ghost function FusedOperands(consts: seq<Value>, L: seq<Instr>, m: Machine): (Value, Value)
    requires BranchOf(L).FusedLocals? || BranchOf(L).FusedConst?
  {
    (if L[0].GetLocal? then (if L[0].i < |m.stack| then m.stack[L[0].i] else Nil)
     else if L[0].k < |consts| then consts[L[0].k] else Nil,
     if L[1].BinLocal? then (if L[1].i < |m.stack| then m.stack[L[1].i] else Nil)
     else if L[1].k < |consts| then consts[L[1].k] else Nil)
  }

  lemma FusedPair(A: Arith, consts: seq<Value>, L: seq<Instr>, m: Machine)
    requires BranchOf(L).FusedLocals? || BranchOf(L).FusedConst?
    requires !ExecList(A, consts, L, m).Stuck? && (L[1].BinLocal? ==> L[1].i < |m.stack|)
    ensures (if L[0].GetLocal? then L[0].i < |m.stack| else L[0].k < |consts|) && (L[1].BinConst? ==> L[1].k < |consts|)
    ensures ExecList(A, consts, L, m) ==
            Computed(Apply(A, L[1].op, FusedOperands(consts, L, m).0, FusedOperands(consts, L, m).1), m)
  {
    hide Apply;
    assert L == [L[0]] + [L[1]];
    var e := EffectOf(A, consts, L[0], m);
    assert e.Go?;
    ExecCons(A, consts, L[0], [L[1]], m);
    ExecOne(A, consts, L[1], e.m);
    assert e.m.Drop(1) == m;
  }

  /** The fused instruction tests the same operands, possibly with operator and operands both exchanged. */
  lemma FusedEffect(A: Arith, consts: seq<Value>, L: seq<Instr>, off: u16, m: Machine)
    requires BranchOf(L).FusedLocals? || BranchOf(L).FusedConst?
    requires (if L[0].GetLocal? then L[0].i < |m.stack| else L[0].k < |consts|)
    requires if L[1].BinLocal? then L[1].i < |m.stack| else L[1].k < |consts|
    ensures WellFormed(BranchInstr(BranchOf(L), off))
    ensures EffectOf(A, consts, BranchInstr(BranchOf(L), off), m) ==
            Branch(Apply(A, L[1].op, FusedOperands(consts, L, m).0, FusedOperands(consts, L, m).1), m, off)
  {
    hide Apply;
    ApplyMirror(A, L[1].op, FusedOperands(consts, L, m).0, FusedOperands(consts, L, m).1);
  }

  /** A comparison yields a boolean, so its value is falsy exactly when it is not true. */
  lemma CheckBranch(A: Arith, op: BinOp, a: Value, b: Value, m: Machine, off: nat)
    requires IsComparison(op)
    ensures var r := Apply(A, op, a, b);
            Branch(r, m, off) == BranchEffect(if r.Some? then Ok(m.Push(r.value)) else Fault(m.globals, m.out), off)
  {
    var r := Apply(A, op, a, b);
    if r.Some? {
      assert m.Push(r.value).Drop(1) == m;
    }
  }

  /** A constant condition is decided at compile time as the machine would decide it. */
  lemma ConstantBranchSound(A: Arith, consts: seq<Value>, L: seq<Instr>, off: nat, m: Machine)
    requires BranchOf(L).Always? || BranchOf(L).Never?
    requires InPool(consts, Some(L[0])) && (L[0].Constant? ==> PoolValid(consts))
    ensures ExecList(A, consts, L, m).Ok?
    ensures BranchEffect(ExecList(A, consts, L, m), off) == if BranchOf(L).Always? then Hop(m, off) else Go(m)
  {
    hide EffectOf;
    assert L == [L[0]];
    LoadEffect(A, consts, L[0], m);
    ExecOne(A, consts, L[0], m);
    assert m.Push(LoadedBy(consts, L[0])).Drop(1) == m;
  }

  // ---- Steps ----

  lemma SetLocalPopEffect(A: Arith, consts: seq<Value>, x: byte, m: Machine)
    requires x < |m.stack|
    ensures EffectOf(A, consts, SetLocalPop(x), m) == Go(m.(stack := m.stack[x := m.Top()]).Drop(1))
  {
  }

  lemma ExecJump(A: Arith, consts: seq<Value>, i: Instr, rest: seq<Instr>, m: Machine)
    requires EffectOf(A, consts, i, m).Hop?
    ensures var e := EffectOf(A, consts, i, m);
            var r := Skip(rest, e.off);
            ExecList(A, consts, [i] + rest, m) == if r.None? then Stuck else ExecList(A, consts, r.value, e.m)
  {
    hide EffectOf;
    assert ([i] + rest)[1..] == rest;
  }

  lemma ExecNothing(A: Arith, consts: seq<Value>, m: Machine)
    ensures ExecList(A, consts, [], m) == Ok(m)
  {
  }
}
