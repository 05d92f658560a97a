/** The end of the code buffer, as the compiler's op stack describes it, and what rewriting it does to the code of
    the expression under way. */
module Tails {
  import opened Types
  import opened Values
  import opened Syntax
  import opened Semantics
  import opened Bytecode
  import opened Machine
  import opened Peephole
  import opened Expressions
  import opened Items

  // ---- Bytes ----

  /** The code ends with the instructions of tail. */
  ghost predicate EndsWith(code: seq<byte>, tail: seq<Instr>) {
    AllWellFormed(tail) && SizeAll(tail) <= |code| && code[|code| - SizeAll(tail)..] == EncodeAll(tail)
  }

  lemma EndsAppend(code: seq<byte>, tail: seq<Instr>, i: Instr)
    requires EndsWith(code, tail) && WellFormed(i)
    ensures EndsWith(code + Encode(i), tail + [i])
  {
    hide Encode, EncodeAll, SizeAll;
    EncodeOne(i);
    EncodeAppend(tail, [i]);
    var c := code + Encode(i);
    assert c[|c| - SizeAll(tail + [i])..] == code[|code| - SizeAll(tail)..] + Encode(i);
  }

  /** The last n instructions of tail. */
  function Last(tail: seq<Instr>, n: nat): seq<Instr>
    requires n <= |tail|
  {
    tail[|tail| - n..]
  }

  function AllBut(tail: seq<Instr>, n: nat): seq<Instr>
    requires n <= |tail|
  {
    tail[..|tail| - n]
  }

  lemma EndsDrop(code: seq<byte>, tail: seq<Instr>, n: nat)
    requires EndsWith(code, tail) && n <= |tail|
    ensures var k := SizeAll(Last(tail, n));
            && AllWellFormed(Last(tail, n)) && AllWellFormed(AllBut(tail, n))
            && k <= |code| && code == code[..|code| - k] + EncodeAll(Last(tail, n))
            && EndsWith(code[..|code| - k], AllBut(tail, n))
            && ListAt(code, |code| - k, Last(tail, n))
  {
    hide EncodeAll, SizeAll;
    var a, b := AllBut(tail, n), Last(tail, n);
    assert tail == a + b;
    EncodeAppend(a, b);
    SplitEnd(code, EncodeAll(a), EncodeAll(b));
  }

  lemma SplitEnd(code: seq<byte>, a: seq<byte>, b: seq<byte>)
    requires |a| + |b| <= |code| && code[|code| - |a| - |b|..] == a + b
    ensures var k := |code| - |b|;
            && code[k..] == b && code == code[..k] + b
            && code[..k][k - |a|..] == a
  {
    var k := |code| - |b|;
    var s := code[k - |a|..];
    assert code[k..] == s[|a|..];
    assert code[..k][k - |a|..] == s[..|a|];
  }

  lemma EncodeTwo(i: Instr, j: Instr)
    requires WellFormed(i) && WellFormed(j)
    ensures AllWellFormed([i, j]) && SizeAll([i, j]) == Size(i) + Size(j)
    ensures EncodeAll([i, j]) == Encode(i) + Encode(j)
  {
    EncodeOne(i);
    EncodeOne(j);
    assert [i, j] == [i] + [j];
    EncodeAppend([i], [j]);
  }

  lemma EncodeThree(i: Instr, j: Instr, k: Instr)
    requires WellFormed(i) && WellFormed(j) && WellFormed(k)
    ensures AllWellFormed([i, j, k]) && SizeAll([i, j, k]) == Size(i) + Size(j) + Size(k)
    ensures EncodeAll([i, j, k]) == Encode(i) + Encode(j) + Encode(k)
  {
    EncodeTwo(i, j);
    EncodeOne(k);
    assert [i, j, k] == [i, j] + [k];
    EncodeAppend([i, j], [k]);
  }

  /** An opcode on the op stack stands for an instruction of its kind. */
  lemma OpcodeTells(i: Instr)
    requires WellFormed(i)
    ensures Opcode(i) == OP_CONSTANT <==> i.Constant?
    ensures Opcode(i) == OP_GET_LOCAL <==> i.GetLocal?
    ensures Opcode(i) == OP_SET_LOCAL <==> i.SetLocal?
    ensures Opcode(i) == OP_NIL <==> i.LoadNil?
    ensures Opcode(i) == OP_TRUE <==> i.LoadTrue?
    ensures Opcode(i) == OP_FALSE <==> i.LoadFalse?
    ensures Opcode(i) == OP_POP <==> i.Pop?
    ensures Opcode(i) == OP_NOT <==> i == Un(Not)
    ensures Opcode(i) == OP_NEGATE <==> i == Un(Negate)
    ensures 63 <= Opcode(i) < 74 <==> i.BinLocal?
    ensures 52 <= Opcode(i) < 63 <==> i.BinConst?
    ensures Opcode(i) != NO_OP
  {
  }

  // ---- Suffixes ----

  predicate IsSuffix(s: seq<Instr>, t: seq<Instr>) {
    |s| <= |t| && s == t[|t| - |s|..]
  }

  /** The n-th instruction from the end, when the suffix has it. */
  lemma SuffixLast(s: seq<Instr>, t: seq<Instr>, n: nat)
    requires IsSuffix(s, t)
    ensures LastOf(s, n).Some? ==> LastOf(s, n) == LastOf(t, n)
  {
  }

  lemma SuffixAppend(s: seq<Instr>, t: seq<Instr>, L: seq<Instr>)
    requires IsSuffix(s, t)
    ensures IsSuffix(s + L, t + L)
  {
  }

  lemma SuffixTrans(s: seq<Instr>, t: seq<Instr>, u: seq<Instr>)
    requires IsSuffix(s, t) && IsSuffix(t, u)
    ensures IsSuffix(s, u)
  {
  }

  // ---- The end of an expression ----

  /** What the last instruction of the code L for e tells about e. */
  predicate TailShape(L: seq<Instr>, e: Expr, names: seq<Text>) {
    L != [] && (IsJoin(e) ==> |L| > 1) &&
    var last := L[|L| - 1];
    && (JoinSafe(e, names) && last.Constant? ==> TailOf(e, names).PoolTail?)
    && (JoinSafe(e, names) && IsLiteral(last) ==> TailOf(e, names).LiteralTail?)
    && (JoinSafe(e, names) && LoadsConst(last) ==> |L| == 1 || (IsJoin(e) && !LoadsConst(L[|L| - 2])))
    && (JoinSafe(e, names) && last.GetLocal? ==> TailOf(e, names).LocalTail? && (|L| == 1 || IsJoin(e)))
    && (JoinSafe(e, names) && last.SetLocal? ==> TailOf(e, names).AssignTail?)
    && (last.SetLocal? ==> |L| >= 2)
  }

  /** The constant with which the code of an expression ends, where the optimizer folds it with an operator behind it; the
      end of a join is that of its right operand. */
  function EndValue(A: Arith, e: Expr): Option<Value> {
    match e
    case NilLit => Some(Nil)
    case BoolLit(b) => Some(Bool(b))
    case NumberLit(n) => Some(Number(n))
    case StringLit(s) => Some(Str(s))
    case Unary(op, x) =>
      var v := EndValue(A, x);
      if v.Some? then ApplyUnary(A, op, v.value) else None
    case Binary(op, l, r) =>
      var a, b := EndValue(A, l), EndValue(A, r);
      if !IsJoin(r) && ValuesFold(op, a, b) then Apply(A, op, a.value, b.value) else None
    case And(_, r) => EndValue(A, r)
    case Or(_, r) => EndValue(A, r)
    case _ => None
  }

  /** nil and the booleans are folded for equality only. */
  predicate ValuesFold(op: BinOp, a: Option<Value>, b: Option<Value>) {
    && a.Some? && b.Some?
    && (op.Eq? || op.Ne? || (!a.value.Nil? && !a.value.Bool? && !b.value.Nil? && !b.value.Bool?))
  }

  /** The operation itself, with the constants its operands end with, is an error. */
  predicate EndsBadly(A: Arith, e: Expr) {
    match e
    case Unary(op, x) => EndValue(A, x).Some? && ApplyUnary(A, op, EndValue(A, x).value).None?
    case Binary(op, l, r) =>
      var a, b := EndValue(A, l), EndValue(A, r);
      !IsJoin(r) && ValuesFold(op, a, b) && Apply(A, op, a.value, b.value).None?
    case _ => false
  }

  /** Code that ends with the load of a constant ends with that one, behind something else, if behind anything. */
  predicate EndShape(A: Arith, consts: seq<Value>, L: seq<Instr>, e: Expr) {
    && L != [] && (IsJoin(e) ==> |L| > 1)
    && (LoadsConst(L[|L| - 1]) ==>
          && InPool(consts, Some(L[|L| - 1])) && EndValue(A, e) == Some(LoadedBy(consts, L[|L| - 1]))
          && (|L| == 1 || !LoadsConst(L[|L| - 2])))
  }

  /** The code of an assignment to a local is that of its value, and the store. */
  ghost predicate AssignShape(A: Arith, consts: seq<Value>, L: seq<Instr>, e: Expr, names: seq<Text>) {
    e.Assign? && L != [] && L[|L| - 1].SetLocal? ==>
      var K := L[..|L| - 1];
      && TailShape(K, e.value, names)
      && (JoinSafe(e, names) ==> ExprCode(A, consts, K, e.value, names) && L[|L| - 1].i == Innermost(names, e.name))
  }

  /** L is what the compiler may have emitted for e. */
  ghost predicate Emits(A: Arith, consts: seq<Value>, L: seq<Instr>, e: Expr, names: seq<Text>) {
    && AllWellFormed(L) && TailShape(L, e, names) && AssignShape(A, consts, L, e, names) && EndShape(A, consts, L, e)
    && (JoinSafe(e, names) ==> ExprCode(A, consts, L, e, names))
  }

  lemma EmitsGrows(A: Arith, consts: seq<Value>, consts1: seq<Value>, L: seq<Instr>, e: Expr, names: seq<Text>)
    requires Emits(A, consts, L, e, names) && consts <= consts1
    ensures Emits(A, consts1, L, e, names)
  {
    hide TailShape, ExprCode, JoinSafe;
    if JoinSafe(e, names) {
      ExprCodeGrows(A, consts, consts1, L, e, names);
      if e.Assign? && L != [] && L[|L| - 1].SetLocal? {
        ExprCodeGrows(A, consts, consts1, L[..|L| - 1], e.value, names);
      }
    }
  }

  // ---- Rewriting the end of an operation ----

  /** The right operand of a binary operation merged with its load. */
  lemma MergeWindow(L: seq<Instr>, K: seq<Instr>, l: Expr, r: Expr, op: BinOp, names: seq<Text>, T0: seq<Instr>,
                    tail: seq<Instr>)
    requires TailShape(K, r, names) && L != [] && IsSuffix(tail, T0 + L + K) && JoinSafe(Binary(op, l, r), names)
    requires LastOf(tail, 0).Some? && (LastOf(tail, 0).value.Constant? || LastOf(tail, 0).value.GetLocal?)
    ensures K == [LastOf(tail, 0).value]
  {
    SuffixLast(tail, T0 + L + K, 0);
  }

  lemma LastButOne(T0: seq<Instr>, L: seq<Instr>, K: seq<Instr>)
    requires L != [] && K != []
    ensures LastOf(T0 + L + K, 0) == Some(K[|K| - 1])
    ensures LastOf(T0 + L + K, 1) == Some(if |K| > 1 then K[|K| - 2] else L[|L| - 1])
  {
  }

  /** The operands of a folded binary operation. */
  lemma FoldWindow(L: seq<Instr>, K: seq<Instr>, l: Expr, r: Expr, op: BinOp, names: seq<Text>, T0: seq<Instr>,
                   tail: seq<Instr>)
    requires TailShape(L, l, names) && TailShape(K, r, names) && IsSuffix(tail, T0 + L + K)
    requires JoinSafe(Binary(op, l, r), names) && Folds(op, LastOf(tail, 1), LastOf(tail, 0))
    ensures L == [LastOf(tail, 1).value] && K == [LastOf(tail, 0).value]
    ensures TailsFold(op, TailOf(l, names), TailOf(r, names))
  {
    SuffixLast(tail, T0 + L + K, 0);
    SuffixLast(tail, T0 + L + K, 1);
    LastButOne(T0, L, K);
  }

  /** Whatever is folded are the constants with which the operands end. */
  lemma FoldEnds(A: Arith, consts: seq<Value>, L: seq<Instr>, K: seq<Instr>, l: Expr, r: Expr, op: BinOp, T0: seq<Instr>,
                 tail: seq<Instr>)
    requires EndShape(A, consts, L, l) && EndShape(A, consts, K, r) && IsSuffix(tail, T0 + L + K)
    requires Folds(op, LastOf(tail, 1), LastOf(tail, 0)) && PoolValid(consts)
    ensures K == [LastOf(tail, 0).value] && L[|L| - 1] == LastOf(tail, 1).value
    ensures InPool(consts, LastOf(tail, 0)) && InPool(consts, LastOf(tail, 1))
    ensures var a, b := LoadedBy(consts, LastOf(tail, 1).value), LoadedBy(consts, LastOf(tail, 0).value);
            && !IsJoin(r) && EndValue(A, l) == Some(a) && EndValue(A, r) == Some(b) && ValuesFold(op, Some(a), Some(b))
            && EndValue(A, Binary(op, l, r)) == Apply(A, op, a, b)
  {
    hide Apply, ApplyUnary;
    SuffixLast(tail, T0 + L + K, 0);
    SuffixLast(tail, T0 + L + K, 1);
    LastButOne(T0, L, K);
  }

  lemma BinaryKept(A: Arith, consts: seq<Value>, L: seq<Instr>, K: seq<Instr>, l: Expr, r: Expr, op: BinOp,
                   names: seq<Text>)
    requires Emits(A, consts, L, l, names) && Emits(A, consts, K, r, names)
    ensures Emits(A, consts, L + K + [Bin(op)], Binary(op, l, r), names)
  {
    hide ExprCode, TailShape;
    if JoinSafe(Binary(op, l, r), names) { BinaryCode(A, consts, L, K, l, r, op, names); }
    LastIs(L + K + [Bin(op)], Binary(op, l, r), names);
  }

  lemma LastIs(L: seq<Instr>, e: Expr, names: seq<Text>)
    requires L != [] && (e.Binary? || e.Unary?)
    requires var i := L[|L| - 1]; !LoadsConst(i) && !i.GetLocal? && !i.SetLocal?
    ensures TailShape(L, e, names)
  {
  }

  lemma BinaryMerged(A: Arith, consts: seq<Value>, L: seq<Instr>, K: seq<Instr>, l: Expr, r: Expr, op: BinOp,
                     names: seq<Text>, T0: seq<Instr>, tail: seq<Instr>)
    requires Emits(A, consts, L, l, names) && Emits(A, consts, K, r, names) && IsSuffix(tail, T0 + L + K)
    requires InPool(consts, LastOf(tail, 1)) && InPool(consts, LastOf(tail, 0))
    requires RewriteOf(A, consts, LastOf(tail, 1), LastOf(tail, 0), Bin(op)).Merge?
    ensures var rw := RewriteOf(A, consts, LastOf(tail, 1), LastOf(tail, 0), Bin(op));
            rw.drop == 2 && Emits(A, consts, L + K[..|K| - 1] + [rw.i], Binary(op, l, r), names)
  {
    hide Apply, LoadedBy, ExprCode, EffectOf;
    var left, right := LastOf(tail, 1), LastOf(tail, 0);
    var rw := RewriteOf(A, consts, left, right, Bin(op));
    var e := Binary(op, l, r);
    var M := L + K[..|K| - 1] + [rw.i];
    if JoinSafe(e, names) {
      MergeWindow(L, K, l, r, op, names, T0, tail);
      BinaryCode(A, consts, L, K, l, r, op, names);
      assert L + K + [Bin(op)] == L + [right.value, Bin(op)];
      NeverStuck(A, consts, L, l, names);
      MergedCode(A, consts, L, left, right.value, Bin(op), e, names);
      assert M == L + [rw.i];
    }
  }

  lemma NeverStuck(A: Arith, consts: seq<Value>, L: seq<Instr>, e: Expr, names: seq<Text>)
    requires ExprCode(A, consts, L, e, names)
    ensures forall consts1: seq<Value>, env, temps, g, out :: consts <= consts1 && NamesOf(env) == names ==>
              !ExecList(A, consts1, L, StateOf(env, temps, g, out)).Stuck?
  {
    hide ExecList;
    forall consts1: seq<Value>, env, temps, g, out | consts <= consts1 && NamesOf(env) == names
      ensures !ExecList(A, consts1, L, StateOf(env, temps, g, out)).Stuck?
    {
      assert Computes(A, consts1, L, e, env, temps, g, out);
    }
  }

  lemma BinaryFolded(A: Arith, consts: seq<Value>, consts1: seq<Value>, L: seq<Instr>, K: seq<Instr>, l: Expr, r: Expr,
                     op: BinOp, names: seq<Text>, T0: seq<Instr>, tail: seq<Instr>, load: Instr)
    requires Emits(A, consts, L, l, names) && Emits(A, consts, K, r, names) && IsSuffix(tail, T0 + L + K)
    requires InPool(consts, LastOf(tail, 1)) && InPool(consts, LastOf(tail, 0)) && consts <= consts1
    requires RewriteOf(A, consts, LastOf(tail, 1), LastOf(tail, 0), Bin(op)).Fold?
    requires LoadsConst(load) && InPool(consts1, Some(load)) && PoolValid(consts1)
    requires LoadedBy(consts1, load) == RewriteOf(A, consts, LastOf(tail, 1), LastOf(tail, 0), Bin(op)).v
    ensures var rw := RewriteOf(A, consts, LastOf(tail, 1), LastOf(tail, 0), Bin(op));
            rw.drop == 3 && Emits(A, consts1, (L + K)[..|L| + |K| - 2] + [load], Binary(op, l, r), names)
  {
    hide Apply, LoadedBy, ExprCode, EffectOf, EndValue;
    var left, right := LastOf(tail, 1), LastOf(tail, 0);
    var e := Binary(op, l, r);
    var M := (L + K)[..|L| + |K| - 2] + [load];
    FoldEnds(A, consts, L, K, l, r, op, T0, tail);
    assert M == L[..|L| - 1] + [load];
    if JoinSafe(e, names) {
      FoldWindow(L, K, l, r, op, names, T0, tail);
      BinaryCode(A, consts, L, K, l, r, op, names);
      assert L + K + [Bin(op)] == Window(left, right, Bin(op), 3);
      FoldedCode(A, consts, consts1, left, right, Bin(op), e, load, names);
      BinaryKind(A, op, LoadedBy(consts, left.value), LoadedBy(consts, right.value));
      LoadKind(consts1, load);
      assert M == [load];
    }
  }

  // ---- The same for unary operations ----

  lemma UnaryKept(A: Arith, consts: seq<Value>, L: seq<Instr>, x: Expr, op: UnOp, names: seq<Text>)
    requires Emits(A, consts, L, x, names)
    ensures Emits(A, consts, L + [Un(op)], Unary(op, x), names)
  {
    hide ExprCode, TailShape;
    if JoinSafe(Unary(op, x), names) { UnaryCode(A, consts, L, x, op, names); }
    LastIs(L + [Un(op)], Unary(op, x), names);
  }

  lemma UnaryMerged(A: Arith, consts: seq<Value>, L: seq<Instr>, x: Expr, op: UnOp, names: seq<Text>,
                    left: Option<Instr>, T0: seq<Instr>, tail: seq<Instr>)
    requires Emits(A, consts, L, x, names) && IsSuffix(tail, T0 + L)
    requires InPool(consts, left) && InPool(consts, LastOf(tail, 0))
    requires RewriteOf(A, consts, left, LastOf(tail, 0), Un(op)).Merge?
    ensures var rw := RewriteOf(A, consts, left, LastOf(tail, 0), Un(op));
            rw.drop == 2 && Emits(A, consts, L[..|L| - 1] + [rw.i], Unary(op, x), names)
  {
    hide ApplyUnary, LoadedBy, ExprCode, EffectOf;
    var right := LastOf(tail, 0);
    var rw := RewriteOf(A, consts, left, right, Un(op));
    SuffixLast(tail, T0 + L, 0);
    var M := L[..|L| - 1] + [rw.i];
    if JoinSafe(Unary(op, x), names) {
      UnaryCode(A, consts, L, x, op, names);
      assert L == [right.value];
      assert L + [Un(op)] == [] + [right.value, Un(op)];
      NothingStuck(A, consts, names);
      MergedCode(A, consts, [], left, right.value, Un(op), Unary(op, x), names);
      assert M == [] + [rw.i];
    }
  }

  lemma NothingStuck(A: Arith, consts: seq<Value>, names: seq<Text>)
    ensures forall consts1: seq<Value>, env, temps, g, out :: consts <= consts1 && NamesOf(env) == names ==>
              !ExecList(A, consts1, [], StateOf(env, temps, g, out)).Stuck?
  {
  }

  lemma UnaryFolded(A: Arith, consts: seq<Value>, consts1: seq<Value>, L: seq<Instr>, x: Expr, op: UnOp,
                    names: seq<Text>, left: Option<Instr>, T0: seq<Instr>, tail: seq<Instr>, load: Instr)
    requires Emits(A, consts, L, x, names) && IsSuffix(tail, T0 + L)
    requires InPool(consts, left) && InPool(consts, LastOf(tail, 0)) && consts <= consts1
    requires RewriteOf(A, consts, left, LastOf(tail, 0), Un(op)).Fold?
    requires LoadsConst(load) && InPool(consts1, Some(load)) && PoolValid(consts1)
    requires LoadedBy(consts1, load) == RewriteOf(A, consts, left, LastOf(tail, 0), Un(op)).v
    ensures RewriteOf(A, consts, left, LastOf(tail, 0), Un(op)).drop == 2
    ensures Emits(A, consts1, L[..|L| - 1] + [load], Unary(op, x), names)
  {
    hide ApplyUnary, LoadedBy, ExprCode, EffectOf;
    var right := LastOf(tail, 0);
    SuffixLast(tail, T0 + L, 0);
    var M := L[..|L| - 1] + [load];
    if JoinSafe(Unary(op, x), names) {
      UnaryCode(A, consts, L, x, op, names);
      assert L + [Un(op)] == Window(left, right, Un(op), 2);
      FoldedCode(A, consts, consts1, left, right, Un(op), Unary(op, x), load, names);
      UnaryKind(A, op, LoadedBy(consts, right.value));
      LoadKind(consts1, load);
      assert M == [load];
    }
  }

  // ---- Rejected operations ----

  /** Evaluating the expression fails, whatever its variables hold. */
  ghost predicate AlwaysFails(A: Arith, e: Expr, names: seq<Text>) {
    forall env: Env, g: Globals :: NamesOf(env) == names ==> Eval(A, e, env, g) == Err(g)
  }

  lemma BinaryRejected(A: Arith, consts: seq<Value>, L: seq<Instr>, K: seq<Instr>, l: Expr, r: Expr, op: BinOp,
                       T0: seq<Instr>, tail: seq<Instr>)
    requires EndShape(A, consts, L, l) && EndShape(A, consts, K, r) && IsSuffix(tail, T0 + L + K) && PoolValid(consts)
    requires InPool(consts, LastOf(tail, 1)) && InPool(consts, LastOf(tail, 0))
    requires RewriteOf(A, consts, LastOf(tail, 1), LastOf(tail, 0), Bin(op)).Reject?
    ensures EndsBadly(A, Binary(op, l, r))
  {
    hide Apply, LoadedBy, EndValue;
    FoldEnds(A, consts, L, K, l, r, op, T0, tail);
  }

  lemma UnaryRejected(A: Arith, consts: seq<Value>, L: seq<Instr>, x: Expr, op: UnOp, left: Option<Instr>, T0: seq<Instr>,
                      tail: seq<Instr>)
    requires EndShape(A, consts, L, x) && IsSuffix(tail, T0 + L)
    requires InPool(consts, left) && InPool(consts, LastOf(tail, 0))
    requires RewriteOf(A, consts, left, LastOf(tail, 0), Un(op)).Reject?
    ensures EndsBadly(A, Unary(op, x))
  {
    hide ApplyUnary, LoadedBy, EndValue;
    SuffixLast(tail, T0 + L, 0);
  }

  /** An expression that is a constant for the optimizer, and no join, is that constant. */
  lemma {:induction false} EndEvaluates(A: Arith, e: Expr, names: seq<Text>, env: Env, g: Globals)
    requires JoinSafe(e, names) && !IsJoin(e) && EndValue(A, e).Some?
    ensures Eval(A, e, env, g) == Val(EndValue(A, e).value, env, g)
  {
    hide Apply, ApplyUnary;
    match e
    case Unary(op, x) =>
      EndTail(A, x, names);
      EndEvaluates(A, x, names, env, g);
    case Binary(op, l, r) =>
      EndTail(A, l, names);
      EndTail(A, r, names);
      EndEvaluates(A, l, names, env, g);
      EndEvaluates(A, r, names, env, g);
    case _ =>
  }

  /** What the constant tells of the tail. */
  lemma {:induction false} EndTail(A: Arith, e: Expr, names: seq<Text>)
    requires EndValue(A, e).Some?
    ensures var v := EndValue(A, e).value; TailOf(e, names) == if v.Nil? || v.Bool? then LiteralTail else PoolTail
  {
    hide Apply, ApplyUnary;
    match e
    case Unary(op, x) =>
      EndTail(A, x, names);
      UnaryKind(A, op, EndValue(A, x).value);
    case Binary(op, l, r) =>
      EndTail(A, l, names);
      EndTail(A, r, names);
      BinaryKind(A, op, EndValue(A, l).value, EndValue(A, r).value);
    case And(_, r) => EndTail(A, r, names);
    case Or(_, r) => EndTail(A, r, names);
    case _ =>
  }

  /** An operation that is rejected, and does not reach across a join, fails whenever it is evaluated. */
  lemma BadEndFails(A: Arith, e: Expr, names: seq<Text>)
    requires JoinSafe(e, names) && EndsBadly(A, e)
    ensures AlwaysFails(A, e, names)
  {
    hide Apply, ApplyUnary, EndValue;
    forall env: Env, g: Globals | NamesOf(env) == names ensures Eval(A, e, env, g) == Err(g) {
      match e
      case Unary(op, x) =>
        EndTail(A, x, names);
        EndEvaluates(A, x, names, env, g);
      case Binary(op, l, r) =>
        EndTail(A, l, names);
        EndTail(A, r, names);
        EndEvaluates(A, l, names, env, g);
        EndEvaluates(A, r, names, env, g);
    }
  }

  // ---- Loads, assignments, short circuits ----

  lemma LoadEmits(A: Arith, consts: seq<Value>, i: Instr, e: Expr, names: seq<Text>)
    requires LoadsConst(i) && InPool(consts, Some(i)) && IsConstExpr(e) && LoadedBy(consts, i) == LiteralValue(e)
    requires PoolValid(consts)
    ensures Emits(A, consts, [i], e, names)
  {
    hide ExprCode;
    LoadKind(consts, i);
    LoadCode(A, consts, i, e, names);
  }

  lemma AssignLocalEmits(A: Arith, consts: seq<Value>, L: seq<Instr>, x: Expr, i: byte, name: Text, names: seq<Text>)
    requires Emits(A, consts, L, x, names) && Innermost(names, name) == i
    ensures Emits(A, consts, L + [SetLocal(i)], Assign(name, x), names)
  {
    hide ExprCode;
    var M := L + [SetLocal(i)];
    assert M[..|M| - 1] == L;
    if JoinSafe(x, names) { AssignLocalCode(A, consts, L, x, i, name, names); }
  }

  lemma AssignGlobalEmits(A: Arith, consts: seq<Value>, L: seq<Instr>, x: Expr, k: u16, name: Text, names: seq<Text>)
    requires Emits(A, consts, L, x, names) && Innermost(names, name) < 0 && k < |consts| && consts[k] == Str(name)
    ensures Emits(A, consts, L + [SetGlobal(k)], Assign(name, x), names)
  {
    hide ExprCode;
    if JoinSafe(x, names) { AssignGlobalCode(A, consts, L, x, k, name, names); }
  }

  lemma VariableEmits(A: Arith, consts: seq<Value>, i: Instr, name: Text, names: seq<Text>)
    requires i.GetLocal? || i.GetGlobal?
    requires i.GetLocal? ==> i.i == Innermost(names, name)
    requires i.GetGlobal? ==> Innermost(names, name) < 0 && i.k < |consts| && consts[i.k] == Str(name)
    ensures Emits(A, consts, [i], Variable(name), names)
  {
    hide ExprCode;
    if i.GetLocal? { ReadLocalCode(A, consts, i.i, name, names); } else { ReadGlobalCode(A, consts, i.k, name, names); }
  }

  lemma ShortCircuitEmits(A: Arith, consts: seq<Value>, L: seq<Instr>, K: seq<Instr>, l: Expr, r: Expr, isAnd: bool,
                          off: u16, names: seq<Text>)
    requires Emits(A, consts, L, l, names) && Emits(A, consts, K, r, names) && off == 1 + SizeAll(K)
    ensures Emits(A, consts, L + ([ExitJump(isAnd, off)] + ([Pop] + K)), ShortCircuit(isAnd, l, r), names)
  {
    hide ExprCode, TailShape, JoinSafe, TailOf;
    var M := L + ([ExitJump(isAnd, off)] + ([Pop] + K));
    JoinTail(L + [ExitJump(isAnd, off), Pop], K, M, isAnd, l, r, names);
    if JoinSafe(l, names) && JoinSafe(r, names) { ShortCircuitCode(A, consts, L, K, l, r, isAnd, off, names); }
  }

  /** A join ends as its right operand does. */
  lemma JoinTail(P: seq<Instr>, K: seq<Instr>, M: seq<Instr>, isAnd: bool, l: Expr, r: Expr, names: seq<Text>)
    requires TailShape(K, r, names) && P != [] && P[|P| - 1] == Pop && M == P + K
    ensures TailShape(M, ShortCircuit(isAnd, l, r), names)
    ensures JoinSafe(ShortCircuit(isAnd, l, r), names) <==> JoinSafe(l, names) && JoinSafe(r, names)
  {
    hide JoinSafe, TailOf;
    assert M[|M| - 1] == K[|K| - 1];
    JoinParts(isAnd, l, r, names);
    if |K| > 1 { assert M[|M| - 2] == K[|K| - 2]; } else { assert M[|M| - 2] == P[|P| - 1]; }
  }

  lemma JoinParts(isAnd: bool, l: Expr, r: Expr, names: seq<Text>)
    ensures var e := ShortCircuit(isAnd, l, r);
            IsJoin(e) && TailOf(e, names) == TailOf(r, names) && (JoinSafe(e, names) <==> JoinSafe(l, names) && JoinSafe(r, names))
  {
  }
}
