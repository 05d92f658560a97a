/** The code buffer and the op stack that describes its end, and what rewriting the end in place leaves. */
module Buffer {
  import opened Types
  import opened Values
  import opened Syntax
  import opened Bytecode
  import opened Machine
  import opened Peephole
  import opened Expressions
  import opened Simulation
  import opened Items
  import opened Tails

  /** The op stack names the opcodes of the instructions of tail, which end the code. */
  ghost predicate Described(code: seq<byte>, ops: seq<byte>, consts: seq<Value>, tail: seq<Instr>) {
    EndsWith(code, tail) && ops == Opcodes(tail) &&
    forall j :: 0 <= j < |tail| ==> InPool(consts, Some(tail[j]))
  }

  lemma DescribedAppend(code: seq<byte>, ops: seq<byte>, consts: seq<Value>, tail: seq<Instr>, i: Instr)
    requires Described(code, ops, consts, tail) && WellFormed(i) && InPool(consts, Some(i))
    ensures Described(code + Encode(i), ops + [Opcode(i)], consts, tail + [i])
  {
    hide EndsWith, Opcode, Encode;
    DropsWellFormed(code, tail, 0);
    EndsAppend(code, tail, i);
    assert Opcodes(tail + [i]) == Opcodes(tail) + [Opcode(i)];
  }

  lemma DescribedEnds(code: seq<byte>, ops: seq<byte>, consts: seq<Value>, tail: seq<Instr>)
    requires Described(code, ops, consts, tail)
    ensures EndsWith(code, tail)
  {
    hide EndsWith, Opcode;
  }

  lemma DescribedEmpty(code: seq<byte>, consts: seq<Value>)
    ensures Described(code, [], consts, [])
  {
  }

  lemma DescribedDrop(code: seq<byte>, ops: seq<byte>, consts: seq<Value>, tail: seq<Instr>, n: nat)
    requires Described(code, ops, consts, tail) && n <= |tail|
    ensures |ops| == |tail| && SizeAll(Last(tail, n)) <= |code|
    ensures Described(code[..|code| - SizeAll(Last(tail, n))], ops[..|ops| - n], consts, AllBut(tail, n))
  {
    hide EndsWith, Opcode, SizeAll;
    EndsDrop(code, tail, n);
    DropsWellFormed(code, tail, n);
    assert Opcodes(AllBut(tail, n)) == Opcodes(tail)[..|tail| - n];
  }

  lemma DropsWellFormed(code: seq<byte>, tail: seq<Instr>, n: nat)
    requires EndsWith(code, tail) && n <= |tail|
    ensures AllWellFormed(tail) && AllWellFormed(AllBut(tail, n))
  {
  }

  lemma DescribedGrows(code: seq<byte>, ops: seq<byte>, consts: seq<Value>, consts1: seq<Value>, tail: seq<Instr>)
    requires Described(code, ops, consts, tail) && consts <= consts1
    ensures Described(code, ops, consts1, tail)
  {
    hide EndsWith, Opcode;
  }

  /** What a peek at the op stack tells about the instruction there. */
  lemma PeekTells(code: seq<byte>, ops: seq<byte>, consts: seq<Value>, tail: seq<Instr>, n: nat)
    requires Described(code, ops, consts, tail)
    ensures InPool(consts, LastOf(tail, n))
    ensures LastOf(tail, n).Some? <==> n < |ops|
    ensures n < |ops| ==> WellFormed(LastOf(tail, n).value) && ops[|ops| - 1 - n] == Opcode(LastOf(tail, n).value)
  {
    hide Opcode;
  }

  /** The last n instructions stand at the end of the code, one behind the other. */
  lemma WindowBytes(code: seq<byte>, tail: seq<Instr>, n: nat)
    requires EndsWith(code, tail) && n <= |tail|
    ensures var W := Last(tail, n);
            && AllWellFormed(W) && SizeAll(W) <= |code| && ListAt(code, |code| - SizeAll(W), W)
            && code == code[..|code| - SizeAll(W)] + EncodeAll(W)
  {
    hide EndsWith, EncodeAll, SizeAll, ListAt;
    EndsDrop(code, tail, n);
  }

  // ---- Overwriting in place ----

  lemma TwoAtEnd(code: seq<byte>, tail: seq<Instr>, r: Instr, i: Instr)
    requires EndsWith(code, tail) && |tail| >= 2 && Last(tail, 2) == [r, i]
    ensures WellFormed(r) && WellFormed(i) && SizeAll(Last(tail, 2)) == Size(r) + Size(i) <= |code|
    ensures code == code[..|code| - Size(r) - Size(i)] + (Encode(r) + Encode(i))
    ensures At(code, |code| - Size(i) - Size(r), r)
  {
    hide Encode, SizeAll, EncodeAll;
    WindowBytes(code, tail, 2);
    assert WellFormed([r, i][0]) && WellFormed([r, i][1]);
    EncodeTwo(r, i);
    ListAtHead(code, |code| - SizeAll([r, i]), [r, i]);
  }

  lemma ThreeAtEnd(code: seq<byte>, tail: seq<Instr>, l: Instr, r: Instr, i: Instr)
    requires EndsWith(code, tail) && |tail| >= 3 && Last(tail, 3) == [l, r, i]
    ensures WellFormed(l) && WellFormed(r) && WellFormed(i)
    ensures SizeAll(Last(tail, 3)) == Size(l) + Size(r) + Size(i) <= |code|
    ensures code == code[..|code| - Size(l) - Size(r) - Size(i)] + (Encode(l) + Encode(r) + Encode(i))
    ensures At(code, |code| - Size(i) - Size(r), r)
    ensures At(code, |code| - Size(i) - Size(r) - Size(l), l)
  {
    hide Encode, SizeAll, EncodeAll;
    WindowBytes(code, tail, 3);
    var W := [l, r, i];
    assert WellFormed(W[0]) && WellFormed(W[1]) && WellFormed(W[2]);
    EncodeThree(l, r, i);
    EncodeTwo(r, i);
    ListAtHead(code, |code| - SizeAll(W), W);
    assert W[1..] == [r, i];
    ListAtHead(code, |code| - SizeAll(W) + Size(l), [r, i]);
  }

  /** A load of a constant or local becomes the operation on it. */
  lemma OperandOverwritten(code: seq<byte>, base: seq<byte>, r: Instr, last: byte, i: Instr)
    requires r.Constant? || r.GetLocal? || r.SetLocal?
    requires code == base + (Encode(r) + [last])
    requires r.Constant? ==> i.BinConst? && i.k == r.k
    requires r.GetLocal? ==> (i.BinLocal? || i.UnLocal?) && i.i == r.i
    requires r.SetLocal? ==> i == SetLocalPop(r.i)
    ensures var c := code[..|code| - 1]; c[|c| - Size(r) := Opcode(i)] == base + Encode(i)
  {
    var c := code[..|code| - 1];
    assert c == base + Encode(r);
    assert c[|c| - Size(r) := Opcode(i)] == base + Encode(r)[0 := Opcode(i)];
  }

  /** A load and a store become one move. */
  lemma MoveOverwritten(code: seq<byte>, base: seq<byte>, x: byte, y: byte)
    requires code == base + (Encode(GetLocal(x)) + Encode(SetLocal(y)) + Encode(Pop))
    ensures code[|code| - 2] == y
    ensures var c := code[..|code| - 3]; c[|c| - 2 := OP_MOVE_LOCAL] + [y] == base + Encode(MoveLocal(x, y))
  {
    var c := code[..|code| - 3];
    assert c == base + [OP_GET_LOCAL, x];
    assert c[|c| - 2 := OP_MOVE_LOCAL] == base + [OP_MOVE_LOCAL, x];
  }

  // ---- The outcome of a rewrite ----

  /** From (code, tail, consts) the rewrite leads to (code1, tail1, consts1): nothing changed, or the last
      instructions replaced.  A folded value is loaded by `load`. */
  ghost predicate Rewritten(rw: Rewrite, load: Instr, code: seq<byte>, tail: seq<Instr>, consts: seq<Value>,
                            code1: seq<byte>, tail1: seq<Instr>, consts1: seq<Value>) {
    match rw
    case Keep => code1 == code && tail1 == tail && consts1 == consts
    case Reject(_) => false
    case Fold(n, v) =>
      n <= |tail| && SizeAll(Last(tail, n)) <= |code| && consts <= consts1
      && LoadsConst(load) && InPool(consts1, Some(load)) && LoadedBy(consts1, load) == v && WellFormed(load)
      && code1 == code[..|code| - SizeAll(Last(tail, n))] + Encode(load)
      && tail1 == AllBut(tail, n) + [load]
    case Merge(n, i) =>
      n <= |tail| && SizeAll(Last(tail, n)) <= |code| && WellFormed(i)
      && code1 == code[..|code| - SizeAll(Last(tail, n))] + Encode(i)
      && tail1 == [] && consts1 == consts
  }

  lemma EncodeEnd(base: seq<byte>, L: seq<Instr>, K: seq<Instr>, M: seq<Instr>)
    requires AllWellFormed(L) && AllWellFormed(K) && AllWellFormed(M)
    ensures AllWellFormed(L + K) && AllWellFormed(L + M)
    ensures var code := base + EncodeAll(L + K);
            SizeAll(K) <= |code| && code[..|code| - SizeAll(K)] + EncodeAll(M) == base + EncodeAll(L + M)
  {
    hide EncodeAll, SizeAll;
    EncodeAppend(L, K);
    EncodeAppend(L, M);
    ReplaceEnd(base, EncodeAll(L), EncodeAll(K), EncodeAll(M));
  }

  lemma ReplaceEnd(base: seq<byte>, l: seq<byte>, k: seq<byte>, m: seq<byte>)
    ensures var code := base + (l + k); code[..|code| - |k|] + m == base + (l + m)
  {
    assert (base + (l + k))[..|base| + |l|] == base + l;
  }

  /** The suffix of a list that ends with K ends with it too, if it is long enough. */
  lemma SuffixEnd(tail: seq<Instr>, t: seq<Instr>, L: seq<Instr>, K: seq<Instr>, M: seq<Instr>)
    requires IsSuffix(tail, t + (L + K)) && |K| <= |tail|
    ensures Last(tail, |K|) == K
    ensures IsSuffix(AllBut(tail, |K|) + M, t + (L + M))
  {
    var n := |t + (L + K)| - |tail|;
    assert tail == (t + (L + K))[n..];
    var a := AllBut(tail, |K|);
    assert t + (L + M) == (t + L) + M;
    assert a == (t + L)[n..];
    assert a + M == ((t + L) + M)[n..];
  }

  /** The code of the operation without the rewrite, as the instructions in front of the window and the window. */
  lemma Rewrites(rw: Rewrite, load: Instr, base: seq<byte>, t: seq<Instr>, L: seq<Instr>, W: seq<Instr>,
                 code: seq<byte>, tail: seq<Instr>, consts: seq<Value>,
                 code1: seq<byte>, tail1: seq<Instr>, consts1: seq<Value>) returns (M: seq<Instr>)
    requires Rewritten(rw, load, code, tail, consts, code1, tail1, consts1) && (rw.Fold? || rw.Merge?)
    requires AllWellFormed(L) && AllWellFormed(W)
    requires code == base + EncodeAll(L + W) && IsSuffix(tail, t + (L + W)) && |W| == rw.drop
    ensures M == L + [if rw.Fold? then load else rw.i] && AllWellFormed(M)
    ensures code1 == base + EncodeAll(M) && IsSuffix(tail1, t + M)
  {
    hide EncodeAll, SizeAll, LoadedBy, WellFormed, Encode;
    var i := if rw.Fold? then load else rw.i;
    M := L + [i];
    OneWellFormed(i);
    SuffixEnd(tail, t, L, W, [i]);
    EncodeOne(i);
    EncodeEnd(base, L, W, [i]);
  }

  lemma OneWellFormed(i: Instr)
    requires WellFormed(i)
    ensures AllWellFormed([i])
  {
  }

  // ---- Rewritten operations ----

  lemma EmitsSome(A: Arith, consts: seq<Value>, L: seq<Instr>, e: Expr, names: seq<Text>)
    requires Emits(A, consts, L, e, names)
    ensures L != [] && AllWellFormed(L)
  {
    hide ExprCode, AssignShape, JoinSafe, TailOf;
  }

  lemma OperationBytes(base: seq<byte>, L: seq<Instr>, K: seq<Instr>, i: Instr, t: seq<Instr>, tail: seq<Instr>)
    requires AllWellFormed(L) && AllWellFormed(K) && (i.Bin? || i.Un?) && IsSuffix(tail, t + L + K)
    ensures WellFormed(i) && AllWellFormed(L + K + [i])
    ensures base + EncodeAll(L) + EncodeAll(K) + Encode(i) == base + EncodeAll(L + K + [i])
    ensures IsSuffix(tail + [i], t + (L + K + [i]))
  {
    hide EncodeAll, SizeAll, Encode, IsSuffix;
    OneWellFormed(i);
    EncodeAppend(L, K);
    EncodeOne(i);
    EncodeAppend(L + K, [i]);
    SuffixAppend(tail, t + L + K, [i]);
    assert t + L + K + [i] == t + (L + K + [i]);
  }

  lemma BinaryResult(A: Arith, base: seq<byte>, t: seq<Instr>, L: seq<Instr>, K: seq<Instr>, l: Expr, r: Expr, op: BinOp,
                     names: seq<Text>, load: Instr, code: seq<byte>, tail: seq<Instr>, consts: seq<Value>,
                     code1: seq<byte>, tail1: seq<Instr>, consts1: seq<Value>) returns (M: seq<Instr>)
    requires Emits(A, consts, L, l, names) && Emits(A, consts, K, r, names) && IsSuffix(tail, t + L + K)
    requires InPool(consts, LastOf(tail, 1)) && InPool(consts, LastOf(tail, 0))
    requires code == base + EncodeAll(L) + EncodeAll(K) + Encode(Bin(op))
    requires Rewritten(RewriteOf(A, consts, LastOf(tail, 1), LastOf(tail, 0), Bin(op)), load,
                       code, tail + [Bin(op)], consts, code1, tail1, consts1)
    requires PoolValid(consts1)
    ensures AllWellFormed(M) && code1 == base + EncodeAll(M) && IsSuffix(tail1, t + M)
    ensures Emits(A, consts1, M, Binary(op, l, r), names)
  {
    hide EncodeAll, SizeAll, LoadedBy, Encode, Emits, RewriteOf, WellFormed, IsSuffix;
    EmitsSome(A, consts, L, l, names);
    EmitsSome(A, consts, K, r, names);
    var rw := RewriteOf(A, consts, LastOf(tail, 1), LastOf(tail, 0), Bin(op));
    var whole := L + K + [Bin(op)];
    OperationBytes(base, L, K, Bin(op), t, tail);
    if rw.Keep? {
      M := whole;
      BinaryKept(A, consts, L, K, l, r, op, names);
    } else {
      RewriteFits(A, consts, LastOf(tail, 1), LastOf(tail, 0), Bin(op));
      var L1, W := AllBut(whole, rw.drop), Last(whole, rw.drop);
      assert whole == L1 + W;
      M := Rewrites(rw, load, base, t, L1, W, code, tail + [Bin(op)], consts, code1, tail1, consts1);
      if rw.Merge? {
        BinaryMerged(A, consts, L, K, l, r, op, names, t, tail);
        assert M == L + K[..|K| - 1] + [rw.i];
      } else {
        BinaryFolded(A, consts, consts1, L, K, l, r, op, names, t, tail, load);
        assert M == (L + K)[..|L| + |K| - 2] + [load];
      }
    }
  }

  lemma UnaryResult(A: Arith, base: seq<byte>, t: seq<Instr>, L: seq<Instr>, x: Expr, op: UnOp,
                    names: seq<Text>, load: Instr, code: seq<byte>, tail: seq<Instr>, consts: seq<Value>,
                    code1: seq<byte>, tail1: seq<Instr>, consts1: seq<Value>) returns (M: seq<Instr>)
    requires Emits(A, consts, L, x, names) && IsSuffix(tail, t + L)
    requires InPool(consts, LastOf(tail, 1)) && InPool(consts, LastOf(tail, 0))
    requires code == base + EncodeAll(L) + Encode(Un(op))
    requires Rewritten(RewriteOf(A, consts, LastOf(tail, 1), LastOf(tail, 0), Un(op)), load,
                       code, tail + [Un(op)], consts, code1, tail1, consts1)
    requires PoolValid(consts1)
    ensures AllWellFormed(M) && code1 == base + EncodeAll(M) && IsSuffix(tail1, t + M)
    ensures Emits(A, consts1, M, Unary(op, x), names)
  {
    hide EncodeAll, SizeAll, LoadedBy, Encode, Emits, RewriteOf, WellFormed, IsSuffix, PoolValid;
    EmitsSome(A, consts, L, x, names);
    var rw := RewriteOf(A, consts, LastOf(tail, 1), LastOf(tail, 0), Un(op));
    UnaryBytes(base, L, op, t, tail);
    if rw.Keep? {
      M := L + [Un(op)];
      UnaryKept(A, consts, L, x, op, names);
    } else {
      M := UnaryShorter(A, base, t, L, x, op, names, load, code, tail, consts, code1, tail1, consts1);
    }
  }

  /** The operand's last instruction and the operator become one. */
  lemma UnaryShorter(A: Arith, base: seq<byte>, t: seq<Instr>, L: seq<Instr>, x: Expr, op: UnOp,
                     names: seq<Text>, load: Instr, code: seq<byte>, tail: seq<Instr>, consts: seq<Value>,
                     code1: seq<byte>, tail1: seq<Instr>, consts1: seq<Value>) returns (M: seq<Instr>)
    requires Emits(A, consts, L, x, names) && IsSuffix(tail, t + L)
    requires InPool(consts, LastOf(tail, 1)) && InPool(consts, LastOf(tail, 0))
    requires code == base + EncodeAll(L) + Encode(Un(op))
    requires var rw := RewriteOf(A, consts, LastOf(tail, 1), LastOf(tail, 0), Un(op));
             !rw.Keep? && Rewritten(rw, load, code, tail + [Un(op)], consts, code1, tail1, consts1)
    requires PoolValid(consts1)
    ensures AllWellFormed(M) && code1 == base + EncodeAll(M) && IsSuffix(tail1, t + M)
    ensures Emits(A, consts1, M, Unary(op, x), names)
  {
    hide EncodeAll, SizeAll, LoadedBy, Encode, Emits, RewriteOf, WellFormed, IsSuffix, PoolValid;
    EmitsSome(A, consts, L, x, names);
    var rw := RewriteOf(A, consts, LastOf(tail, 1), LastOf(tail, 0), Un(op));
    var whole := L + [Un(op)];
    UnaryBytes(base, L, op, t, tail);
    UnaryDrops(A, consts, LastOf(tail, 1), LastOf(tail, 0), op);
    var L1, W := AllBut(whole, 2), Last(whole, 2);
    assert whole == L1 + W && L1 == L[..|L| - 1];
    M := Rewrites(rw, load, base, t, L1, W, code, tail + [Un(op)], consts, code1, tail1, consts1);
    if rw.Merge? {
      UnaryMerged(A, consts, L, x, op, names, LastOf(tail, 1), t, tail);
    } else {
      UnaryFolded(A, consts, consts1, L, x, op, names, LastOf(tail, 1), t, tail, load);
    }
  }

  lemma UnaryBytes(base: seq<byte>, L: seq<Instr>, op: UnOp, t: seq<Instr>, tail: seq<Instr>)
    requires AllWellFormed(L) && IsSuffix(tail, t + L)
    ensures WellFormed(Un(op)) && AllWellFormed(L + [Un(op)])
    ensures base + EncodeAll(L) + Encode(Un(op)) == base + EncodeAll(L + [Un(op)])
    ensures IsSuffix(tail + [Un(op)], t + (L + [Un(op)]))
  {
    hide SizeAll, Encode, IsSuffix;
    assert EncodeAll([]) == [];
    assert L + [] == L && t + L + [] == t + L && base + EncodeAll(L) + [] == base + EncodeAll(L);
    OperationBytes(base, L, [], Un(op), t, tail);
  }

  lemma UnaryDrops(A: Arith, consts: seq<Value>, left: Option<Instr>, right: Option<Instr>, op: UnOp)
    requires InPool(consts, left) && InPool(consts, right)
    ensures var rw := RewriteOf(A, consts, left, right, Un(op)); rw.Keep? || rw.drop == 2
  {
    hide ApplyUnary, LoadedBy;
  }

  // ---- Rewritten pops ----

  /** The code behind a pop, which merges with a store to a local before it. */
  ghost predicate Popped(code: seq<byte>, tail: seq<Instr>, code1: seq<byte>) {
    var rw := RewritePop(LastOf(tail, 1), LastOf(tail, 0));
    if rw.Merge? then
      && 1 <= rw.drop <= |tail| + 1 && WellFormed(rw.i) && SizeAll(Last(tail, rw.drop - 1)) <= |code|
      && code1 == code[..|code| - SizeAll(Last(tail, rw.drop - 1))] + Encode(rw.i)
    else code1 == code + Encode(Pop)
  }

  lemma PoppedPlain(code: seq<byte>, tail: seq<Instr>)
    requires LastOf(tail, 0).None? || !LastOf(tail, 0).value.SetLocal?
    ensures Popped(code, tail, code + Encode(Pop))
  {
  }

  /** The two ways in which the bytes of a store and a pop are overwritten. */
  lemma StoreBytes(code0: seq<byte>, tail0: seq<Instr>, code: seq<byte>, tail: seq<Instr>)
    requires code == code0 + Encode(Pop) && tail == tail0 + [Pop] && EndsWith(code, tail)
    requires LastOf(tail0, 0).Some? && LastOf(tail0, 0).value.SetLocal?
    ensures |code| >= 3
    ensures LastOf(tail0, 1).Some? && LastOf(tail0, 1).value.GetLocal? ==>
              |code| >= 5 &&
              Popped(code0, tail0, code[..|code| - 3][|code| - 5 := OP_MOVE_LOCAL] + [code[|code| - 2]])
    ensures !(LastOf(tail0, 1).Some? && LastOf(tail0, 1).value.GetLocal?) ==>
              Popped(code0, tail0, code[..|code| - 1][|code| - 3 := OP_SET_LOCAL_POP])
  {
    hide EndsWith, EncodeAll, SizeAll, Encode, Popped, At;
    var s := LastOf(tail0, 0).value;
    EncodePop();
    if LastOf(tail0, 1).Some? && LastOf(tail0, 1).value.GetLocal? {
      var l := LastOf(tail0, 1).value;
      assert Last(tail, 3) == [l, s, Pop];
      ThreeAtEnd(code, tail, l, s, Pop);
      var base := code[..|code| - 5];
      MoveOverwritten(code, base, l.i, s.i);
      assert base == code0[..|code0| - 4];
      assert Last(tail0, 2) == [l, s];
      EncodeTwo(l, s);
      MovePopped(code0, tail0, l, s);
    } else {
      assert Last(tail, 2) == [s, Pop];
      TwoAtEnd(code, tail, s, Pop);
      var base := code[..|code| - 3];
      OperandOverwritten(code, base, s, OP_POP, SetLocalPop(s.i));
      assert base == code0[..|code0| - 2];
      assert Last(tail0, 1) == [s];
      EncodeOne(s);
      StorePopped(code0, tail0, s);
    }
  }

  lemma EncodePop()
    ensures Encode(Pop) == [OP_POP]
  {
  }

  lemma MovePopped(code: seq<byte>, tail: seq<Instr>, l: Instr, s: Instr)
    requires LastOf(tail, 0) == Some(s) && LastOf(tail, 1) == Some(l) && l.GetLocal? && s.SetLocal?
    requires Last(tail, 2) == [l, s] && SizeAll([l, s]) == 4 && |code| >= 4
    ensures Popped(code, tail, code[..|code| - 4] + Encode(MoveLocal(l.i, s.i)))
  {
    hide SizeAll, Encode, Last;
    assert RewritePop(LastOf(tail, 1), LastOf(tail, 0)) == Merge(3, MoveLocal(l.i, s.i));
  }

  lemma StorePopped(code: seq<byte>, tail: seq<Instr>, s: Instr)
    requires LastOf(tail, 0) == Some(s) && s.SetLocal? && !(LastOf(tail, 1).Some? && LastOf(tail, 1).value.GetLocal?)
    requires Last(tail, 1) == [s] && SizeAll([s]) == 2 && |code| >= 2
    ensures Popped(code, tail, code[..|code| - 2] + Encode(SetLocalPop(s.i)))
  {
    hide SizeAll, Encode, Last;
    assert RewritePop(LastOf(tail, 1), LastOf(tail, 0)) == Merge(2, SetLocalPop(s.i));
  }

  /** The value of an expression statement is dropped, in one of three ways. */
  lemma ExprStmtResult(A: Arith, base: seq<byte>, t: seq<Instr>, L: seq<Instr>, e: Expr, names: seq<Text>,
                       tail: seq<Instr>, consts: seq<Value>, code1: seq<byte>) returns (M: seq<Instr>)
    requires Emits(A, consts, L, e, names) && IsSuffix(tail, t + L)
    requires Popped(base + EncodeAll(L), tail, code1)
    ensures AllWellFormed(M) && M != [] && code1 == base + EncodeAll(M)
    ensures PopSafe(e, names) ==> ListDoes(A, consts, M, [], OfStmt(ExprStmt(e)), names)
  {
    hide EncodeAll, SizeAll, Encode, Emits, ListDoes, IsSuffix, PopSafe;
    EmitsSome(A, consts, L, e, names);
    var rw := RewritePop(LastOf(tail, 1), LastOf(tail, 0));
    if rw.Merge? {
      var n := rw.drop - 1;
      StoreAtEnd(A, consts, L, e, names, t, tail, n);
      var L1, W := AllBut(L, n), Last(L, n);
      assert L == L1 + W;
      OneWellFormed(rw.i);
      EncodeOne(rw.i);
      EncodeEnd(base, L1, W, [rw.i]);
      M := L1 + [rw.i];
      if PopSafe(e, names) { StoreDropped(A, consts, L, e, names, rw.drop, rw.i, LastOf(tail, 1)); }
    } else {
      OneWellFormed(Pop);
      EncodeOne(Pop);
      EncodeAppend(L, [Pop]);
      M := L + [Pop];
      assert base + EncodeAll(L) + EncodeAll([Pop]) == base + EncodeAll(M);
      if PopSafe(e, names) { SafeCode(A, consts, L, e, names); ExprStmtDoes(A, consts, L, e, names); }
    }
  }

  lemma SafeCode(A: Arith, consts: seq<Value>, L: seq<Instr>, e: Expr, names: seq<Text>)
    requires Emits(A, consts, L, e, names) && PopSafe(e, names)
    ensures ExprCode(A, consts, L, e, names)
  {
    hide ExprCode;
  }

  lemma StoreAtEnd(A: Arith, consts: seq<Value>, L: seq<Instr>, e: Expr, names: seq<Text>, t: seq<Instr>,
                   tail: seq<Instr>, n: nat)
    requires Emits(A, consts, L, e, names) && IsSuffix(tail, t + L) && 1 <= n <= 2 && n <= |tail|
    requires LastOf(tail, 0).Some? && LastOf(tail, 0).value.SetLocal?
    ensures |L| >= 2 && L[|L| - 1] == LastOf(tail, 0).value && Last(tail, n) == Last(L, n)
    ensures LastOf(tail, 1).Some? ==> LastOf(tail, 1).value == L[|L| - 2]
  {
    hide Emits;
    EmitsSome(A, consts, L, e, names);
    assert tail[|tail| - 1] == L[|L| - 1];
    EmitsStore(A, consts, L, e, names);
    if |tail| >= 2 { assert tail[|tail| - 2] == L[|L| - 2]; }
  }

  lemma EmitsStore(A: Arith, consts: seq<Value>, L: seq<Instr>, e: Expr, names: seq<Text>)
    requires Emits(A, consts, L, e, names) && L != [] && L[|L| - 1].SetLocal?
    ensures |L| >= 2
  {
    hide ExprCode, AssignShape, JoinSafe, TailOf;
  }

  lemma StoreDropped(A: Arith, consts: seq<Value>, L: seq<Instr>, e: Expr, names: seq<Text>, drop: nat, i: Instr,
                     before: Option<Instr>)
    requires Emits(A, consts, L, e, names) && PopSafe(e, names) && |L| >= 2
    requires L[|L| - 1].SetLocal? && (before.Some? ==> before.value == L[|L| - 2])
    requires Merge(drop, i) == RewritePop(before, Some(L[|L| - 1]))
    ensures ListDoes(A, consts, L[..|L| - (drop - 1)] + [i], [], OfStmt(ExprStmt(e)), names)
  {
    hide ExprCode, ListDoes;
    var K := L[..|L| - 1];
    var y := L[|L| - 1].i;
    AssignStmtDoes(A, consts, K, e.name, e.value, y, names);
    if drop == 3 {
      assert K[|K| - 1] == before.value;
      assert L[..|L| - 2] + [i] == [MoveLocal(K[0].i, y)];
    } else {
      assert L[..|L| - 1] + [i] == K + [SetLocalPop(y)];
    }
  }

  /** Dropping a local may merge with what is pending before it. */
  lemma PopResult(A: Arith, consts: seq<Value>, code: seq<byte>, tail: seq<Instr>, code1: seq<byte>)
    returns (T: seq<Instr>, K: seq<Instr>)
    requires EndsWith(code, tail) && Popped(code, tail, code1)
    ensures (T == [] || T == Pending(tail)) && SizeAll(T) <= |code|
    ensures AllWellFormed(K) && code1 == code[..|code| - SizeAll(T)] + EncodeAll(K)
    ensures Pops(A, consts, T, K, 1)
  {
    hide EncodeAll, Encode, Pops;
    var rw := RewritePop(LastOf(tail, 1), LastOf(tail, 0));
    if rw.Merge? {
      PopsMerged(A, consts, tail);
      T, K := Pending(tail), [rw.i];
      assert Last(tail, rw.drop - 1) == T;
      EncodeOne(rw.i);
    } else {
      PopsPlain(A, consts, [], 1);
      T, K := [], [Pop];
      assert [] + [Pop] == [Pop];
      EncodeOne(Pop);
      assert code[..|code|] == code;
    }
  }

  // ---- Expressions ----

  /** The chunk as far as the code generator is concerned. */
  datatype Chunk = Chunk(code: seq<byte>, tail: seq<Instr>, consts: seq<Value>)

  /** From chunk c0 to c1 the code L for e has been appended. */
  ghost predicate ExprDone(A: Arith, c0: Chunk, c1: Chunk, L: seq<Instr>, e: Expr, names: seq<Text>) {
    && c0.consts <= c1.consts && AllWellFormed(L)
    && c1.code == c0.code + EncodeAll(L) && IsSuffix(c1.tail, c0.tail + L)
    && Emits(A, c1.consts, L, e, names)
  }

  lemma ExprDoneFrom(A: Arith, c0: Chunk, start: Chunk, c1: Chunk, L: seq<Instr>, e: Expr, names: seq<Text>)
    requires ExprDone(A, start, c1, L, e, names)
    requires c0.code == start.code && c0.tail == start.tail && c0.consts <= start.consts
    ensures ExprDone(A, c0, c1, L, e, names) && start.consts <= c1.consts
  {
    hide Emits, EncodeAll;
  }

  /** One instruction more, which may have cleared the op stack. */
  ghost predicate Appended(c0: Chunk, c1: Chunk, i: Instr) {
    WellFormed(i) && c1.code == c0.code + Encode(i) && (c1.tail == c0.tail + [i] || c1.tail == [])
    && c0.consts <= c1.consts
  }

  lemma BinaryDone(A: Arith, c0: Chunk, cL: Chunk, cR: Chunk, c1: Chunk, L: seq<Instr>, K: seq<Instr>,
                   l: Expr, r: Expr, op: BinOp, names: seq<Text>, load: Instr) returns (M: seq<Instr>)
    requires ExprDone(A, c0, cL, L, l, names) && ExprDone(A, cL, cR, K, r, names)
    requires InPool(cR.consts, LastOf(cR.tail, 1)) && InPool(cR.consts, LastOf(cR.tail, 0)) && cR.consts <= c1.consts
    requires PoolValid(c1.consts)
    requires Rewritten(RewriteOf(A, cR.consts, LastOf(cR.tail, 1), LastOf(cR.tail, 0), Bin(op)), load,
                       cR.code + Encode(Bin(op)), cR.tail + [Bin(op)], cR.consts, c1.code, c1.tail, c1.consts)
    ensures ExprDone(A, c0, c1, M, Binary(op, l, r), names)
  {
    hide EncodeAll, Encode, Emits, RewriteOf, Rewritten;
    EmitsGrows(A, cL.consts, cR.consts, L, l, names);
    SuffixTwice(cR.tail, cL.tail, c0.tail, L, K);
    M := BinaryResult(A, c0.code, c0.tail, L, K, l, r, op, names, load, cR.code + Encode(Bin(op)), cR.tail, cR.consts,
                      c1.code, c1.tail, c1.consts);
  }

  lemma BinaryRefused(A: Arith, c0: Chunk, cL: Chunk, cR: Chunk, L: seq<Instr>, K: seq<Instr>, l: Expr, r: Expr,
                      op: BinOp, names: seq<Text>)
    requires ExprDone(A, c0, cL, L, l, names) && ExprDone(A, cL, cR, K, r, names) && PoolValid(cR.consts)
    requires InPool(cR.consts, LastOf(cR.tail, 1)) && InPool(cR.consts, LastOf(cR.tail, 0))
    requires RewriteOf(A, cR.consts, LastOf(cR.tail, 1), LastOf(cR.tail, 0), Bin(op)).Reject?
    ensures EndsBadly(A, Binary(op, l, r))
  {
    hide EncodeAll, Encode, Emits, RewriteOf, EndsBadly, EndShape;
    EmitsGrows(A, cL.consts, cR.consts, L, l, names);
    EmitsEnd(A, cR.consts, L, l, names);
    EmitsEnd(A, cR.consts, K, r, names);
    SuffixTwice(cR.tail, cL.tail, c0.tail, L, K);
    BinaryRejected(A, cR.consts, L, K, l, r, op, c0.tail, cR.tail);
  }

  lemma UnaryRefused(A: Arith, c0: Chunk, cL: Chunk, L: seq<Instr>, x: Expr, op: UnOp, names: seq<Text>)
    requires ExprDone(A, c0, cL, L, x, names)
    requires InPool(cL.consts, LastOf(cL.tail, 1)) && InPool(cL.consts, LastOf(cL.tail, 0))
    requires RewriteOf(A, cL.consts, LastOf(cL.tail, 1), LastOf(cL.tail, 0), Un(op)).Reject?
    ensures EndsBadly(A, Unary(op, x))
  {
    hide EncodeAll, Encode, Emits, RewriteOf, EndsBadly, EndShape;
    EmitsEnd(A, cL.consts, L, x, names);
    UnaryRejected(A, cL.consts, L, x, op, LastOf(cL.tail, 1), c0.tail, cL.tail);
  }

  lemma EmitsEnd(A: Arith, consts: seq<Value>, L: seq<Instr>, e: Expr, names: seq<Text>)
    requires Emits(A, consts, L, e, names)
    ensures EndShape(A, consts, L, e)
  {
    hide ExprCode, AssignShape, JoinSafe, TailOf, EndShape;
  }

  lemma SuffixTwice(tail: seq<Instr>, t1: seq<Instr>, t0: seq<Instr>, L: seq<Instr>, K: seq<Instr>)
    requires IsSuffix(t1, t0 + L) && IsSuffix(tail, t1 + K)
    ensures IsSuffix(tail, t0 + L + K)
  {
    SuffixAppend(t1, t0 + L, K);
    SuffixTrans(tail, t1 + K, t0 + L + K);
  }

  lemma UnaryDone(A: Arith, c0: Chunk, cL: Chunk, c1: Chunk, L: seq<Instr>, x: Expr, op: UnOp, names: seq<Text>,
                  load: Instr) returns (M: seq<Instr>)
    requires ExprDone(A, c0, cL, L, x, names)
    requires InPool(cL.consts, LastOf(cL.tail, 1)) && InPool(cL.consts, LastOf(cL.tail, 0)) && cL.consts <= c1.consts
    requires PoolValid(c1.consts)
    requires Rewritten(RewriteOf(A, cL.consts, LastOf(cL.tail, 1), LastOf(cL.tail, 0), Un(op)), load,
                       cL.code + Encode(Un(op)), cL.tail + [Un(op)], cL.consts, c1.code, c1.tail, c1.consts)
    ensures ExprDone(A, c0, c1, M, Unary(op, x), names)
  {
    hide EncodeAll, Encode, Emits, RewriteOf, Rewritten, IsSuffix;
    M := UnaryResult(A, c0.code, c0.tail, L, x, op, names, load, cL.code + Encode(Un(op)), cL.tail, cL.consts,
                     c1.code, c1.tail, c1.consts);
  }

  /** A load, or a read of a variable. */
  lemma LoadDone(A: Arith, c0: Chunk, c1: Chunk, i: Instr, e: Expr, names: seq<Text>)
    requires Appended(c0, c1, i) && Emits(A, c1.consts, [i], e, names)
    ensures ExprDone(A, c0, c1, [i], e, names)
  {
    hide Emits, Encode, EncodeAll;
    EncodeOne(i);
  }

  lemma AssignDone(A: Arith, c0: Chunk, cL: Chunk, c1: Chunk, L: seq<Instr>, x: Expr, name: Text, i: Instr, names: seq<Text>)
    requires ExprDone(A, c0, cL, L, x, names) && Appended(cL, c1, i)
    requires i.SetLocal? || i.SetGlobal?
    requires i.SetLocal? ==> i.i == Innermost(names, name)
    requires i.SetGlobal? ==> Innermost(names, name) < 0 && i.k < |c1.consts| && c1.consts[i.k] == Str(name)
    ensures ExprDone(A, c0, c1, L + [i], Assign(name, x), names)
  {
    hide Emits, Encode, EncodeAll, WellFormed;
    EncodeOne(i);
    EncodeAppend(L, [i]);
    assert c1.code == c0.code + EncodeAll(L + [i]);
    SuffixAppend(cL.tail, c0.tail + L, [i]);
    assert c0.tail + L + [i] == c0.tail + (L + [i]);
    EmitsGrows(A, cL.consts, c1.consts, L, x, names);
    if i.SetLocal? {
      AssignLocalEmits(A, c1.consts, L, x, i.i, name, names);
    } else {
      AssignGlobalEmits(A, c1.consts, L, x, i.k, name, names);
    }
  }

  // ---- Patching ----

  /** The code with a jump operand filled in. */
  function Patch(code: seq<byte>, h: nat, off: u16): (r: seq<byte>)
    requires h + 2 <= |code|
    ensures |r| == |code| && r[..h] == code[..h] && r[h + 2..] == code[h + 2..] && r[h..h + 2] == Short(off)
  {
    code[h := off % 0x100][h + 1 := off / 0x100]
  }

  /** Patching before the instructions that the op stack knows leaves them alone. */
  lemma DescribedPatch(code: seq<byte>, ops: seq<byte>, consts: seq<Value>, tail: seq<Instr>, h: nat, off: u16)
    requires Described(code, ops, consts, tail) && h + 2 + SizeAll(tail) <= |code|
    ensures Described(Patch(code, h, off), ops, consts, tail)
  {
    hide Opcode, EncodeAll, SizeAll, Patch;
    var p := Patch(code, h, off);
    var n := |code| - SizeAll(tail);
    assert p[n..] == p[h + 2..][n - h - 2..] == code[h + 2..][n - h - 2..] == code[n..];
  }

  lemma SuffixSize(s: seq<Instr>, t: seq<Instr>)
    requires IsSuffix(s, t)
    ensures SizeAll(s) <= SizeAll(t)
    decreases |t|
  {
    if |s| < |t| { SuffixSize(s, t[1..]); }
  }

  /** The jump of `and` and `or`, patched, leads over the right operand. */
  lemma ShortCircuitDone(A: Arith, c0: Chunk, cL: Chunk, cP: Chunk, cR: Chunk, L: seq<Instr>, K: seq<Instr>,
                         l: Expr, r: Expr, isAnd: bool, names: seq<Text>, off: u16)
    requires ExprDone(A, c0, cL, L, l, names) && ExprDone(A, cP, cR, K, r, names)
    requires cP.code == cL.code + Encode(ExitJump(isAnd, 0xFFFF)) + Encode(Pop) && cP.tail == [] && cL.consts == cP.consts
    requires off == 1 + SizeAll(K)
    ensures var M := L + ([ExitJump(isAnd, off)] + ([Pop] + K));
            |cL.code| + 3 + SizeAll(cR.tail) <= |cR.code| &&
            ExprDone(A, c0, cR.(code := Patch(cR.code, |cL.code| + 1, off)), M, ShortCircuit(isAnd, l, r), names)
  {
    hide EncodeAll, Encode, Emits, WellFormed, SizeAll, Patch, IsSuffix;
    var M := L + ([ExitJump(isAnd, off)] + ([Pop] + K));
    EmitsGrows(A, cL.consts, cR.consts, L, l, names);
    ShortCircuitEmits(A, cR.consts, L, K, l, r, isAnd, off, names);
    ShortCircuitBytes(L, K, isAnd, off);
    ExitBytes(isAnd);
    assert [] + K == K;
    SuffixSize(cR.tail, K);
    PatchExit(cL.code, isAnd, EncodeAll(K), off);
    assert cR.code == cL.code + Encode(ExitJump(isAnd, 0xFFFF)) + Encode(Pop) + EncodeAll(K);
    assert Patch(cR.code, |cL.code| + 1, off) == c0.code + EncodeAll(M);
    SuffixLonger(cR.tail, K, c0.tail + (L + [ExitJump(isAnd, off), Pop]));
    assert c0.tail + M == c0.tail + (L + [ExitJump(isAnd, off), Pop]) + K;
  }

  lemma SuffixLonger(s: seq<Instr>, t: seq<Instr>, before: seq<Instr>)
    requires IsSuffix(s, t)
    ensures IsSuffix(s, before + t)
  {
  }

  lemma ExitBytes(isAnd: bool)
    ensures WellFormed(ExitJump(isAnd, 0xFFFF)) && |Encode(ExitJump(isAnd, 0xFFFF))| == 3 && |Encode(Pop)| == 1
  {
  }

  lemma ShortCircuitBytes(L: seq<Instr>, K: seq<Instr>, isAnd: bool, off: u16)
    requires AllWellFormed(L) && AllWellFormed(K)
    ensures WellFormed(ExitJump(isAnd, off)) && WellFormed(Pop)
    ensures var M := L + ([ExitJump(isAnd, off)] + ([Pop] + K));
            AllWellFormed(M) &&
            EncodeAll(M) == EncodeAll(L) + (Encode(ExitJump(isAnd, off)) + (Encode(Pop) + EncodeAll(K)))
  {
    hide EncodeAll, Encode, SizeAll;
    EncodeOne(Pop);
    EncodeOne(ExitJump(isAnd, off));
    EncodeAppend([Pop], K);
    EncodeAppend([ExitJump(isAnd, off)], [Pop] + K);
    EncodeAppend(L, [ExitJump(isAnd, off)] + ([Pop] + K));
  }

  lemma PatchExit(base: seq<byte>, isAnd: bool, rest: seq<byte>, off: u16)
    ensures WellFormed(ExitJump(isAnd, 0xFFFF)) && WellFormed(ExitJump(isAnd, off)) && WellFormed(Pop)
    ensures var code := base + Encode(ExitJump(isAnd, 0xFFFF)) + Encode(Pop) + rest;
            |base| + 3 <= |code| &&
            Patch(code, |base| + 1, off) == base + (Encode(ExitJump(isAnd, off)) + (Encode(Pop) + rest))
  {
    hide Patch, Short;
    var op := Opcode(ExitJump(isAnd, off));
    assert Encode(ExitJump(isAnd, off)) == [op] + Short(off);
    assert Encode(ExitJump(isAnd, 0xFFFF)) == [op] + Short(0xFFFF);
    PatchInside(base, op, Encode(Pop) + rest, off);
    assert base + Encode(ExitJump(isAnd, 0xFFFF)) + Encode(Pop) + rest == base + ([op] + Short(0xFFFF)) + (Encode(Pop) + rest);
  }

  lemma PatchInside(base: seq<byte>, op: byte, rest: seq<byte>, off: u16)
    ensures Patch(base + ([op] + Short(0xFFFF)) + rest, |base| + 1, off) == base + (([op] + Short(off)) + rest)
  {
    var code := base + ([op] + Short(0xFFFF)) + rest;
    var p := Patch(code, |base| + 1, off);
    assert p[..|base| + 1] == base + [op];
    assert p[|base| + 3..] == rest;
    assert p == p[..|base| + 1] + p[|base| + 1..|base| + 3] + p[|base| + 3..];
  }
}
