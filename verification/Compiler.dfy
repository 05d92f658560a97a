/** The single-pass compiler: it appends to, truncates, overwrites and back-patches one code buffer. */
module Compiler {
  import opened Types
  import opened Values
  import opened Syntax
  import opened Semantics
  import opened Bytecode
  import opened Machine
  import opened Peephole
  import opened Expressions
  import opened Simulation
  import opened Layout
  import opened Items
  import opened Tails
  import opened Buffer
  import opened Regions
  import opened Statements
  import opened Branches
  import opened Scopes
  import opened Programs
  import opened Refusals
  import R = Rules

  class Compiler {
    const A: Arith
    var code: seq<byte>
    var opStack: seq<byte>
    var constants: seq<Value>
    var pool: map<Value, nat>  // where each number and string constant is, as its interning entry records
    var locals: seq<Local>
    var scopeDepth: nat
    var currentLoop: Option<LoopContext>

    /** The instructions that the op stack describes; they end the code. */
    ghost var tail: seq<Instr>

    /** Slot 0 of a script is reserved; the constant pool belongs to the machine and may hold the constants of scripts
        compiled before. */
    constructor (arithmetic: Arith, constants: seq<Value>, pool: map<Value, nat>)
      requires PoolKept(constants, pool)
      ensures Inv() && A == arithmetic && this.constants == constants
      ensures Here() == Context(Chunk([], [], constants), [Local(THIS, 0, false)], 0, None)
    {
      A := arithmetic;
      code := [];
      opStack := [];
      this.constants := constants;
      this.pool := pool;
      locals := [Local(THIS, 0, false)];
      scopeDepth := 0;
      currentLoop := None;
      tail := [];
      new;
      DescribedEmpty(code, constants);
    }

    ghost predicate PoolInv()
      reads this`constants, this`pool
    {
      PoolKept(constants, pool)
    }

    ghost predicate CodeInv()
      reads this`code, this`opStack, this`constants, this`tail, this`pool
    {
      Described(code, opStack, constants, tail) && PoolInv()
    }

    // ---- Emitting ----

    /** emitBytes followed by emitOpStack. */
    method Emit(i: Instr)
      requires CodeInv() && WellFormed(i) && InPool(constants, Some(i))
      modifies this`code, this`opStack, this`tail
      ensures CodeInv() && code == old(code) + Encode(i) && tail == old(tail) + [i]
    {
      hide Described, Encode, Opcode;
      DescribedAppend(code, opStack, constants, tail, i);
      code := code + Encode(i);
      opStack := opStack + [Opcode(i)];
      tail := tail + [i];
    }

    /** emitBytes followed by clearOpStack. */
    method EmitLast(i: Instr)
      requires CodeInv() && WellFormed(i)
      modifies this`code, this`opStack, this`tail
      ensures CodeInv() && code == old(code) + Encode(i) && tail == []
    {
      code := code + Encode(i);
      ClearOpStack();
    }

    method ClearOpStack()
      requires PoolInv()
      modifies this`opStack, this`tail
      ensures CodeInv() && tail == []
    {
      hide Described;
      DescribedEmpty(code, constants);
      opStack := [];
      tail := [];
    }

    /** The opcode emitted `offset` instructions before the last, or NO_OP. */
    function Peek(offset: nat): (op: byte)
      reads this
    {
      if |opStack| > offset then opStack[|opStack| - offset - 1] else NO_OP
    }

    /** The index of v in the constant pool, where each number and each string is stored once; a function is stored each
        time. */
    method MakeConstant(v: Value) returns (k: nat)
      requires CodeInv() && !v.Nil? && !v.Bool?
      modifies this`constants, this`pool
      ensures CodeInv() && old(constants) <= constants && k < |constants| && constants[k] == v
      ensures constants == if v in old(constants) && !v.Object? then old(constants) else old(constants) + [v]
    {
      hide Described;
      if v in pool {
        k := pool[v];
      } else {
        k := |constants|;
        assert v !in constants || v.Object?;
        DescribedGrows(code, opStack, constants, constants + [v], tail);
        constants := constants + [v];
        if v.Number? || v.Str? { pool := pool[v := k]; }
      }
    }

    /** Emits the load of a value known at compile time. */
    method EmitLoad(v: Value) returns (ok: bool, ghost load: Instr)
      requires CodeInv() && !v.Object?
      modifies this`code, this`opStack, this`tail, this`constants, this`pool
      ensures ok ==> CodeInv() && old(constants) <= constants
      ensures ok ==> LoadsConst(load) && InPool(constants, Some(load)) && LoadedBy(constants, load) == v
      ensures ok ==> WellFormed(load) && code == old(code) + Encode(load) && tail == old(tail) + [load]
      ensures !ok ==> |constants| > UINT16_MAX && (v.Number? || v.Str?)
    {
      hide Described, PoolInv, Encode;
      if v.Nil? || v.Bool? {
        var i := if v.Nil? then LoadNil else if v.b then LoadTrue else LoadFalse;
        load := i;
        Emit(i);
      } else {
        var k := MakeConstant(v);
        if k > UINT16_MAX { return false, LoadNil; }
        load := Constant(k);
        Emit(Constant(k));
      }
      ok := true;
    }

    // ---- The peephole optimizer ----

    function OperandSize(op: byte): nat {
      if op == OP_CONSTANT then 3 else 1
    }

    predicate IsLiteralOp(op: byte) {
      op == OP_TRUE || op == OP_FALSE || op == OP_NIL
    }

    /** The constant loaded by the instruction that ends `offset` bytes before the end of the code. */
    method ReadOperand(op: byte, offset: nat, ghost i: Instr) returns (v: Value)
      requires LoadsConst(i) && InPool(constants, Some(i)) && op == Opcode(i)
      requires offset + Size(i) <= |code| && WellFormed(i) && At(code, |code| - offset - Size(i), i)
      ensures v == LoadedBy(constants, i)
    {
      hide At, Encode, Opcode;
      OpcodeTells(i);
      if op == OP_CONSTANT {
        ConstantAt(code, |code| - offset - 3, i);
        v := constants[code[|code| - offset - 2] as int + 0x100 * (code[|code| - offset - 1] as int)];
      } else if op == OP_TRUE {
        v := Bool(true);
      } else if op == OP_FALSE {
        v := Bool(false);
      } else {
        v := Nil;
      }
    }

    /** Drops the last n instructions, which are `count` bytes long, from the code and the op stack. */
    method Fallback(n: nat, count: nat)
      requires CodeInv() && n <= |tail| && count == SizeAll(Last(tail, n))
      modifies this`code, this`opStack, this`tail
      ensures CodeInv() && count <= |old(code)| && code == old(code)[..|old(code)| - count]
      ensures tail == AllBut(old(tail), n)
    {
      hide Described;
      DescribedDrop(code, opStack, constants, tail, n);
      code := code[..|code| - count];
      opStack := opStack[..|opStack| - n];
      tail := AllBut(tail, n);
    }

    /** Replaces the last n instructions by the load of v. */
    method FoldInto(n: nat, count: nat, v: Value) returns (ok: bool, ghost load: Instr)
      requires CodeInv() && n <= |tail| && count == SizeAll(Last(tail, n)) && !v.Object?
      modifies this`code, this`opStack, this`tail, this`constants, this`pool
      ensures ok ==> CodeInv() && old(constants) <= constants
      ensures ok ==> Rewritten(Fold(n, v), load, old(code), old(tail), old(constants), code, tail, constants)
      ensures !ok ==> |constants| > UINT16_MAX && (v.Number? || v.Str?)
    {
      hide Described, PoolInv, Encode, LoadedBy, SizeAll;
      Fallback(n, count);
      ok, load := EmitLoad(v);
    }

    method OptimizeBinary(op: BinOp) returns (ok: bool, ghost load: Instr)
      requires CodeInv() && |tail| > 0 && tail[|tail| - 1] == Bin(op)
      requires InPool(constants, LastOf(tail, 2)) && InPool(constants, LastOf(tail, 1))
      modifies this`code, this`opStack, this`tail, this`constants, this`pool
      ensures RewriteOf(A, old(constants), old(LastOf(tail, 2)), old(LastOf(tail, 1)), Bin(op)).Reject? ==> !ok
      ensures !ok ==> Refused(RewriteOf(A, old(constants), old(LastOf(tail, 2)), old(LastOf(tail, 1)), Bin(op)), |constants|)
      ensures ok ==> CodeInv() && old(constants) <= constants
      ensures ok ==> Rewritten(RewriteOf(A, old(constants), old(LastOf(tail, 2)), old(LastOf(tail, 1)), Bin(op)), load,
                               old(code), old(tail), old(constants), code, tail, constants)
    {
      hide Described, PoolInv, Encode, SizeAll, Rewritten, Opcode, LoadedBy, Apply, WellFormed;
      var prevRight, prevLeft := Peek(1), Peek(2);
      PeekTells(code, opStack, constants, tail, 1);
      PeekTells(code, opStack, constants, tail, 2);
      ghost var left, right := LastOf(tail, 2), LastOf(tail, 1);
      if right.Some? { OpcodeTells(right.value); }
      if left.Some? { OpcodeTells(left.value); }
      load := LoadNil;
      ok := true;
      var literals := op.Eq? || op.Ne?;
      var isRight := prevRight == OP_CONSTANT || (literals && IsLiteralOp(prevRight));
      var isLeft := prevLeft == OP_CONSTANT || (literals && IsLiteralOp(prevLeft));
      assert isRight && isLeft <==> Folds(op, left, right);
      if isLeft && isRight {
        ok, load := FoldBinary(op, prevLeft, prevRight);
      } else if prevRight == OP_CONSTANT || prevRight == OP_GET_LOCAL {
        MergeBinary(op, prevRight);
      } else {
        KeepRewritten(code, tail, constants);
      }
    }

    method FoldBinary(op: BinOp, prevLeft: byte, prevRight: byte) returns (ok: bool, ghost load: Instr)
      requires CodeInv() && |tail| > 0 && tail[|tail| - 1] == Bin(op)
      requires Folds(op, LastOf(tail, 2), LastOf(tail, 1))
      requires InPool(constants, LastOf(tail, 2)) && InPool(constants, LastOf(tail, 1))
      requires WellFormed(LastOf(tail, 2).value) && prevLeft == Opcode(LastOf(tail, 2).value)
      requires WellFormed(LastOf(tail, 1).value) && prevRight == Opcode(LastOf(tail, 1).value)
      modifies this`code, this`opStack, this`tail, this`constants, this`pool
      ensures RewriteOf(A, old(constants), old(LastOf(tail, 2)), old(LastOf(tail, 1)), Bin(op)).Reject? ==> !ok
      ensures !ok ==> Refused(RewriteOf(A, old(constants), old(LastOf(tail, 2)), old(LastOf(tail, 1)), Bin(op)), |constants|)
      ensures ok ==> CodeInv() && old(constants) <= constants
      ensures ok ==> Rewritten(RewriteOf(A, old(constants), old(LastOf(tail, 2)), old(LastOf(tail, 1)), Bin(op)), load,
                               old(code), old(tail), old(constants), code, tail, constants)
    {
      hide PoolInv, Described, Encode, EncodeAll, SizeAll, Rewritten, Opcode, LoadedBy, Apply, EndsWith, At, RewriteOf;
      ghost var l, r := LastOf(tail, 2).value, LastOf(tail, 1).value;
      DescribedEnds(code, opStack, constants, tail);
      FoldsTo(A, constants, LastOf(tail, 2), LastOf(tail, 1), op);
      OpcodeTells(l);
      OpcodeTells(r);
      assert Last(tail, 3) == [l, r, Bin(op)];
      ThreeAtEnd(code, tail, l, r, Bin(op));
      var right := ReadOperand(prevRight, 1, r);
      var left := ReadOperand(prevLeft, 1 + OperandSize(prevRight), l);
      var v := Apply(A, op, left, right);
      if v.None? { return false, LoadNil; }
      ApplyNoObject(A, op, left, right);
      ok, load := FoldInto(3, 1 + OperandSize(prevLeft) + OperandSize(prevRight), v.value);
    }

    /** The operator's own byte goes, and the load before it becomes the operation. */
    method MergeBinary(op: BinOp, prevRight: byte)
      requires CodeInv() && |tail| > 1 && tail[|tail| - 1] == Bin(op)
      requires var r := tail[|tail| - 2]; WellFormed(r) && prevRight == Opcode(r) && (r.Constant? || r.GetLocal?)
      modifies this`code, this`opStack, this`tail
      ensures CodeInv()
      ensures var r := old(tail)[|old(tail)| - 2];
              Rewritten(Merge(2, if r.Constant? then BinConst(op, r.k) else BinLocal(op, r.i)), LoadNil,
                        old(code), old(tail), old(constants), code, tail, constants)
    {
      hide PoolInv, Described, EndsWith, Rewritten, Opcode, WellFormed;
      DescribedEnds(code, opStack, constants, tail);
      BinaryOverwritten(code, tail, constants, tail[|tail| - 2], op, prevRight);
      code := code[..|code| - 1];
      ClearOpStack();
      if prevRight == OP_CONSTANT {
        code := code[|code| - 3 := ConstCode(op)];
      } else {
        code := code[|code| - 2 := LocalCode(op)];
      }
      ClearOpStack();
    }

    method OptimizeUnary(op: UnOp) returns (ok: bool, ghost load: Instr)
      requires CodeInv() && |tail| > 0 && tail[|tail| - 1] == Un(op)
      requires InPool(constants, LastOf(tail, 2)) && InPool(constants, LastOf(tail, 1))
      modifies this`code, this`opStack, this`tail, this`constants, this`pool
      ensures RewriteOf(A, old(constants), old(LastOf(tail, 2)), old(LastOf(tail, 1)), Un(op)).Reject? ==> !ok
      ensures !ok ==> Refused(RewriteOf(A, old(constants), old(LastOf(tail, 2)), old(LastOf(tail, 1)), Un(op)), |constants|)
      ensures ok ==> CodeInv() && old(constants) <= constants
      ensures ok ==> Rewritten(RewriteOf(A, old(constants), old(LastOf(tail, 2)), old(LastOf(tail, 1)), Un(op)), load,
                               old(code), old(tail), old(constants), code, tail, constants)
    {
      hide Described, PoolInv, Encode, SizeAll, Rewritten, Opcode, LoadedBy, ApplyUnary, WellFormed;
      var prevRight := Peek(1);
      PeekTells(code, opStack, constants, tail, 1);
      ghost var right := LastOf(tail, 1);
      if right.Some? { OpcodeTells(right.value); }
      load := LoadNil;
      ok := true;
      if prevRight == OP_CONSTANT || IsLiteralOp(prevRight) {
        if op.Not? { ok, load := FoldNot(prevRight); } else { ok, load := FoldNegate(prevRight); }
      } else if prevRight == OP_GET_LOCAL {
        MergeUnary(op);
      } else {
        KeepRewritten(code, tail, constants);
      }
    }

    /** `!` of a constant in the pool is false, as only nil and false are falsy. */
    method FoldNot(prevRight: byte) returns (ok: bool, ghost load: Instr)
      requires CodeInv() && LastOf(tail, 0) == Some(Un(Not)) && LastOf(tail, 1).Some? && LoadsConst(LastOf(tail, 1).value)
      requires InPool(constants, LastOf(tail, 2)) && InPool(constants, LastOf(tail, 1))
      requires WellFormed(LastOf(tail, 1).value) && prevRight == Opcode(LastOf(tail, 1).value)
      modifies this`code, this`opStack, this`tail, this`constants, this`pool
      ensures !RewriteOf(A, old(constants), old(LastOf(tail, 2)), old(LastOf(tail, 1)), Un(Not)).Reject? && ok
      ensures ok ==> CodeInv() && old(constants) <= constants
      ensures ok ==> Rewritten(RewriteOf(A, old(constants), old(LastOf(tail, 2)), old(LastOf(tail, 1)), Un(Not)), load,
                               old(code), old(tail), old(constants), code, tail, constants)
    {
      assert PoolValid(constants);
      hide Described, PoolInv, PoolValid, Encode, EncodeAll, SizeAll, Rewritten, Opcode, EndsWith, At, RewriteOf,
           ApplyUnary,
           LoadedBy;
      ghost var r := LastOf(tail, 1).value;
      DescribedEnds(code, opStack, constants, tail);
      OpcodeTells(r);
      FoldsUnary(A, constants, LastOf(tail, 2), LastOf(tail, 1), Not);
      UnaryValue(A, constants, r, Not);
      OperandCount(code, tail, r, Un(Not));
      ok, load := FoldInto(2, 1 + OperandSize(prevRight), Bool(prevRight == OP_FALSE || prevRight == OP_NIL));
    }

    method FoldNegate(prevRight: byte) returns (ok: bool, ghost load: Instr)
      requires CodeInv() && LastOf(tail, 0) == Some(Un(Negate)) && LastOf(tail, 1).Some? && LoadsConst(LastOf(tail, 1).value)
      requires InPool(constants, LastOf(tail, 2)) && InPool(constants, LastOf(tail, 1))
      requires WellFormed(LastOf(tail, 1).value) && prevRight == Opcode(LastOf(tail, 1).value)
      modifies this`code, this`opStack, this`tail, this`constants, this`pool
      ensures RewriteOf(A, old(constants), old(LastOf(tail, 2)), old(LastOf(tail, 1)), Un(Negate)).Reject? ==> !ok
      ensures !ok ==> Refused(RewriteOf(A, old(constants), old(LastOf(tail, 2)), old(LastOf(tail, 1)), Un(Negate)), |constants|)
      ensures ok ==> CodeInv() && old(constants) <= constants
      ensures ok ==> Rewritten(RewriteOf(A, old(constants), old(LastOf(tail, 2)), old(LastOf(tail, 1)), Un(Negate)), load,
                               old(code), old(tail), old(constants), code, tail, constants)
    {
      assert PoolValid(constants);
      hide Described, PoolInv, PoolValid, Encode, EncodeAll, SizeAll, Rewritten, Opcode, EndsWith, At, RewriteOf,
           ApplyUnary,
           LoadedBy;
      ghost var r := LastOf(tail, 1).value;
      DescribedEnds(code, opStack, constants, tail);
      OpcodeTells(r);
      FoldsUnary(A, constants, LastOf(tail, 2), LastOf(tail, 1), Negate);
      UnaryValue(A, constants, r, Negate);
      OperandCount(code, tail, r, Un(Negate));
      var right := ReadOperand(prevRight, 1, r);
      if !right.Number? { return false, LoadNil; }
      ok, load := FoldInto(2, 1 + OperandSize(prevRight), Number(A.neg(right.n)));
    }

    method MergeUnary(op: UnOp)
      requires CodeInv() && |tail| > 1 && tail[|tail| - 1] == Un(op) && tail[|tail| - 2].GetLocal?
      modifies this`code, this`opStack, this`tail
      ensures CodeInv()
      ensures Rewritten(Merge(2, UnLocal(op, old(tail)[|old(tail)| - 2].i)), LoadNil,
                        old(code), old(tail), old(constants), code, tail, constants)
    {
      hide PoolInv, Described, EndsWith, At, EncodeAll, SizeAll, Encode;
      ghost var r := tail[|tail| - 2];
      DescribedEnds(code, opStack, constants, tail);
      assert Last(tail, 2) == [r, Un(op)];
      TwoAtEnd(code, tail, r, Un(op));
      EncodeSmall(Un(op));
      OperandOverwritten(code, code[..|code| - Size(r) - 1], r, Opcode(Un(op)), UnLocal(op, r.i));
      code := code[..|code| - 1];
      ClearOpStack();
      code := code[|code| - 2 := if op.Not? then OP_NOT_LOCAL else OP_NEGATE_LOCAL];
      ClearOpStack();
    }

    /** An operator, checked for a rewrite of the last instructions. */
    method EmitChecked(i: Instr) returns (ok: bool, ghost load: Instr)
      requires CodeInv() && (i.Bin? || i.Un?)
      requires InPool(constants, LastOf(tail, 1)) && InPool(constants, LastOf(tail, 0))
      modifies this`code, this`opStack, this`tail, this`constants, this`pool
      ensures RewriteOf(A, old(constants), old(LastOf(tail, 1)), old(LastOf(tail, 0)), i).Reject? ==> !ok
      ensures !ok ==> Refused(RewriteOf(A, old(constants), old(LastOf(tail, 1)), old(LastOf(tail, 0)), i), |constants|)
      ensures ok ==> CodeInv() && old(constants) <= constants
      ensures ok ==> Rewritten(RewriteOf(A, old(constants), old(LastOf(tail, 1)), old(LastOf(tail, 0)), i), load,
                               old(code) + Encode(i), old(tail) + [i], old(constants), code, tail, constants)
    {
      hide Described, PoolInv, Encode, Rewritten, RewriteOf;
      Emit(i);
      assert LastOf(tail, 2) == old(LastOf(tail, 1)) && LastOf(tail, 1) == old(LastOf(tail, 0));
      match i
      case Bin(op) => ok, load := OptimizeBinary(op);
      case Un(op) => ok, load := OptimizeUnary(op);
    }

    // ---- Dropping values ----

    /** A pop merges with the store to a local before it, and with the load before that. */
    method EmitPop()
      requires CodeInv()
      modifies this`code, this`opStack, this`tail
      ensures CodeInv() && tail == [] && Popped(old(code), old(tail), code)
    {
      hide Described, PoolInv, EndsWith, At, EncodeAll, SizeAll, Encode, Popped, Opcode;
      Emit(Pop);
      var prevRight, prevLeft := Peek(1), Peek(2);
      PeekTells(code, opStack, constants, tail, 1);
      PeekTells(code, opStack, constants, tail, 2);
      assert LastOf(tail, 2) == old(LastOf(tail, 1)) && LastOf(tail, 1) == old(LastOf(tail, 0));
      ghost var left, right := LastOf(tail, 2), LastOf(tail, 1);
      if right.Some? { OpcodeTells(right.value); }
      if left.Some? { OpcodeTells(left.value); }
      if prevRight == OP_SET_LOCAL {
        DescribedEnds(code, opStack, constants, tail);
        StoreBytes(old(code), old(tail), code, tail);
        if prevLeft == OP_GET_LOCAL {
          var rightIndex := code[|code| - 2];
          code := code[..|code| - 3];
          code := code[|code| - 2 := OP_MOVE_LOCAL];
          code := code + [rightIndex];
        } else {
          code := code[..|code| - 1];
          code := code[|code| - 2 := OP_SET_LOCAL_POP];
        }
      } else {
        PoppedPlain(old(code), old(tail));
      }
      ClearOpStack();
    }

    // ---- Names ----

    ghost function Names(): seq<Text>
      reads this`locals
    {
      InitializedNames(locals)
    }

    ghost predicate LocalsInv()
      reads this`locals, this`scopeDepth
    {
      LocalsValid(locals, scopeDepth)
    }

    /** The slot of a local, or -1 for a global. */
    method ResolveLocal(name: Text) returns (ok: bool, arg: int)
      requires LocalsInv()
      ensures ok ==> arg == Innermost(Names(), name) && arg < |Names()|
      ensures !ok <==> Uninitialized(locals, name)
      ensures ok && arg >= 0 ==> arg < |locals| && locals[arg].name == name
    {
      var i := |locals| - 1;
      while i >= 0
        invariant -1 <= i < |locals|
        invariant forall j :: i < j < |locals| ==> locals[j].name != name
      {
        if locals[i].name == name {
          if locals[i].depth == -1 { return false, i; }
          InnermostIs(Names(), name, i);
          return true, i;
        }
        i := i - 1;
      }
      InnermostIs(Names(), name, -1);
      return true, -1;
    }

    // ---- Jumps ----

    /** A jump whose operand will be patched, at the position returned. */
    method EmitJump(op: byte) returns (hole: nat)
      requires CodeInv()
      modifies this`code, this`opStack, this`tail
      ensures CodeInv() && tail == [] && code == old(code) + [op, 0xFF, 0xFF] && hole == |old(code)| + 1
    {
      code := code + [op, 0xFF, 0xFF];
      ClearOpStack();
      hole := |code| - 2;
    }

    /** Makes the jump with its operand at `hole` lead to the end of the code. */
    method PatchJump(hole: nat) returns (ok: bool)
      requires CodeInv() && hole + 2 + SizeAll(tail) <= |code|
      modifies this`code
      ensures |code| == |old(code)| && (ok <==> |old(code)| - hole - 2 <= UINT16_MAX)
      ensures ok ==> CodeInv() && code == Patch(old(code), hole, |old(code)| - hole - 2)
    {
      hide Described, Patch, SizeAll;
      var jump := |code| - hole - 2;
      if jump > UINT16_MAX { return false; }
      DescribedPatch(code, opStack, constants, tail, hole, jump);
      code := Patch(code, hole, jump);
      ok := true;
    }

    /** The conditional jump behind a condition whose code starts at condStart: decided at compile time, fused with a
        comparison of a local, or plain.  -1 when it is never taken. */
    method EmitBranchJump(condStart: nat, ghost base: seq<byte>, ghost L: seq<Instr>) returns (hole: int)
      requires CodeInv() && AllWellFormed(L) && L != [] && code == base + EncodeAll(L) && condStart == |base|
      modifies this`code, this`opStack, this`tail
      ensures CodeInv() && tail == [] && code == BranchCode(base, L)
      ensures hole == (if BranchOf(L).Never? then -1 else |code| - 2)
    {
      hide Described, PoolInv, EncodeAll, BranchOf, BranchHead, Opcode, ComparisonOf, BranchInstr;
      var regionSize := |code| - condStart;
      DetectConstant(L);
      DetectLocals(L);
      DetectConst(L);
      ghost var s := EncodeAll(L);
      ghost var f := BranchOf(L);
      if !f.Never? { BranchFormed(L); HeadBytes(f); }
      assert code[..condStart] == base && code[condStart..] == s;
      assert forall j :: 0 <= j < |s| ==> code[condStart + j] == s[j];
      var cond := code[condStart];
      if (regionSize == 1 && LiteralCode(cond)) || (regionSize == 3 && cond == OP_CONSTANT) {
        code := code[..condStart];
        ClearOpStack();
        if cond == OP_TRUE || cond == OP_CONSTANT { return -1; }
        hole := EmitJump(OP_JUMP);
        assert base + [OP_JUMP, 0xFF, 0xFF] == base + [] + [OP_JUMP] + [0xFF, 0xFF];
        return;
      }
      var fused := [];
      if regionSize == 4 && cond == OP_GET_LOCAL {
        var cmp := ComparisonOf(code[condStart + 2], 63);
        if cmp.Some? {
          var a, b := code[condStart + 1], code[condStart + 3];
          if cmp.value.Gt? || cmp.value.Ge? {
            fused := [JifLocalCode(Mirror(cmp.value)), b, a];
          } else {
            fused := [JifLocalCode(cmp.value), a, b];
          }
        }
      } else if regionSize == 5 && cond == OP_GET_LOCAL {
        var cmp := ComparisonOf(code[condStart + 2], 52);
        if cmp.Some? {
          fused := [JifConstCode(cmp.value), code[condStart + 1], code[condStart + 3], code[condStart + 4]];
        }
      } else if regionSize == 5 && cond == OP_CONSTANT {
        var cmp := ComparisonOf(code[condStart + 3], 63);
        if cmp.Some? {
          fused := [JifConstCode(Mirror(cmp.value)), code[condStart + 4], code[condStart + 1], code[condStart + 2]];
        }
      }
      if fused != [] {
        assert (f.FusedLocals? || f.FusedConst?) && fused == BranchHead(f);
        code := code[..condStart] + fused + [0xFF, 0xFF];
        ClearOpStack();
        hole := |code| - 2;
        assert base + [] + fused == base + fused;
      } else {
        assert f.Plain?;
        hole := EmitJump(OP_JUMP_IF_FALSE_POP);
        assert code == base + s + [OP_JUMP_IF_FALSE_POP] + [0xFF, 0xFF];
      }
    }

    // ---- Expressions ----

    ghost function Now(): Chunk
      reads this`code, this`tail, this`constants
    {
      Chunk(code, tail, constants)
    }

    method Expression(e: Expr) returns (ok: bool, ghost L: seq<Instr>)
      requires CodeInv() && LocalsInv()
      modifies this`code, this`opStack, this`tail, this`constants, this`pool
      ensures ok ==> CodeInv() && ExprDone(A, old(Now()), Now(), L, e, Names())
      ensures if ok then !Blocked(e, locals) else MayRefuse(A, e, locals, |constants|, |code|)
      decreases e, 1
    {
      hide Described, PoolInv, ExprDone, LocalsValid, InitializedNames;
      match e
      case NilLit => ok, L := Literal(e, Nil);
      case BoolLit(b) => ok, L := Literal(e, Bool(b));
      case NumberLit(n) => ok, L := Literal(e, Number(n));
      case StringLit(s) => ok, L := Literal(e, Str(s));
      case Variable(name) => ok, L := ReadVariable(name);
      case Assign(_, _) => ok, L := Assignment(e);
      case Unary(_, _) => ok, L := UnaryOperation(e);
      case Binary(_, _, _) => ok, L := BinaryOperation(e);
      case And(_, _) => ok, L := ShortCircuitOperation(e);
      case Or(_, _) => ok, L := ShortCircuitOperation(e);
    }

    method Literal(e: Expr, v: Value) returns (ok: bool, ghost L: seq<Instr>)
      requires CodeInv() && LocalsInv() && IsConstExpr(e) && v == LiteralValue(e)
      modifies this`code, this`opStack, this`tail, this`constants, this`pool
      ensures ok ==> CodeInv() && ExprDone(A, old(Now()), Now(), L, e, Names())
      ensures !ok ==> |constants| > UINT16_MAX
    {
      hide Described, PoolInv, ExprDone, LocalsValid, InitializedNames, Encode, LoadedBy;
      ghost var load;
      ok, load := EmitLoad(v);
      L := [load];
      if ok {
        PoolIsValid();
        LoadEmits(A, constants, load, e, Names());
        LoadDone(A, old(Now()), Now(), load, e, Names());
      }
    }

    method ReadVariable(name: Text) returns (ok: bool, ghost L: seq<Instr>)
      requires CodeInv() && LocalsInv()
      modifies this`code, this`opStack, this`tail, this`constants, this`pool
      ensures ok ==> CodeInv() && ExprDone(A, old(Now()), Now(), L, Variable(name), Names())
      ensures if ok then !Uninitialized(locals, name) else Uninitialized(locals, name) || |constants| > UINT16_MAX
    {
      hide Described, PoolInv, ExprDone, LocalsValid, InitializedNames, Encode;
      L := [];
      var arg;
      ok, arg := ResolveLocal(name);
      if !ok { return; }
      ghost var i: Instr;
      NamesFit(locals, scopeDepth);
      if arg != -1 {
        i := GetLocal(arg);
        Emit(GetLocal(arg));
      } else {
        var k := MakeConstant(Str(name));
        if k > UINT16_MAX { return false, L; }
        i := GetGlobal(k);
        EmitLast(GetGlobal(k));
      }
      L := [i];
      VariableEmits(A, constants, i, name, Names());
      LoadDone(A, old(Now()), Now(), i, Variable(name), Names());
    }

    method Assignment(e: Expr) returns (ok: bool, ghost L: seq<Instr>)
      requires CodeInv() && LocalsInv() && e.Assign?
      modifies this`code, this`opStack, this`tail, this`constants, this`pool
      ensures ok ==> CodeInv() && ExprDone(A, old(Now()), Now(), L, e, Names())
      ensures if ok then !Blocked(e, locals) else MayRefuse(A, e, locals, |constants|, |code|)
      decreases e, 0
    {
      hide Described, PoolInv, ExprDone, LocalsValid, InitializedNames;
      L := [];
      var arg;
      ok, arg := ResolveLocal(e.name);
      if !ok { return; }
      if arg != -1 { ok, L := AssignLocal(e, arg); } else { ok, L := AssignGlobal(e); }
    }

    method AssignLocal(e: Expr, arg: nat) returns (ok: bool, ghost L: seq<Instr>)
      requires CodeInv() && LocalsInv() && e.Assign? && arg == Innermost(Names(), e.name) && arg < |Names()|
      requires arg < |locals| && locals[arg].name == e.name && !Uninitialized(locals, e.name)
      modifies this`code, this`opStack, this`tail, this`constants, this`pool
      ensures ok ==> CodeInv() && ExprDone(A, old(Now()), Now(), L, e, Names())
      ensures if ok then !Blocked(e, locals) else MayRefuse(A, e, locals, |constants|, |code|)
      decreases e.value, 2
    {
      hide Described, PoolInv, ExprDone, LocalsValid, InitializedNames, Encode, MayRefuse;
      NamesFit(locals, scopeDepth);
      ok, L := Expression(e.value);
      if !ok {
        PartRefused(A, e.value, e, locals, |constants|, |code|);
        return;
      }
      if locals[arg].isConst {
        ConstantAssigned(A, e, locals, |constants|, |code|);
        return false, L;
      }
      ghost var mid := Now();
      Emit(SetLocal(arg));
      AssignDone(A, old(Now()), mid, Now(), L, e.value, e.name, SetLocal(arg), Names());
      L := L + [SetLocal(arg)];
    }

    method AssignGlobal(e: Expr) returns (ok: bool, ghost L: seq<Instr>)
      requires CodeInv() && LocalsInv() && e.Assign? && Innermost(Names(), e.name) == -1 && !Uninitialized(locals, e.name)
      modifies this`code, this`opStack, this`tail, this`constants, this`pool
      ensures ok ==> CodeInv() && ExprDone(A, old(Now()), Now(), L, e, Names())
      ensures if ok then !Blocked(e, locals) else MayRefuse(A, e, locals, |constants|, |code|)
      decreases e.value, 2
    {
      hide Described, PoolInv, ExprDone, LocalsValid, InitializedNames, Encode, MayRefuse;
      var k := MakeConstant(Str(e.name));
      ghost var start := Now();
      ok, L := Expression(e.value);
      if !ok {
        PartRefused(A, e.value, e, locals, |constants|, |code|);
        return;
      }
      ghost var mid := Now();
      ExprDoneFrom(A, old(Now()), start, mid, L, e.value, Names());
      if k > UINT16_MAX {
        TooLarge(A, e, locals, |constants|, |code|);
        return false, L;
      }
      EmitLast(SetGlobal(k));
      AssignDone(A, old(Now()), mid, Now(), L, e.value, e.name, SetGlobal(k), Names());
      L := L + [SetGlobal(k)];
    }

    method UnaryOperation(e: Expr) returns (ok: bool, ghost L: seq<Instr>)
      requires CodeInv() && LocalsInv() && e.Unary?
      modifies this`code, this`opStack, this`tail, this`constants, this`pool
      ensures ok ==> CodeInv() && ExprDone(A, old(Now()), Now(), L, e, Names())
      ensures if ok then !Blocked(e, locals) else MayRefuse(A, e, locals, |constants|, |code|)
      decreases e, 0
    {
      hide Described, PoolInv, ExprDone, LocalsValid, InitializedNames, Encode, Rewritten, RewriteOf, MayRefuse;
      ok, L := Expression(e.operand);
      if !ok {
        PartRefused(A, e.operand, e, locals, |constants|, |code|);
        return;
      }
      ghost var mid := Now();
      PeekTells(code, opStack, constants, tail, 0);
      PeekTells(code, opStack, constants, tail, 1);
      ghost var load;
      ok, load := EmitChecked(Un(e.uop));
      if !ok {
        if RewriteOf(A, mid.consts, LastOf(mid.tail, 1), LastOf(mid.tail, 0), Un(e.uop)).Reject? {
          UnaryRefused(A, old(Now()), mid, L, e.operand, e.uop, Names());
        }
        OperationRefused(A, e, locals, |constants|, |code|);
      }
      if ok {
        PoolIsValid();
        L := UnaryDone(A, old(Now()), mid, Now(), L, e.operand, e.uop, Names(), load);
      }
    }

    method BinaryOperation(e: Expr) returns (ok: bool, ghost L: seq<Instr>)
      requires CodeInv() && LocalsInv() && e.Binary?
      modifies this`code, this`opStack, this`tail, this`constants, this`pool
      ensures ok ==> CodeInv() && ExprDone(A, old(Now()), Now(), L, e, Names())
      ensures if ok then !Blocked(e, locals) else MayRefuse(A, e, locals, |constants|, |code|)
      decreases e, 0
    {
      hide Described, PoolInv, ExprDone, LocalsValid, InitializedNames, Encode, Rewritten, RewriteOf, MayRefuse;
      ok, L := Expression(e.left);
      if !ok {
        PartRefused(A, e.left, e, locals, |constants|, |code|);
        return;
      }
      ghost var atLeft := Now();
      ghost var K;
      ok, K := Expression(e.right);
      if !ok {
        PartRefused(A, e.right, e, locals, |constants|, |code|);
        return;
      }
      ghost var atRight := Now();
      PoolIsValid();
      PeekTells(code, opStack, constants, tail, 0);
      PeekTells(code, opStack, constants, tail, 1);
      ghost var load;
      ok, load := EmitChecked(Bin(e.op));
      if !ok {
        if RewriteOf(A, atRight.consts, LastOf(atRight.tail, 1), LastOf(atRight.tail, 0), Bin(e.op)).Reject? {
          BinaryRefused(A, old(Now()), atLeft, atRight, L, K, e.left, e.right, e.op, Names());
        }
        OperationRefused(A, e, locals, |constants|, |code|);
      }
      if ok {
        PoolIsValid();
        L := BinaryDone(A, old(Now()), atLeft, atRight, Now(), L, K, e.left, e.right, e.op, Names(), load);
      }
    }

    /** `and` and `or` leave the op stack as the right operand left it, across the patched jump. */
    method ShortCircuitOperation(e: Expr) returns (ok: bool, ghost L: seq<Instr>)
      requires CodeInv() && LocalsInv() && (e.And? || e.Or?)
      modifies this`code, this`opStack, this`tail, this`constants, this`pool
      ensures ok ==> CodeInv() && ExprDone(A, old(Now()), Now(), L, e, Names())
      ensures if ok then !Blocked(e, locals) else MayRefuse(A, e, locals, |constants|, |code|)
      decreases e, 0
    {
      hide Described, PoolInv, ExprDone, LocalsValid, InitializedNames, Encode, Patch, SizeAll, EncodeAll, MayRefuse,
           Popped,
           ExitJump, Blocked;
      ok, L := Expression(e.left);
      if !ok {
        PartRefused(A, e.left, e, locals, |constants|, |code|);
        return;
      }
      ghost var atLeft := Now();
      var endJump := EmitJump(if e.And? then OP_JUMP_IF_FALSE else OP_JUMP_IF_TRUE);
      EmitPop();
      ghost var atPop := Now();
      ExitPlaceholder(e.And?);
      PopClear(code);
      ghost var K;
      ok, K := Expression(e.right);
      if !ok {
        PartRefused(A, e.right, e, locals, |constants|, |code|);
        return;
      }
      ghost var atRight := Now();
      AfterRight(A, atPop, atRight, K, e.right, Names());
      assert |code| == endJump + 3 + SizeAll(K);
      ok := PatchJump(endJump);
      if !ok { TooLarge(A, e, locals, |constants|, |code|); }
      if ok {
        var off := |code| - endJump - 2;
        ShortCircuitDone(A, old(Now()), atLeft, atPop, atRight, L, K, e.left, e.right, e.And?, Names(), off);
        L := L + ([ExitJump(e.And?, off)] + ([Pop] + K));
        JoinFree(e, locals);
      }
    }

    // ---- Scopes ----

    ghost function Here(): Context
      reads this
    {
      Context(Now(), locals, scopeDepth, currentLoop)
    }

    ghost predicate Inv()
      reads this
    {
      CodeInv() && Sound(Here())
    }

    method EmitPopCount(popCount: nat) returns (ghost T: seq<Instr>, ghost K: seq<Instr>)
      requires CodeInv() && popCount <= UINT16_MAX
      modifies this`code, this`opStack, this`tail
      ensures CodeInv() && Dropped(A, old(Now()), Now(), popCount, T, K)
      ensures popCount == 1 ==> tail == [] && Popped(old(code), old(tail), code)
    {
      hide Described, PoolInv, Encode, EncodeAll, Pops, Popped, SizeAll;
      T, K := [], [];
      NoSize();
      assert code[..|code|] == code;
      if popCount == 0 {
        PopsNone(A, constants, []);
        assert EncodeAll([]) == [] by { NoCode(); }
        return;
      }
      if popCount > 1 {
        EmitLast(PopN(popCount));
        PopsPlain(A, constants, [], popCount);
        K := [PopN(popCount)];
        assert [] + K == K;
        EncodeOne(PopN(popCount));
      } else {
        DescribedEnds(code, opStack, constants, tail);
        EmitPop();
        T, K := PopResult(A, constants, old(code), old(tail), code);
      }
    }

    /** Drops the locals declared since the loop was entered, without forgetting them: the code behind a break still
        knows their names. */
    method CloseLoopLocals(target: nat) returns (ghost T: seq<Instr>, ghost K: seq<Instr>)
      requires CodeInv() && target <= |locals| <= LOCAL_MAX
      modifies this`code, this`opStack, this`tail
      ensures CodeInv() && Dropped(A, old(Now()), Now(), |locals| - target, T, K)
    {
      hide Described, PoolInv, Dropped, Popped;
      var popCount := 0;
      var i := |locals| - 1;
      while i >= target
        invariant target - 1 <= i && popCount == |locals| - 1 - i
      {
        popCount := popCount + 1;
        i := i - 1;
      }
      T, K := EmitPopCount(popCount);
    }

    method BeginScope()
      modifies this`scopeDepth
      ensures scopeDepth == old(scopeDepth) + 1
    {
      scopeDepth := scopeDepth + 1;
    }

    /** Leaves a scope: the locals declared in it, all but the first `keep`, are dropped and forgotten. */
    method EndScope(ghost keep: nat) returns (ghost T: seq<Instr>, ghost K: seq<Instr>)
      requires CodeInv() && scopeDepth > 0 && keep <= |locals| <= LOCAL_MAX
      requires forall i :: 0 <= i < keep ==> locals[i].depth < scopeDepth
      requires forall i :: keep <= i < |locals| ==> locals[i].depth == scopeDepth
      modifies this`code, this`opStack, this`tail, this`locals, this`scopeDepth
      ensures CodeInv() && Dropped(A, old(Now()), Now(), |old(locals)| - keep, T, K)
      ensures scopeDepth == old(scopeDepth) - 1 && locals == old(locals)[..keep]
    {
      hide Described, PoolInv, Dropped, Popped;
      scopeDepth := scopeDepth - 1;
      var popCount := 0;
      while |locals| > 0 && locals[|locals| - 1].depth > scopeDepth
        invariant keep <= |locals| <= |old(locals)| && locals == old(locals)[..|locals|]
        invariant popCount == |old(locals)| - |locals|
        modifies this`locals
      {
        popCount := popCount + 1;
        locals := locals[..|locals| - 1];
      }
      T, K := EmitPopCount(popCount);
    }

    /** Jumps back to `start`. */
    method EmitLoop(start: nat) returns (ok: bool)
      requires CodeInv() && start <= |code|
      modifies this`code, this`opStack, this`tail
      ensures ok ==> CodeInv() && Jumped(old(Now()), Now()) && JumpAt(code, |old(code)|, start)
      ensures !ok ==> |code| + 3 > UINT16_MAX
    {
      hide Described, PoolInv;
      var offset := |code| + 3 - start;
      if offset > UINT16_MAX { return false; }
      LoopJump(code, start);
      code := code + [OP_LOOP, offset % 0x100, offset / 0x100];
      ClearOpStack();
      ok := true;
    }

    /** The exit of a loop or of a then branch, unless its condition is always true. */
    method PatchExit(hole: int) returns (ok: bool)
      requires CodeInv() && tail == [] && (hole >= 0 ==> hole + 2 <= |code|)
      modifies this`code
      ensures |code| == |old(code)|
      ensures if ok then CodeInv() && PatchedTo(old(code), code, HoleOf(hole), |old(code)|) else |code| > UINT16_MAX
    {
      hide Described, PoolInv, PatchedTo, Patch;
      NoSize();
      if hole >= 0 {
        ok := PatchJump(hole);
        if ok { PatchOne(old(code), hole, |old(code)|); }
      } else {
        ok := true;
        PatchNone(code, |code|);
      }
    }

    /** Makes all the jumps lead to target, the last first. */
    method PatchAll(holes: seq<nat>, target: nat) returns (ok: bool)
      requires CodeInv() && Apart(holes) && target <= |code|
      requires forall h :: h in holes ==> h + 2 <= target && h + 2 + SizeAll(tail) <= |code|
      modifies this`code
      ensures |code| == |old(code)|
      ensures if ok then CodeInv() && PatchedTo(old(code), code, holes, target) else |code| > UINT16_MAX
    {
      hide Described, PoolInv, PatchedTo, Patch, SizeAll, Apart;
      var i := |holes|;
      assert holes[|holes|..] == [];
      PatchNone(code, target);
      while i > 0
        invariant 0 <= i <= |holes| && |code| == |old(code)|
        invariant CodeInv() && PatchedTo(old(code), code, holes[i..], target)
      {
        i := i - 1;
        var hole := holes[i];
        assert hole in holes;
        if target - hole - 2 > UINT16_MAX { return false; }
        DescribedPatch(code, opStack, constants, tail, hole, target - hole - 2);
        PatchOne(code, hole, target);
        PatchNext(old(code), code, Patch(code, hole, target - hole - 2), holes, i, target);
        code := Patch(code, hole, target - hole - 2);
      }
      assert holes[0..] == holes;
      ok := true;
    }

    // ---- Declarations ----

    lemma PoolIsValid()
      requires CodeInv()
      ensures PoolValid(constants)
    {
    }

    method DeclareVariable(name: Text) returns (ok: bool)
      requires LocalsInv() && Ready(locals)
      modifies this`locals
      ensures ok <==> !Redeclared(old(locals), scopeDepth, name) && |old(locals)| < LOCAL_MAX
      ensures ok ==> locals == old(locals) + [Local(name, -1, false)]
    {
      var i := |locals| - 1;
      while i >= 0 && (locals[i].depth == -1 || locals[i].depth >= scopeDepth)
        invariant -1 <= i < |locals|
        invariant forall j :: i < j < |locals| ==> locals[j].name != name
      {
        if locals[i].name == name { return false; }
        i := i - 1;
      }
      ok := AddLocal(name);
    }

    method AddLocal(name: Text) returns (ok: bool)
      requires |locals| <= LOCAL_MAX
      modifies this`locals
      ensures ok <==> |old(locals)| < LOCAL_MAX
      ensures ok ==> locals == old(locals) + [Local(name, -1, false)]
    {
      if |locals| == LOCAL_MAX { return false; }
      locals := locals + [Local(name, -1, false)];
      ok := true;
    }

    method MarkInitialized(isConst: bool)
      requires |locals| > 0
      modifies this`locals
      ensures locals == old(locals)[..|old(locals)| - 1] +
                        [Local(old(locals)[|old(locals)| - 1].name, scopeDepth, isConst)]
    {
      var last := locals[|locals| - 1];
      locals := locals[..|locals| - 1] + [last.(depth := scopeDepth, isConst := isConst)];
    }

    /** The initializer; a variable without one starts as nil, a constant needs one. */
    method Initializer(init: Option<Expr>, isConst: bool) returns (ok: bool, ghost L: seq<Instr>)
      requires CodeInv() && LocalsInv()
      modifies this`code, this`opStack, this`tail, this`constants, this`pool
      ensures ok ==> CodeInv() && ExprDone(A, old(Now()), Now(), L, InitOf(init), Names())
      ensures if ok then !InitBlocked(init, isConst, locals)
              else InitBlocked(init, isConst, locals) || SomeUnfoldable(A, init) || TooMuch(Here())
    {
      hide Described, PoolInv, ExprDone, LocalsValid, InitializedNames, Encode;
      L := [];
      match init
      case Some(e) => ok, L := Expression(e);
      case None =>
        if isConst { return false, L; }
        EmitLast(LoadNil);
        L := [LoadNil];
        PoolIsValid();
        LoadEmits(A, constants, LoadNil, NilLit, Names());
        LoadDone(A, old(Now()), Now(), LoadNil, NilLit, Names());
        ok := true;
    }

    method LocalVariable(d: Decl) returns (ok: bool)
      requires Inv() && d.Var? && scopeDepth > 0
      modifies this
      ensures ok ==> Inv() && Achieved(A, old(Here()), Here(), OfDecl(d, false), [], NO_HOLES)
      ensures if ok then !ItemBlocked(OfDecl(d, false), old(Here()))
              else Stopped(A, OfDecl(d, false), old(Here()), Here())
    {
      hide Described, PoolInv, ExprDone, InitializedNames, Built, Achieved, LocalsValid, Ready, EndsWith;
      DescribedEnds(code, opStack, constants, tail);
      ghost var x0 := Here();
      FrameFits(x0);
      ok := DeclareVariable(d.name);
      if !ok { return; }
      LocalsAdded(x0.locals, scopeDepth, d.name, d.isConst);
      NamesAdded(x0.locals, d.name, scopeDepth, d.isConst);
      ghost var L;
      ok, L := Initializer(d.init, d.isConst);
      if !ok { return; }
      MarkInitialized(d.isConst);
      assert locals == x0.locals + [Local(d.name, scopeDepth, d.isConst)];
      LocalBuilt(A, x0.chunk, Now(), L, d, InitializedNames(x0.locals), FrameOf(x0.loop));
      LocalAchieved(A, x0, Here(), d);
      SoundAfter(A, x0, Here(), OfDecl(d, false), [], NO_HOLES);
    }

    method GlobalVariable(d: Decl) returns (ok: bool)
      requires Inv() && d.Var? && scopeDepth == 0
      modifies this
      ensures ok ==> Inv() && Achieved(A, old(Here()), Here(), OfDecl(d, true), [], NO_HOLES)
      ensures if ok then !ItemBlocked(OfDecl(d, true), old(Here()))
              else Stopped(A, OfDecl(d, true), old(Here()), Here())
    {
      hide Described, PoolInv, ExprDone, InitializedNames, Built, Achieved, LocalsValid, Ready, EndsWith, Encode,
           Settled;
      DescribedEnds(code, opStack, constants, tail);
      ghost var x0 := Here();
      FrameFits(x0);
      var global := MakeConstant(Str(d.name));
      ghost var start := Now();
      ghost var L;
      ok, L := Initializer(d.init, d.isConst);
      if !ok { return; }
      ghost var cE := Now();
      ExprDoneFrom(A, x0.chunk, start, cE, L, InitOf(d.init), Names());
      if d.isConst || global > UINT16_MAX { return false; }
      EmitLast(DefineGlobal(global));
      GlobalBuilt(A, x0.chunk, cE, Now(), L, d, global, InitializedNames(x0.locals), FrameOf(x0.loop));
      GlobalAchieved(A, x0, Here(), d);
      SoundAfter(A, x0, Here(), OfDecl(d, true), [], NO_HOLES);
    }

    // ---- Statements ----

    method Declarations(ds: Decls) returns (ok: bool, ghost tin: seq<Instr>, ghost holes: Holes)
      requires Inv()
      modifies this
      ensures ok ==> Inv() && Achieved(A, old(Here()), Here(), OfDecls(ds, old(scopeDepth) == 0), tin, holes)
      ensures if ok then !ItemBlocked(OfDecls(ds, old(scopeDepth) == 0), old(Here()))
              else Stopped(A, OfDecls(ds, old(scopeDepth) == 0), old(Here()), Here())
      decreases ds, 1
    {
      hide ItemBlocked, ItemUnfoldable, TooMuch, Described, PoolInv, Achieved, Sound, EndsWith, Skipped;
      tin, holes := [], NO_HOLES;
      ghost var top := scopeDepth == 0;
      ghost var x0 := Here();
      DescribedEnds(code, opStack, constants, tail);
      match ds
      case Done =>
        DoneAchieved(A, x0, top);
        DoneFree(x0, top);
        ok := true;
      case More(d, rest) =>
        ghost var h, k;
        ok, tin, h := Declaration(d);
        if !ok {
          DeclStopped(A, x0, Here(), d, rest, top);
          return;
        }
        ghost var x1 := Here();
        MoreRules(A, x0, x1, d, rest, tin, h);
        AchievedDepth(A, x0, x1, OfDecl(d, top), tin, h);
        DescribedEnds(code, opStack, constants, tail);
        ghost var tmid;
        ok, tmid, k := Declarations(rest);
        if !ok {
          RestStopped(A, x0, x1, Here(), d, rest, top);
          return;
        }
        DescribedEnds(code, opStack, constants, tail);
        MoreAchieved(A, x0, x1, Here(), d, rest, top, tin, tmid, h, k);
        tin := if Skipped(x0.chunk, x1.chunk, tin, OfDecl(d, top), h) then tmid else tin;
        holes := h.Append(k);
    }

    method Declaration(d: Decl) returns (ok: bool, ghost tin: seq<Instr>, ghost holes: Holes)
      requires Inv()
      modifies this
      ensures ok ==> Inv() && Achieved(A, old(Here()), Here(), OfDecl(d, old(scopeDepth) == 0), tin, holes)
      ensures if ok then !ItemBlocked(OfDecl(d, old(scopeDepth) == 0), old(Here()))
              else Stopped(A, OfDecl(d, old(scopeDepth) == 0), old(Here()), Here())
      decreases d, 2
    {
      hide Described, PoolInv, Achieved, Sound;
      tin, holes := [], NO_HOLES;
      match d
      case Var(_, _, _) => if scopeDepth > 0 { ok := LocalVariable(d); } else { ok := GlobalVariable(d); }
      case Statement(s) =>
        ghost var x0 := Here();
        ok, tin, holes := Statement(s);
        if ok { StatementAchieved(A, x0, Here(), s, x0.depth == 0, tin, holes); }
    }

    method Statement(s: Stmt) returns (ok: bool, ghost tin: seq<Instr>, ghost holes: Holes)
      requires Inv()
      modifies this
      ensures ok ==> Inv() && Achieved(A, old(Here()), Here(), OfStmt(s), tin, holes)
      ensures if ok then !ItemBlocked(OfStmt(s), old(Here())) else Stopped(A, OfStmt(s), old(Here()), Here())
      decreases s, 1
    {
      hide Described, PoolInv, Achieved, Sound;
      tin, holes := [], NO_HOLES;
      match s
      case ExprStmt(e) => ok := ExpressionStatement(e);
      case Print(e) => ok := PrintStatement(e);
      case Block(_) => ok, tin, holes := BlockStatement(s);
      case If(_, _, _) => ok, holes := IfStatement(s);
      case While(_, _) => ok := WhileStatement(s);
      case DoWhile(_, _) => ok := DoWhileStatement(s);
      case For(_, _, _, _) => ok, tin, holes := ForStatement(s);
      case Break => ok, tin, holes := BreakStatement();
      case Continue => ok, tin, holes := ContinueStatement();
    }

    method ExpressionStatement(e: Expr) returns (ok: bool)
      requires Inv()
      modifies this
      ensures ok ==> Inv() && Achieved(A, old(Here()), Here(), OfStmt(ExprStmt(e)), [], NO_HOLES)
      ensures if ok then !ItemBlocked(OfStmt(ExprStmt(e)), old(Here()))
              else Stopped(A, OfStmt(ExprStmt(e)), old(Here()), Here())
    {
      hide MayRefuse, Blocked, Unfoldable, TooMuch, Described, PoolInv, ExprDone, InitializedNames, Built, Achieved,
           LocalsValid, Ready, EndsWith, Popped, Dropped, Settled;
      DescribedEnds(code, opStack, constants, tail);
      ghost var x0 := Here();
      FrameFits(x0);
      ghost var L;
      ok, L := Expression(e);
      if !ok {
        ExprStopped(A, ExprStmt(e), e, x0, Here());
        return;
      }
      ghost var cE := Now();
      ghost var T, K := EmitPopCount(1);
      ExprStmtBuilt(A, x0.chunk, cE, Now(), L, e, InitializedNames(x0.locals), FrameOf(x0.loop));
      PlainAchieved(A, x0, Here(), ExprStmt(e));
      SoundAfter(A, x0, Here(), OfStmt(ExprStmt(e)), [], NO_HOLES);
    }

    method PrintStatement(e: Expr) returns (ok: bool)
      requires Inv()
      modifies this
      ensures ok ==> Inv() && Achieved(A, old(Here()), Here(), OfStmt(Print(e)), [], NO_HOLES)
      ensures if ok then !ItemBlocked(OfStmt(Print(e)), old(Here()))
              else Stopped(A, OfStmt(Print(e)), old(Here()), Here())
    {
      hide MayRefuse, Blocked, Unfoldable, TooMuch, Described, PoolInv, ExprDone, InitializedNames, Built, Achieved,
           LocalsValid, Ready, EndsWith, Encode, Settled;
      DescribedEnds(code, opStack, constants, tail);
      ghost var x0 := Here();
      FrameFits(x0);
      ghost var L;
      ok, L := Expression(e);
      if !ok {
        ExprStopped(A, Print(e), e, x0, Here());
        return;
      }
      ghost var cE := Now();
      EmitLast(PrintTop);
      PrintBuilt(A, x0.chunk, cE, Now(), L, e, InitializedNames(x0.locals), FrameOf(x0.loop));
      PlainAchieved(A, x0, Here(), Print(e));
      SoundAfter(A, x0, Here(), OfStmt(Print(e)), [], NO_HOLES);
    }

    method BlockStatement(s: Stmt) returns (ok: bool, ghost tin: seq<Instr>, ghost holes: Holes)
      requires Inv() && s.Block?
      modifies this
      ensures ok ==> Inv() && Achieved(A, old(Here()), Here(), OfStmt(s), tin, holes)
      ensures if ok then !ItemBlocked(OfStmt(s), old(Here())) else Stopped(A, OfStmt(s), old(Here()), Here())
      decreases s, 0
    {
      hide DeclsBlocked, DeclsUnfoldable, TooMuch, Described, PoolInv, InitializedNames, Achieved, Sound, EndsWith,
           Dropped;
      DescribedEnds(code, opStack, constants, tail);
      ghost var x0 := Here();
      BeginScope();
      ghost var x1 := Here();
      DeeperSound(x0);
      ok, tin, holes := Declarations(s.ds);
      if !ok { return; }
      ghost var x2 := Here();
      ScopeLocals(A, x0, x1, x2, s.ds, tin, holes);
      DescribedEnds(code, opStack, constants, tail);
      ghost var T, K := EndScope(|x0.locals|);
      BlockAchieved(A, x0, x1, x2, Here(), s.ds, tin, holes, T, K);
      SoundAfter(A, x0, Here(), OfStmt(s), tin, holes);
    }

    method BreakStatement() returns (ok: bool, ghost tin: seq<Instr>, ghost holes: Holes)
      requires Inv()
      modifies this
      ensures ok ==> Inv() && Achieved(A, old(Here()), Here(), OfStmt(Break), tin, holes)
      ensures if ok then !ItemBlocked(OfStmt(Break), old(Here())) else Stopped(A, OfStmt(Break), old(Here()), Here())
    {
      hide Described, PoolInv, InitializedNames, Achieved, LocalsValid, Ready, EndsWith, Dropped, Settled, Built;
      tin, holes := [], NO_HOLES;
      if currentLoop.None? { return false, tin, holes; }
      DescribedEnds(code, opStack, constants, tail);
      ghost var x0 := Here();
      FrameFits(x0);
      SoundSize(x0);
      ghost var K;
      tin, K := CloseLoopLocals(currentLoop.value.enterParamCount);
      ghost var c1 := Now();
      var jump := EmitJump(OP_JUMP);
      if |currentLoop.value.breakJumps| >= JUMPS_MAX { return false, tin, holes; }
      currentLoop := Some(currentLoop.value.(breakJumps := currentLoop.value.breakJumps + [jump]));
      holes := LeaveHoles(true, jump);
      LeaveBuilt(A, x0.chunk, c1, Now(), |locals| - x0.loop.value.enterParamCount, tin, K, true,
                 InitializedNames(x0.locals), FrameOf(x0.loop));
      ok := true;
      GrownByLeave(x0.loop.value, true, jump);
      LeaveAchieved(A, x0, Here(), Break, c1, |locals| - x0.loop.value.enterParamCount, tin, K, holes);
      SoundAfter(A, x0, Here(), OfStmt(Break), tin, holes);
    }

    method ContinueStatement() returns (ok: bool, ghost tin: seq<Instr>, ghost holes: Holes)
      requires Inv()
      modifies this
      ensures ok ==> Inv() && Achieved(A, old(Here()), Here(), OfStmt(Continue), tin, holes)
      ensures if ok then !ItemBlocked(OfStmt(Continue), old(Here()))
              else Stopped(A, OfStmt(Continue), old(Here()), Here())
    {
      hide Described, PoolInv, InitializedNames, Achieved, LocalsValid, Ready, EndsWith, Dropped, Built, SizeAll,
           JumpAt, Pending;
      tin, holes := [], NO_HOLES;
      if currentLoop.None? { return false, tin, holes; }
      DescribedEnds(code, opStack, constants, tail);
      ghost var x0 := Here();
      FrameFits(x0);
      SoundSize(x0);
      ghost var n := |locals| - x0.loop.value.enterParamCount;
      ghost var K;
      tin, K := CloseLoopLocals(currentLoop.value.enterParamCount);
      ghost var c1 := Now();
      StartBefore(A, x0, c1, n, tin, K);
      if currentLoop.value.isDoWhile {
        if |currentLoop.value.continueJumps| >= JUMPS_MAX { return false, tin, holes; }
        var jump := EmitJump(OP_JUMP);
        currentLoop := Some(currentLoop.value.(continueJumps := currentLoop.value.continueJumps + [jump]));
        holes := LeaveHoles(false, jump);
        GrownByLeave(x0.loop.value, false, jump);
        LeaveBuilt(A, x0.chunk, c1, Now(), n, tin, K, false, InitializedNames(x0.locals), FrameOf(x0.loop));
      } else {
        ok := EmitLoop(currentLoop.value.start);
        if !ok { return; }
        GrownNot(x0.loop);
        ContinueBuilt(A, x0.chunk, c1, Now(), n, tin, K, InitializedNames(x0.locals), FrameOf(x0.loop));
      }
      ok := true;
      LeaveAchieved(A, x0, Here(), Continue, c1, n, tin, K, holes);
      SoundAfter(A, x0, Here(), OfStmt(Continue), tin, holes);
    }

    method IfStatement(s: Stmt) returns (ok: bool, ghost holes: Holes)
      requires Inv() && s.If?
      modifies this
      ensures ok ==> Inv() && Achieved(A, old(Here()), Here(), OfStmt(s), [], holes)
      ensures if ok then !ItemBlocked(OfStmt(s), old(Here())) else Stopped(A, OfStmt(s), old(Here()), Here())
      decreases s, 0
    {
      hide TooMuch, FrameOf, ItemBlocked, ItemUnfoldable, Stopped, MayRefuse, Blocked, Described, PoolInv,
           InitializedNames, Achieved,
           EndsWith, Processed, Built, ExprDone, PatchedTo, SizeAll,
           EncodeAll, PoolValid, BranchCode, BranchOf, Patch, LocalsValid, Ready, Settled;
      holes := NO_HOLES;
      DescribedEnds(code, opStack, constants, tail);
      ghost var x0 := Here();
      NoSize();
      var thenJump;
      ghost var cC, L;
      ok, thenJump, cC, L := Condition(s.cond);
      if !ok {
        ExprStopped(A, s, s.cond, x0, Here());
        return;
      }
      ghost var xB := Here();
      ConditionEnd(A, x0, xB, cC, L, s.cond);
      ghost var tinT, tinF, hT, hF;
      ok, tinT, hT := Statement(s.thn);
      if !ok {
        BranchStopped(A, s, s.thn, x0, xB, Here());
        return;
      }
      ghost var xT := Here();
      PartAchieved(A, x0, xB, xT, s.thn, tinT, hT);
      var elseJump := EmitJump(OP_JUMP);
      ghost var cJ := Now();
      ok := PatchExit(thenJump);
      if !ok {
        SizeStopped(A, OfStmt(s), x0, Here());
        return;
      }
      ghost var xP := Here();
      SamePatched(cJ.code, code, HoleOf(thenJump), |cJ.code|);
      AfterThen(A, x0, xB, xT, xP, s.thn, tinT, hT);
      ok, tinF, hF := Statement(s.els);
      if !ok {
        BranchStopped(A, s, s.els, x0, xP, Here());
        return;
      }
      ghost var xF := Here();
      PartAchieved(A, x0, xP, xF, s.els, tinF, hF);
      ok := PatchJump(elseJump);
      if !ok {
        SizeStopped(A, OfStmt(s), x0, Here());
        return;
      }
      PatchOne(xF.chunk.code, elseJump, |xF.chunk.code|);
      holes := hT.Append(hF);
      StaysAlike(A, xB, xT, s.thn, tinT, hT);
      IfFree(s, x0, xB, xP);
      IfAchieved(A, x0, cC, xB, xT, cJ, xP, xF, Here(), L, s.cond, s.thn, s.els, thenJump, tinT, tinF, hT, hF);
      SoundAfter(A, x0, Here(), OfStmt(s), [], holes);
    }

    /** A condition and its jump; -1 if there is none to patch. */
    method Condition(cond: Expr) returns (ok: bool, hole: int, ghost cC: Chunk, ghost L: seq<Instr>)
      requires CodeInv() && LocalsInv()
      modifies this`code, this`opStack, this`tail, this`constants, this`pool
      ensures ok ==> CodeInv() && ExprDone(A, old(Now()), cC, L, cond, Names()) && PoolValid(cC.consts)
      ensures ok ==> AllWellFormed(L) && Now() == Chunk(BranchCode(old(code), L), [], cC.consts)
      ensures ok ==> hole == (if BranchOf(L).Never? then -1 else |code| - 2)
      ensures if ok then !Blocked(cond, locals) else MayRefuse(A, cond, locals, |constants|, |code|)
    {
      hide MayRefuse, Blocked, Described, PoolInv, ExprDone, LocalsValid, InitializedNames, BranchCode, BranchOf,
           EncodeAll, PoolValid;
      var condStart := |code|;
      hole := -1;
      ok, L := Expression(cond);
      cC := Now();
      if !ok { return; }
      PoolIsValid();
      ExprBytes(A, old(Now()), cC, L, cond, Names());
      hole := EmitBranchJump(condStart, old(code), L);
    }

    /** The body of a loop that begins at `start`, the jump back, and the jumps that leave the loop. */
    method LoopBody(start: nat, exitJump: int, body: Stmt)
      returns (ok: bool, ghost cT: Chunk, ghost cJ: Chunk, ghost cP: Chunk, ghost h: Holes)
      requires CodeInv() && LocalsInv() && Ready(locals) && start <= |code| && (exitJump >= 0 ==> exitJump + 2 <= |code|)
      modifies this
      ensures ok ==> CodeInv() && locals == old(locals) && scopeDepth == old(scopeDepth) && currentLoop == old(currentLoop)
      ensures ok ==> Processed(A, old(Now()), cT, [], OfStmt(body), old(Names()), Frame(|locals|, Some(start)), h)
      ensures ok ==> h.conts == [] && Jumped(cT, cJ) && JumpAt(cJ.code, |cT.code|, start)
      ensures ok ==> PatchedTo(cJ.code, cP.code, HoleOf(exitJump), |cJ.code|)
      ensures ok ==> PatchedTo(cP.code, code, h.breaks, |cJ.code|) && tail == [] && constants == cT.consts
      ensures if ok then !StmtBlocked(body, old(locals), old(scopeDepth), true)
              else StmtBlocked(body, old(locals), old(scopeDepth), true) || StmtUnfoldable(A, body) || TooMuch(Here())
      decreases body, 2
    {
      hide StmtBlocked, StmtUnfoldable, Described, PoolInv, InitializedNames, Achieved, EndsWith, Processed, Built,
           PatchedTo, SizeAll, EncodeAll, Patch,
           JumpAt, LocalsValid, Settled, Apart;
      cT, cJ, cP := Now(), Now(), Now();
      NoSize();
      var enclosing := currentLoop;
      currentLoop := Some(LoopContext(start, |locals|, [], [], false));
      ghost var xB := Here();
      ghost var tin;
      ok, tin, h := Statement(body);
      if !ok { return; }
      ghost var xT := Here();
      BodyAchieved(A, xB, xT, body, tin, h);
      cT := Now();
      ok := EmitLoop(start);
      if !ok { return; }
      cJ := Now();
      ok := PatchExit(exitJump);
      if !ok { return; }
      cP := Now();
      SamePatched(cJ.code, cP.code, HoleOf(exitJump), |cJ.code|);
      ok := PatchAll(currentLoop.value.breakJumps, |code|);
      if !ok { return; }
      currentLoop := enclosing;
    }

    method WhileStatement(s: Stmt) returns (ok: bool)
      requires Inv() && s.While?
      modifies this
      ensures ok ==> Inv() && Achieved(A, old(Here()), Here(), OfStmt(s), [], NO_HOLES)
      ensures if ok then !ItemBlocked(OfStmt(s), old(Here())) else Stopped(A, OfStmt(s), old(Here()), Here())
      decreases s, 0
    {
      hide StmtBlocked, StmtUnfoldable, Stopped, ItemBlocked, MayRefuse, Blocked, TooMuch, Described, PoolInv,
           InitializedNames, Achieved, EndsWith, Processed, Built, ExprDone, PatchedTo, SizeAll,
           EncodeAll, PoolValid, BranchCode, BranchOf, LocalsValid, Settled, JumpAt;
      DescribedEnds(code, opStack, constants, tail);
      ghost var x0 := Here();
      FrameFits(x0);
      var loopStart := |code|;
      var exitJump;
      ghost var cC, L;
      ok, exitJump, cC, L := Condition(s.cond);
      if !ok {
        ExprStopped(A, s, s.cond, x0, Here());
        return;
      }
      ghost var cB := Now();
      BranchEnd(x0.chunk.code, L);
      ghost var cT, cJ, cP, h;
      ok, cT, cJ, cP, h := LoopBody(loopStart, exitJump, s.body);
      if !ok {
        LoopStopped(A, s, x0, Here());
        return;
      }
      WhileBuilt(A, x0.chunk, cC, cB, cT, cJ, cP, Now(), L, s.cond, s.body, exitJump, [], h,
                 InitializedNames(x0.locals), FrameOf(x0.loop));
      LoopFree(s, x0);
      PlainAchieved(A, x0, Here(), s);
      SoundAfter(A, x0, Here(), OfStmt(s), [], NO_HOLES);
    }

    method DoWhileStatement(s: Stmt) returns (ok: bool)
      requires Inv() && s.DoWhile?
      modifies this
      ensures ok ==> Inv() && Achieved(A, old(Here()), Here(), OfStmt(s), [], NO_HOLES)
      ensures if ok then !ItemBlocked(OfStmt(s), old(Here())) else Stopped(A, OfStmt(s), old(Here()), Here())
      decreases s, 0
    {
      hide StmtBlocked, StmtUnfoldable, ItemBlocked, ItemUnfoldable, Stopped, MayRefuse, Blocked, Described, PoolInv,
           InitializedNames, Achieved, EndsWith, Processed, Built, ExprDone, PatchedTo, SizeAll,
           EncodeAll, PoolValid, BranchCode, BranchOf, LocalsValid, Settled, JumpAt, Apart, Patch;
      DescribedEnds(code, opStack, constants, tail);
      NoSize();
      ghost var x0 := Here();
      FrameFits(x0);
      var loopStart := |code|;
      var enclosing := currentLoop;
      currentLoop := Some(LoopContext(loopStart, |locals|, [], [], true));
      ghost var xB := Here();
      ghost var tin, h;
      ok, tin, h := Statement(s.body);
      if !ok {
        BodyStopped(A, s, x0, xB, Here());
        return;
      }
      ghost var xT := Here();
      BodyAchieved(A, xB, xT, s.body, tin, h);
      var condStart := |code|;
      ok := PatchAll(currentLoop.value.continueJumps, condStart);
      if !ok {
        SizeStopped(A, OfStmt(s), x0, Here());
        return;
      }
      ghost var cK := Now();
      SamePatched(xT.chunk.code, cK.code, h.conts, condStart);
      var exitJump;
      ghost var cC, L;
      ok, exitJump, cC, L := Condition(s.cond);
      if !ok {
        ExprStopped(A, s, s.cond, x0, Here());
        return;
      }
      ghost var cB := Now();
      BranchEnd(cK.code, L);
      ok := EmitLoop(loopStart);
      if !ok {
        SizeStopped(A, OfStmt(s), x0, Here());
        return;
      }
      ghost var cJ := Now();
      ok := PatchExit(exitJump);
      if !ok {
        SizeStopped(A, OfStmt(s), x0, Here());
        return;
      }
      ghost var cP := Now();
      SamePatched(cJ.code, cP.code, HoleOf(exitJump), |cJ.code|);
      ok := PatchAll(currentLoop.value.breakJumps, |code|);
      if !ok {
        SizeStopped(A, OfStmt(s), x0, Here());
        return;
      }
      currentLoop := enclosing;
      DoWhileBuilt(A, x0.chunk, xT.chunk, cK, cC, cB, cJ, cP, Now(), L, s.cond, s.body, exitJump, h,
                   InitializedNames(x0.locals), FrameOf(x0.loop));
      BodyFree(s, xB);
      LoopFree(s, x0);
      PlainAchieved(A, x0, Here(), s);
      SoundAfter(A, x0, Here(), OfStmt(s), [], NO_HOLES);
    }

    method ForTest(test: Option<Expr>) returns (ok: bool, exitJump: int, ghost cC: Chunk, ghost L: seq<Instr>)
      requires CodeInv() && LocalsInv()
      modifies this`code, this`opStack, this`tail, this`constants, this`pool
      ensures ok ==> CodeInv() && TestDone(A, old(Now()), cC, Now(), L, test, exitJump, Names())
      ensures if ok then !SomeBlocked(test, locals) else SomeRefused(A, test, locals, Here())
    {
      hide MayRefuse, Blocked, Described, PoolInv, ExprDone, LocalsValid, InitializedNames, BranchCode, BranchOf,
           EncodeAll, PoolValid;
      ok, exitJump, cC, L := true, -1, Now(), [];
      if test.Some? { ok, exitJump, cC, L := Condition(test.value); }
    }

    /** The increment of a for loop, to which the end of the body leads instead of to the test. */
    method ForStep(step: Option<Expr>, loopStart: nat) returns (ok: bool, start: nat, ghost tr: StepTrace)
      requires CodeInv() && LocalsInv() && loopStart <= |code|
      modifies this`code, this`opStack, this`tail, this`constants, this`pool
      ensures ok ==> CodeInv() && StepDone(A, old(Now()), Now(), tr, step, loopStart, Names())
      ensures ok ==> start == (if step.Some? then |tr.jump.code| else loopStart)
      ensures if ok then !SomeBlocked(step, locals) else SomeRefused(A, step, locals, Here()) || TooMuch(Here())
    {
      hide MayRefuse, Blocked, Described, PoolInv, ExprDone, LocalsValid, InitializedNames, EncodeAll, Popped, Dropped,
           PatchedTo, JumpAt, Patch,
           SizeAll;
      ok, start := true, loopStart;
      tr := StepTrace(Now(), Now(), Now(), Now(), []);
      if step.None? { return; }
      NoSize();
      var bodyJump := EmitJump(OP_JUMP);
      var incrementStart := |code|;
      ghost var jump := Now();
      ghost var L;
      ok, L := Expression(step.value);
      if !ok { return; }
      ghost var value := Now();
      ghost var T, K := EmitPopCount(1);
      ghost var popped := Now();
      StepGrows(A, jump, value, popped, L, step.value, Names());
      ok := EmitLoop(loopStart);
      if !ok { return; }
      start := incrementStart;
      ghost var looped := Now();
      ok := PatchJump(bodyJump);
      if !ok { return; }
      PatchOne(looped.code, bodyJump, |looped.code|);
      tr := StepTrace(jump, value, popped, looped, L);
    }

    method ForStatement(s: Stmt) returns (ok: bool, ghost tin: seq<Instr>, ghost holes: Holes)
      requires Inv() && s.For?
      modifies this
      ensures ok ==> Inv() && Achieved(A, old(Here()), Here(), OfStmt(s), tin, holes)
      ensures if ok then !ItemBlocked(OfStmt(s), old(Here())) else Stopped(A, OfStmt(s), old(Here()), Here())
      decreases s, 0
    {
      hide ItemBlocked, ItemUnfoldable, Stopped, StmtBlocked, StmtUnfoldable, SomeBlocked, SomeRefused, TooMuch,
           LocalsOf, Described, PoolInv, InitializedNames, Achieved, EndsWith, Processed, Built, PatchedTo, SizeAll,
           EncodeAll, LocalsValid, Settled, JumpAt, TestDone, StepDone, Dropped;
      DescribedEnds(code, opStack, constants, tail);
      ghost var x0 := Here();
      BeginScope();
      ghost var x1 := Here();
      DeeperSound(x0);
      ok, tin, holes := Declarations(s.init);
      if !ok {
        ForStopped(A, s, x0, x1, Here());
        return;
      }
      ghost var xI := Here();
      ForLocals(A, x1, xI, s.init, tin, holes);
      ScopeLocals(A, x0, x1, xI, s.init, tin, holes);
      DescribedEnds(code, opStack, constants, tail);
      var loopStart := |code|;
      var exitJump;
      ghost var cC, L;
      ok, exitJump, cC, L := ForTest(s.test);
      if !ok {
        ForPartStopped(A, s, x0, xI, Here());
        return;
      }
      ghost var cB := Now();
      TestFacts(A, xI.chunk, cC, cB, L, s.test, exitJump, Names());
      var start;
      ghost var tr;
      ok, start, tr := ForStep(s.step, loopStart);
      if !ok {
        ForPartStopped(A, s, x0, xI, Here());
        return;
      }
      ghost var cS := Now();
      StepFacts(A, cB, cS, tr, s.step, loopStart, Names());
      ExitFits(exitJump, xI.chunk, cB, cS);
      ghost var cT, cJ, cP, h;
      ok, cT, cJ, cP, h := LoopBody(start, exitJump, s.body);
      if !ok {
        ForPartStopped(A, s, x0, xI, Here());
        return;
      }
      ForFree(s, x0, x1, xI);
      ghost var cQ := Now();
      ghost var T, K := EndScope(|x0.locals|);
      ghost var all := ForTrace(xI.chunk, cC, cB, tr, cS, cT, cJ, cP, cQ, L, exitJump, h);
      assert ForDone(A, all, s.test, s.step, s.body, InitializedNames(xI.locals));
      ForAchieved(A, x0, x1, xI, all, Here(), tin, s.init, holes, s.test, s.step, s.body, T, K);
      SoundAfter(A, x0, Here(), OfStmt(s), tin, holes);
    }

    // ---- Scripts ----

    /** Compiles a script.  If it is accepted it keeps the rules, and if no join is rewritten across, its code is correct. */
    method Compile(ds: Decls) returns (ok: bool)
      requires Inv() && Here() == Context(Chunk([], [], constants), [Local(THIS, 0, false)], 0, None)
      modifies this
      ensures ok ==> old(constants) <= constants
      ensures ok && DeclsSafe(ds, true, [THIS]) ==> Correct(A, Program(code, constants), ds)
      ensures ok ==> R.Legal(ds, THIS)
      ensures !ok ==> !R.Legal(ds, THIS) || DeclsUnfoldable(A, ds) || TooMuch(Here())
    {
      hide R.Legal, DeclsBlocked, DeclsUnfoldable, TooMuch, Described, PoolInv, Achieved, Sound, EndsWith, Encode, Correct;
      R.ScriptLegal(ds, THIS);
      ghost var x0 := Here();
      FrameFits(x0);
      ghost var tin, holes;
      ok, tin, holes := Declarations(ds);
      if !ok { return; }
      ghost var x1 := Here();
      DescribedEnds(code, opStack, constants, tail);
      ScriptAchieved(A, x0, x1, ds, tin, holes);
      EmitLast(LoadNil);
      EmitLast(Return);
    }
  }

  // ---- The constant pool ----

  /** Each number and each string is stored once, and its interning entry knows where. */
  ghost predicate PoolKept(constants: seq<Value>, pool: map<Value, nat>) {
    && PoolValid(constants)
    && (forall v :: v in pool ==> !v.Object? && pool[v] < |constants| && constants[pool[v]] == v)
    && (forall k :: 0 <= k < |constants| && !constants[k].Object? ==> constants[k] in pool && pool[constants[k]] == k)
  }

  // ---- Scripts ----

  /** The program that a script's chunk becomes. */
  function Script(c: Chunk): Program {
    Program(c.code + Encode(LoadNil) + Encode(Return), c.consts)
  }

  lemma ScriptAchieved(A: Arith, x0: Context, x1: Context, ds: Decls, tin: seq<Instr>, holes: Holes)
    requires Sound(x0) && x0.chunk.code == [] && x0.locals == [Local(THIS, 0, false)] && x0.loop.None?
    requires Achieved(A, x0, x1, OfDecls(ds, true), tin, holes) && EndsWith(x1.chunk.code, x1.chunk.tail)
    ensures x0.chunk.consts <= x1.chunk.consts && (DeclsSafe(ds, true, [THIS]) ==> Correct(A, Script(x1.chunk), ds))
  {
    hide Sound, EndsWith, Encode, Correct, Compiles, LocalsValid, LooseDecls, Settled, Pending, SizeAll, Within, Apart;
    FrameFits(x0);
    NoSize();
    assert InitializedNames(x0.locals) == [THIS];
    if DeclsSafe(ds, true, [THIS]) {
      Flushed(A, x0.chunk, x1.chunk, tin, OfDecls(ds, true), [THIS], Frame(0, None), holes);
      Finished(A, x1.chunk.code, x1.chunk.consts, ds);
    }
  }

  // ---- Emission ----

  /** The operator's byte dropped and the load's opcode overwritten. */
  lemma BinaryOverwritten(code: seq<byte>, tail: seq<Instr>, consts: seq<Value>, r: Instr, op: BinOp, prevRight: byte)
    requires EndsWith(code, tail) && |tail| > 1 && tail[|tail| - 1] == Bin(op) && tail[|tail| - 2] == r
    requires WellFormed(r) && prevRight == Opcode(r) && (r.Constant? || r.GetLocal?)
    ensures |code| >= 1 && (prevRight == OP_CONSTANT <==> r.Constant?)
    ensures r.Constant? ==> |code| >= 4
    ensures r.Constant? ==>
              Rewritten(Merge(2, BinConst(op, r.k)), LoadNil, code, tail, consts,
                        code[..|code| - 1][|code| - 4 := ConstCode(op)], [], consts)
    ensures r.GetLocal? ==> |code| >= 3
    ensures r.GetLocal? ==>
              Rewritten(Merge(2, BinLocal(op, r.i)), LoadNil, code, tail, consts,
                        code[..|code| - 1][|code| - 3 := LocalCode(op)], [], consts)
  {
    hide EndsWith, Rewritten;
    OpcodeTells(r);
    LoadOverwritten(code, tail, consts, r, op, if r.Constant? then BinConst(op, r.k) else BinLocal(op, r.i));
  }

  lemma LoadOverwritten(code: seq<byte>, tail: seq<Instr>, consts: seq<Value>, r: Instr, op: BinOp, i: Instr)
    requires EndsWith(code, tail) && |tail| > 1 && tail[|tail| - 1] == Bin(op) && tail[|tail| - 2] == r && WellFormed(r)
    requires (r.Constant? && i == BinConst(op, r.k)) || (r.GetLocal? && i == BinLocal(op, r.i))
    ensures |code| > Size(r)
    ensures Rewritten(Merge(2, i), LoadNil, code, tail, consts, code[..|code| - 1][|code| - 1 - Size(r) := Opcode(i)], [], consts)
  {
    hide EndsWith, At, EncodeAll, SizeAll, Encode, Opcode;
    assert Last(tail, 2) == [r, Bin(op)];
    TwoAtEnd(code, tail, r, Bin(op));
    EncodeSmall(Bin(op));
    OperandOverwritten(code, code[..|code| - Size(r) - 1], r, Opcode(Bin(op)), i);
  }

  lemma ConstantAt(code: seq<byte>, p: nat, i: Instr)
    requires i.Constant? && At(code, p, i)
    ensures p + 3 <= |code| && code[p + 1] as int + 0x100 * (code[p + 2] as int) == i.k
  {
    ByteAt(code, p, i, 1);
    ByteAt(code, p, i, 2);
  }

  lemma NoCode()
    ensures EncodeAll([]) == []
  {
  }

  lemma LoopJump(code: seq<byte>, start: nat)
    requires start <= |code| && |code| + 3 - start < 0x1_0000
    ensures var off := |code| + 3 - start;
            var whole := code + [OP_LOOP, off % 0x100, off / 0x100];
            whole[..|code|] == code && JumpAt(whole, |code|, start)
  {
    var off := |code| + 3 - start;
    var whole := code + [OP_LOOP, off % 0x100, off / 0x100];
    assert whole[|code|..|code| + 3] == Encode(Loop(off));
  }

  lemma PatchNext(code: seq<byte>, mid: seq<byte>, whole: seq<byte>, holes: seq<nat>, i: nat, target: nat)
    requires i < |holes| && Apart(holes) && forall h :: h in holes ==> h + 2 <= |code|
    requires PatchedTo(code, mid, holes[i + 1..], target) && PatchedTo(mid, whole, [holes[i]], target)
    ensures PatchedTo(code, whole, holes[i..], target)
  {
    hide PatchedTo;
    var rest := holes[i + 1..];
    forall x, y | x in rest && y in [holes[i]] ensures x + 2 <= y || y + 2 <= x {
      var n :| 0 <= n < |rest| && rest[n] == x;
      assert holes[i + 1 + n] == x;
    }
    forall x | x in rest ensures x + 2 <= |code| {
      var n :| 0 <= n < |rest| && rest[n] == x;
      assert holes[i + 1 + n] == x;
      assert x in holes;
    }
    PatchMore(code, mid, whole, rest, [holes[i]], target);
    assert holes[i..] == [holes[i]] + rest;
    PatchSame(code, whole, rest + [holes[i]], holes[i..], target);
  }

  lemma ExitPlaceholder(isAnd: bool)
    ensures WellFormed(ExitJump(isAnd, 0xFFFF)) && WellFormed(Pop)
    ensures Encode(ExitJump(isAnd, 0xFFFF)) == [if isAnd then OP_JUMP_IF_FALSE else OP_JUMP_IF_TRUE, 0xFF, 0xFF]
    ensures |Encode(Pop)| == 1
  {
  }

  lemma PopClear(code: seq<byte>)
    ensures forall c: seq<byte>, c1: seq<byte> :: Popped(c, [], c1) ==> c1 == c + Encode(Pop)
  {
  }

  lemma AfterRight(A: Arith, c0: Chunk, c1: Chunk, K: seq<Instr>, e: Expr, names: seq<Text>)
    requires ExprDone(A, c0, c1, K, e, names) && c0.tail == []
    ensures |c1.code| == |c0.code| + SizeAll(K) && SizeAll(c1.tail) <= SizeAll(K)
  {
    hide Emits, EncodeAll, SizeAll;
    assert [] + K == K;
    SuffixSize(c1.tail, K);
  }

  lemma EncodeSmall(i: Instr)
    requires WellFormed(i) && Size(i) == 1
    ensures Encode(i) == [Opcode(i)]
  {
  }

  lemma FoldsTo(A: Arith, consts: seq<Value>, left: Option<Instr>, right: Option<Instr>, op: BinOp)
    requires InPool(consts, left) && InPool(consts, right) && Folds(op, left, right)
    ensures var v := Apply(A, op, LoadedBy(consts, left.value), LoadedBy(consts, right.value));
            RewriteOf(A, consts, left, right, Bin(op)) == if v.Some? then Fold(3, v.value) else Reject(3)
  {
  }

  lemma FoldsUnary(A: Arith, consts: seq<Value>, left: Option<Instr>, right: Option<Instr>, op: UnOp)
    requires InPool(consts, left) && InPool(consts, right) && right.Some? && LoadsConst(right.value)
    ensures var v := ApplyUnary(A, op, LoadedBy(consts, right.value));
            RewriteOf(A, consts, left, right, Un(op)) == if v.Some? then Fold(2, v.value) else Reject(2)
  {
  }

  lemma UnaryValue(A: Arith, consts: seq<Value>, i: Instr, op: UnOp)
    requires LoadsConst(i) && InPool(consts, Some(i)) && PoolValid(consts)
    ensures var v := LoadedBy(consts, i);
            ApplyUnary(A, op, v) == if op.Not? then Some(Bool(i.LoadFalse? || i.LoadNil?))
                                    else if v.Number? then Some(Number(A.neg(v.n))) else None
  {
  }

  lemma OperandCount(code: seq<byte>, tail: seq<Instr>, r: Instr, i: Instr)
    requires EndsWith(code, tail) && LastOf(tail, 1) == Some(r) && LastOf(tail, 0) == Some(i)
    requires LoadsConst(r) && i.Un?
    ensures |tail| >= 2 && SizeAll(Last(tail, 2)) == 1 + (if r.Constant? then 3 else Size(r)) <= |code|
    ensures At(code, |code| - 1 - Size(r), r)
  {
    hide EndsWith, SizeAll, At;
    assert Last(tail, 2) == [r, i];
    TwoAtEnd(code, tail, r, i);
  }

  lemma KeepRewritten(code: seq<byte>, tail: seq<Instr>, consts: seq<Value>)
    ensures Rewritten(Keep, LoadNil, code, tail, consts, code, tail, consts)
  {
  }

  lemma ApplyNoObject(A: Arith, op: BinOp, a: Value, b: Value)
    ensures Apply(A, op, a, b).Some? ==> !Apply(A, op, a, b).value.Object?
  {
  }
}
