/** The bytes of a condition, as the compiler inspects them when it chooses a conditional jump. */
module Regions {
  import opened Types
  import opened Values
  import opened Syntax
  import opened Bytecode
  import opened Machine
  import opened Peephole
  import opened Expressions
  import opened Layout
  import opened Items
  import opened Tails
  import opened Buffer

  lemma BranchFormed(L: seq<Instr>)
    requires !BranchOf(L).Never?
    ensures WellFormed(BranchInstr(BranchOf(L), 0xFFFF))
  {
  }

  /** The code with the condition L and its jump behind base, the jump's operand being a placeholder. */
  ghost function BranchCode(base: seq<byte>, L: seq<Instr>): seq<byte>
    requires AllWellFormed(L)
  {
    var f := BranchOf(L);
    if f.Never? then base
    else
      BranchFormed(L);
      base + (if f.Plain? then EncodeAll(L) else []) + BranchHead(f) + [0xFF, 0xFF]
  }

  /** The condition compiled by L, with its jump, branches as the condition says. */
  lemma BranchDone(A: Arith, c0: Chunk, c1: Chunk, L: seq<Instr>, cond: Expr, names: seq<Text>)
    requires ExprDone(A, c0, c1, L, cond, names) && JoinSafe(cond, names) && PoolValid(c1.consts)
    ensures var code := BranchCode(c0.code, L);
            var b := |code|;
            var hole := if BranchOf(L).Never? then -1 else b - 2;
            BranchCompiles(A, code, c1.consts, |c0.code|, b, hole, cond, names)
  {
    hide ExprCode, PoolValid, BranchCompiles, TailShape, AssignShape, BranchHead, BranchOf, BranchInstr;
    var code := BranchCode(c0.code, L);
    if BranchOf(L).Never? {
      NoBranchCompiles(A, code, c1.consts, |c0.code|, L, cond, names);
    } else {
      BranchFormed(L);
      var f := BranchOf(L);
      BranchBytes(c0.code, L, f);
      BranchCodeCompiles(A, code, c1.consts, |c0.code|, L, cond, names);
    }
  }

  lemma BranchBytes(base: seq<byte>, L: seq<Instr>, f: BranchForm)
    requires AllWellFormed(L) && f == BranchOf(L) && !f.Never? && WellFormed(BranchInstr(f, 0xFFFF))
    ensures var code := BranchCode(base, L);
            var p := |base| + (if f.Plain? then SizeAll(L) else 0);
            var n := |BranchHead(f)|;
            && (f.Plain? ==> ListAt(code, |base|, L))
            && p + n + 2 == |code| && code[p..p + n] == BranchHead(f)
  {
    hide BranchHead, BranchOf, EncodeAll, SizeAll;
    var code := BranchCode(base, L);
    var p := |base| + (if f.Plain? then SizeAll(L) else 0);
    if f.Plain? { assert code[|base|..p] == EncodeAll(L); }
  }

  // ---- What the first bytes tell ----

  lemma OrdinalBack(op: BinOp)
    ensures FromOrdinal(Ordinal(op)) == op
    ensures IsComparison(op) <==> Ordinal(op) >= 5
  {
  }

  lemma RegionHead(L: seq<Instr>)
    requires AllWellFormed(L) && L != []
    ensures var s := EncodeAll(L);
            && |s| >= Size(L[0]) && s[0] == Opcode(L[0])
            && (|s| == Size(L[0]) <==> |L| == 1)
            && (|L| >= 2 ==> s[Size(L[0])] == Opcode(L[1]) && |s| >= Size(L[0]) + Size(L[1])
                             && (|s| == Size(L[0]) + Size(L[1]) <==> |L| == 2))
  {
    hide Opcode;
    var rest := L[1..];
    assert EncodeAll(L) == Encode(L[0]) + EncodeAll(rest);
    if |L| >= 2 {
      assert rest[0] == L[1] && EncodeAll(rest) == Encode(L[1]) + EncodeAll(rest[1..]);
    }
  }

  /** The operand bytes of a load, and of the comparison behind it. */
  lemma RegionOperands(L: seq<Instr>)
    requires AllWellFormed(L) && L != []
    ensures var s := EncodeAll(L);
            && |s| >= Size(L[0]) && (|L| >= 2 ==> |s| >= Size(L[0]) + Size(L[1]))
            && (L[0].GetLocal? ==> s[1] == L[0].i)
            && (L[0].Constant? ==> s[1] == L[0].k % 0x100 && s[2] == L[0].k / 0x100)
            && (|L| >= 2 && L[1].BinLocal? ==> s[Size(L[0]) + 1] == L[1].i)
            && (|L| >= 2 && L[1].BinConst? ==>
                  s[Size(L[0]) + 1] == L[1].k % 0x100 && s[Size(L[0]) + 2] == L[1].k / 0x100)
  {
    hide Opcode;
    var rest := L[1..];
    assert EncodeAll(L) == Encode(L[0]) + EncodeAll(rest);
    if |L| >= 2 {
      assert rest[0] == L[1] && EncodeAll(rest) == Encode(L[1]) + EncodeAll(rest[1..]);
    }
  }

  /** The comparison that an opcode of a family stands for. */
  function ComparisonOf(code: byte, family: byte): (r: Option<BinOp>)
    ensures r.Some? ==> IsComparison(r.value)
  {
    if family + 5 <= code < family + 11 then Some(FromOrdinal(code - family)) else None
  }

  lemma ComparisonTells(i: Instr)
    requires WellFormed(i)
    ensures ComparisonOf(Opcode(i), 63) == if i.BinLocal? && IsComparison(i.op) then Some(i.op) else None
    ensures ComparisonOf(Opcode(i), 52) == if i.BinConst? && IsComparison(i.op) then Some(i.op) else None
  {
    OpcodeTells(i);
    if i.BinLocal? || i.BinConst? { OrdinalBack(i.op); }
  }

  predicate LiteralCode(op: byte) {
    op == OP_TRUE || op == OP_FALSE || op == OP_NIL
  }

  lemma DetectConstant(L: seq<Instr>)
    requires AllWellFormed(L) && L != []
    ensures var s := EncodeAll(L);
            var known := (|s| == 1 && LiteralCode(s[0])) || (|s| == 3 && s[0] == OP_CONSTANT);
            && |s| >= 1
            && (known <==> BranchOf(L).Always? || BranchOf(L).Never?)
            && (known ==> (BranchOf(L).Never? <==> s[0] == OP_TRUE || s[0] == OP_CONSTANT))
  {
    hide Opcode, EncodeAll, Encode;
    RegionHead(L);
    OpcodeTells(L[0]);
  }

  lemma DetectLocals(L: seq<Instr>)
    requires AllWellFormed(L) && L != []
    ensures var s := EncodeAll(L);
            && (BranchOf(L).FusedLocals? ==>
                  |s| == 4 && s[0] == OP_GET_LOCAL && ComparisonOf(s[2], 63).Some?)
            && (|s| == 4 && s[0] == OP_GET_LOCAL && ComparisonOf(s[2], 63).Some? ==>
                  var op := ComparisonOf(s[2], 63).value;
                  BranchOf(L) == if op.Gt? || op.Ge? then FusedLocals(Mirror(op), s[3], s[1])
                                 else FusedLocals(op, s[1], s[3]))
  {
    hide Opcode, EncodeAll, Encode, ComparisonOf;
    RegionHead(L);
    RegionOperands(L);
    OpcodeTells(L[0]);
    if |L| >= 2 { ComparisonTells(L[1]); }
  }

  lemma DetectConst(L: seq<Instr>)
    requires AllWellFormed(L) && L != []
    ensures var s := EncodeAll(L);
            && (BranchOf(L).FusedConst? ==>
                  |s| == 5 && ((s[0] == OP_GET_LOCAL && ComparisonOf(s[2], 52).Some?) ||
                               (s[0] == OP_CONSTANT && ComparisonOf(s[3], 63).Some?)))
            && (|s| == 5 && s[0] == OP_GET_LOCAL && ComparisonOf(s[2], 52).Some? ==>
                  BranchOf(L) == FusedConst(ComparisonOf(s[2], 52).value, s[1], s[3] as int + 0x100 * (s[4] as int)))
            && (|s| == 5 && s[0] == OP_CONSTANT && ComparisonOf(s[3], 63).Some? ==>
                  BranchOf(L) == FusedConst(Mirror(ComparisonOf(s[3], 63).value), s[4],
                                            s[1] as int + 0x100 * (s[2] as int)))
  {
    hide Opcode, EncodeAll, Encode, ComparisonOf;
    RegionHead(L);
    RegionOperands(L);
    OpcodeTells(L[0]);
    if |L| >= 2 { ComparisonTells(L[1]); }
  }

  lemma HeadBytes(f: BranchForm)
    requires !f.Never? && WellFormed(BranchInstr(f, 0xFFFF))
    ensures f.Always? ==> BranchHead(f) == [OP_JUMP]
    ensures f.Plain? ==> BranchHead(f) == [OP_JUMP_IF_FALSE_POP]
    ensures f.FusedLocals? ==> BranchHead(f) == [JifLocalCode(f.op), f.a, f.b]
    ensures f.FusedConst? ==> BranchHead(f) == [JifConstCode(f.op), f.i, f.k % 0x100, f.k / 0x100]
  {
  }
}
