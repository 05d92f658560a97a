/** Instructions and their encoding as bytes.  Opcode numbers and operand layouts are those of the enum in
    src/chunk.h; 16-bit operands are little-endian. */
module Bytecode {
  import opened Types
  import opened Values

  type u16 = x: int | 0 <= x < 0x1_0000

  datatype Instr =
    | Constant(k: u16)
    | GetLocal(i: byte)
    | SetLocal(i: byte)
    | SetLocalPop(i: byte)
    | MoveLocal(src: byte, dst: byte)
    | Bin(op: BinOp)
    | BinConst(op: BinOp, k: u16)
    | BinLocal(op: BinOp, i: byte)
    | Un(uop: UnOp)
    | UnLocal(uop: UnOp, i: byte)
    | LoadNil
    | LoadTrue
    | LoadFalse
    | Pop
    | PopN(n: u16)
    | PrintTop
    | GetGlobal(k: u16)
    | SetGlobal(k: u16)
    | DefineGlobal(k: u16)
    | Jump(off: u16)
    | Loop(off: u16)
    | JumpIfFalse(off: u16)
    | JumpIfFalsePop(off: u16)
    | JumpIfTrue(off: u16)
    | JifConst(op: BinOp, i: byte, k: u16, off: u16)
    | JifLocal(op: BinOp, a: byte, b: byte, off: u16)
    | Return

  /** Only the comparisons have fused jumps; between two locals, greater-than is less-than exchanged. */
  predicate WellFormed(i: Instr) {
    (i.JifConst? ==> IsComparison(i.op)) &&
    (i.JifLocal? ==> i.op.Lt? || i.op.Le? || i.op.Eq? || i.op.Ne?)
  }

  // ---- Opcodes ----

  const OP_CONSTANT: byte := 0
  const OP_GET_LOCAL: byte := 1
  const OP_SET_LOCAL: byte := 2
  const OP_SET_LOCAL_POP: byte := 3
  const OP_MOVE_LOCAL: byte := 4
  const OP_NOT: byte := 10
  const OP_NEGATE: byte := 11
  const OP_NIL: byte := 12
  const OP_TRUE: byte := 13
  const OP_FALSE: byte := 14
  const OP_JUMP: byte := 21
  const OP_LOOP: byte := 22
  const OP_JUMP_IF_FALSE: byte := 23
  const OP_JUMP_IF_FALSE_POP: byte := 24
  const OP_JUMP_IF_TRUE: byte := 25
  const OP_POP: byte := 26
  const OP_POP_N: byte := 27
  const OP_RETURN: byte := 31
  const OP_GET_GLOBAL: byte := 37
  const OP_SET_GLOBAL: byte := 38
  const OP_DEFINE_GLOBAL: byte := 39
  const OP_PRINT: byte := 51
  const OP_NOT_LOCAL: byte := 74
  const OP_NEGATE_LOCAL: byte := 75
  const NO_OP: byte := 255

  /** The order in which each family of binary opcodes is laid out. */
  function Ordinal(op: BinOp): (o: nat)
    ensures o < 11
  {
    match op
    case Add => 0
    case Sub => 1
    case Mul => 2
    case Div => 3
    case Mod => 4
    case Eq => 5
    case Gt => 6
    case Lt => 7
    case Ne => 8
    case Le => 9
    case Ge => 10
  }

  function FromOrdinal(o: nat): (op: BinOp)
    requires o < 11
    ensures Ordinal(op) == o
  {
    match o
    case 0 => Add
    case 1 => Sub
    case 2 => Mul
    case 3 => Div
    case 4 => Mod
    case 5 => Eq
    case 6 => Gt
    case 7 => Lt
    case 8 => Ne
    case 9 => Le
    case _ => Ge
  }

  function BinCode(op: BinOp): byte { if Ordinal(op) < 5 then 5 + Ordinal(op) else 10 + Ordinal(op) }

  function ConstCode(op: BinOp): byte { 52 + Ordinal(op) }

  function LocalCode(op: BinOp): byte { 63 + Ordinal(op) }

  function JifConstCode(op: BinOp): byte
    requires IsComparison(op)
  {
    match op
    case Lt => 76
    case Le => 77
    case Gt => 78
    case Ge => 79
    case Eq => 80
    case Ne => 81
  }

  function JifLocalCode(op: BinOp): byte
    requires op.Lt? || op.Le? || op.Eq? || op.Ne?
  {
    match op
    case Lt => 82
    case Le => 83
    case Eq => 84
    case Ne => 85
  }

  function Opcode(i: Instr): byte
    requires WellFormed(i)
  {
    match i
    case Constant(_) => OP_CONSTANT
    case GetLocal(_) => OP_GET_LOCAL
    case SetLocal(_) => OP_SET_LOCAL
    case SetLocalPop(_) => OP_SET_LOCAL_POP
    case MoveLocal(_, _) => OP_MOVE_LOCAL
    case Bin(op) => BinCode(op)
    case BinConst(op, _) => ConstCode(op)
    case BinLocal(op, _) => LocalCode(op)
    case Un(op) => if op.Not? then OP_NOT else OP_NEGATE
    case UnLocal(op, _) => if op.Not? then OP_NOT_LOCAL else OP_NEGATE_LOCAL
    case LoadNil => OP_NIL
    case LoadTrue => OP_TRUE
    case LoadFalse => OP_FALSE
    case Pop => OP_POP
    case PopN(_) => OP_POP_N
    case PrintTop => OP_PRINT
    case GetGlobal(_) => OP_GET_GLOBAL
    case SetGlobal(_) => OP_SET_GLOBAL
    case DefineGlobal(_) => OP_DEFINE_GLOBAL
    case Jump(_) => OP_JUMP
    case Loop(_) => OP_LOOP
    case JumpIfFalse(_) => OP_JUMP_IF_FALSE
    case JumpIfFalsePop(_) => OP_JUMP_IF_FALSE_POP
    case JumpIfTrue(_) => OP_JUMP_IF_TRUE
    case JifConst(op, _, _, _) => JifConstCode(op)
    case JifLocal(op, _, _, _) => JifLocalCode(op)
    case Return => OP_RETURN
  }

  function Short(n: u16): (s: seq<byte>)
    ensures |s| == 2
  {
    [n % 0x100, n / 0x100]
  }

  function Encode(i: Instr): (s: seq<byte>)
    requires WellFormed(i)
    ensures |s| == Size(i) && s[0] == Opcode(i)
  {
    [Opcode(i)] +
    match i
    case Constant(k) => Short(k)
    case GetLocal(x) => [x]
    case SetLocal(x) => [x]
    case SetLocalPop(x) => [x]
    case MoveLocal(x, y) => [x, y]
    case BinConst(_, k) => Short(k)
    case BinLocal(_, x) => [x]
    case UnLocal(_, x) => [x]
    case PopN(n) => Short(n)
    case GetGlobal(k) => Short(k)
    case SetGlobal(k) => Short(k)
    case DefineGlobal(k) => Short(k)
    case Jump(off) => Short(off)
    case Loop(off) => Short(off)
    case JumpIfFalse(off) => Short(off)
    case JumpIfFalsePop(off) => Short(off)
    case JumpIfTrue(off) => Short(off)
    case JifConst(_, x, k, off) => [x] + Short(k) + Short(off)
    case JifLocal(_, x, y, off) => [x, y] + Short(off)
    case _ => []
  }

  function Size(i: Instr): (n: nat)
    ensures 1 <= n <= 6
  {
    match i
    case GetLocal(_) => 2
    case SetLocal(_) => 2
    case SetLocalPop(_) => 2
    case BinLocal(_, _) => 2
    case UnLocal(_, _) => 2
    case Bin(_) => 1
    case Un(_) => 1
    case LoadNil => 1
    case LoadTrue => 1
    case LoadFalse => 1
    case Pop => 1
    case PrintTop => 1
    case Return => 1
    case JifConst(_, _, _, _) => 6
    case JifLocal(_, _, _, _) => 5
    case _ => 3
  }

  // ---- Decoding ----

  /** The instruction that the machine reads at ip, or None when the bytes there are no instruction. */
  function Decode(code: seq<byte>, ip: nat): Option<Instr> {
    if ip >= |code| then None else
    var op := code[ip];
    var b1 := if ip + 1 < |code| then Some(code[ip + 1]) else None;
    var b2 := if ip + 2 < |code| then Some(code[ip + 2]) else None;
    var s1 := ReadShort(code, ip + 1);
    if op == OP_NIL then Some(LoadNil)
    else if op == OP_TRUE then Some(LoadTrue)
    else if op == OP_FALSE then Some(LoadFalse)
    else if op == OP_NOT then Some(Un(Not))
    else if op == OP_NEGATE then Some(Un(Negate))
    else if 5 <= op < 10 then Some(Bin(FromOrdinal(op - 5)))
    else if 15 <= op < 21 then Some(Bin(FromOrdinal(op - 10)))
    else if op == OP_POP then Some(Pop)
    else if op == OP_PRINT then Some(PrintTop)
    else if op == OP_RETURN then Some(Return)
    else if b1.None? then None
    else if op == OP_GET_LOCAL then Some(GetLocal(b1.value))
    else if op == OP_SET_LOCAL then Some(SetLocal(b1.value))
    else if op == OP_SET_LOCAL_POP then Some(SetLocalPop(b1.value))
    else if 63 <= op < 74 then Some(BinLocal(FromOrdinal(op - 63), b1.value))
    else if op == OP_NOT_LOCAL then Some(UnLocal(Not, b1.value))
    else if op == OP_NEGATE_LOCAL then Some(UnLocal(Negate, b1.value))
    else if s1.None? || b2.None? then None
    else if op == OP_CONSTANT then Some(Constant(s1.value))
    else if op == OP_MOVE_LOCAL then Some(MoveLocal(b1.value, b2.value))
    else if 52 <= op < 63 then Some(BinConst(FromOrdinal(op - 52), s1.value))
    else if op == OP_POP_N then Some(PopN(s1.value))
    else if op == OP_GET_GLOBAL then Some(GetGlobal(s1.value))
    else if op == OP_SET_GLOBAL then Some(SetGlobal(s1.value))
    else if op == OP_DEFINE_GLOBAL then Some(DefineGlobal(s1.value))
    else if op == OP_JUMP then Some(Jump(s1.value))
    else if op == OP_LOOP then Some(Loop(s1.value))
    else if op == OP_JUMP_IF_FALSE then Some(JumpIfFalse(s1.value))
    else if op == OP_JUMP_IF_FALSE_POP then Some(JumpIfFalsePop(s1.value))
    else if op == OP_JUMP_IF_TRUE then Some(JumpIfTrue(s1.value))
    else
      var s2 := ReadShort(code, ip + 2);
      var s3 := ReadShort(code, ip + 3);
      var s4 := ReadShort(code, ip + 4);
      if 82 <= op < 86 && s3.Some? then
        Some(JifLocal(if op == 82 then Lt else if op == 83 then Le else if op == 84 then Eq else Ne,
                      b1.value, b2.value, s3.value))
      else if 76 <= op < 82 && s2.Some? && s4.Some? then
        Some(JifConst(if op == 76 then Lt else if op == 77 then Le else if op == 78 then Gt
                      else if op == 79 then Ge else if op == 80 then Eq else Ne,
                      b1.value, s2.value, s4.value))
      else None
  }

  function ReadShort(code: seq<byte>, p: nat): Option<u16> {
    if p + 1 < |code| then Some(code[p] as int + 0x100 * (code[p + 1] as int)) else None
  }

  lemma ShortRoundTrip(code: seq<byte>, p: nat, n: u16)
    requires p + 2 <= |code| && code[p] == Short(n)[0] && code[p + 1] == Short(n)[1]
    ensures ReadShort(code, p) == Some(n)
  {
  }

  /** The bytes of an instruction at position p. */
  ghost predicate At(code: seq<byte>, p: nat, i: Instr) {
    WellFormed(i) && p + Size(i) <= |code| && code[p..p + Size(i)] == Encode(i)
  }

  lemma ByteAt(code: seq<byte>, p: nat, i: Instr, j: nat)
    requires At(code, p, i) && j < Size(i)
    ensures code[p + j] == Encode(i)[j]
  {
    assert code[p..p + Size(i)][j] == code[p + j];
  }

  /** The 16-bit operand of a three-byte instruction. */
  function Operand(i: Instr): u16
    requires Size(i) == 3 && !i.MoveLocal?
  {
    match i
    case Constant(k) => k
    case BinConst(_, k) => k
    case PopN(n) => n
    case GetGlobal(k) => k
    case SetGlobal(k) => k
    case DefineGlobal(k) => k
    case Jump(off) => off
    case Loop(off) => off
    case JumpIfFalse(off) => off
    case JumpIfFalsePop(off) => off
    case JumpIfTrue(off) => off
  }

  lemma DecodeShort(code: seq<byte>, p: nat, i: Instr)
    requires At(code, p, i) && Size(i) <= 3
    ensures Decode(code, p) == Some(i)
  {
    hide Short, Encode, Decode;
    if Size(i) < 3 {
      forall j | 0 <= j < Size(i) ensures code[p + j] == Encode(i)[j] { ByteAt(code, p, i, j); }
      DecodeSmall(code, p, i);
    } else {
      ByteAt(code, p, i, 0);
      ByteAt(code, p, i, 1);
      ByteAt(code, p, i, 2);
      DecodeWide(code, p, i);
    }
  }

  lemma DecodeSmall(code: seq<byte>, p: nat, i: Instr)
    requires WellFormed(i) && Size(i) < 3 && p + Size(i) <= |code|
    requires forall j :: 0 <= j < Size(i) ==> code[p + j] == Encode(i)[j]
    ensures Decode(code, p) == Some(i)
  {
    hide Short, ReadShort;
    assert code[p + 0] == Encode(i)[0];
    if Size(i) == 2 { assert code[p + 1] == Encode(i)[1]; }
  }

  lemma DecodeWide(code: seq<byte>, p: nat, i: Instr)
    requires WellFormed(i) && Size(i) == 3 && p + 3 <= |code|
    requires code[p] == Encode(i)[0] && code[p + 1] == Encode(i)[1] && code[p + 2] == Encode(i)[2]
    ensures Decode(code, p) == Some(i)
  {
    hide Short;
    if !i.MoveLocal? {
      assert Encode(i) == [Opcode(i)] + Short(Operand(i));
      ShortRoundTrip(code, p + 1, Operand(i));
    }
  }

  lemma DecodeFused(code: seq<byte>, p: nat, i: Instr)
    requires At(code, p, i) && Size(i) > 3
    ensures Decode(code, p) == Some(i)
  {
    hide Short;
    ByteAt(code, p, i, 0);
    ByteAt(code, p, i, 1);
    ByteAt(code, p, i, 2);
    ByteAt(code, p, i, 3);
    ByteAt(code, p, i, 4);
    if i.JifConst? {
      ByteAt(code, p, i, 5);
      assert Encode(i) == [Opcode(i), i.i] + Short(i.k) + Short(i.off);
      ShortRoundTrip(code, p + 2, i.k);
      ShortRoundTrip(code, p + 4, i.off);
    } else {
      assert Encode(i) == [Opcode(i), i.a, i.b] + Short(i.off);
      ShortRoundTrip(code, p + 3, i.off);
    }
  }

  /** Wherever the bytes of an instruction stand, the machine reads that instruction. */
  lemma DecodeEncode(code: seq<byte>, p: nat, i: Instr)
    requires At(code, p, i)
    ensures Decode(code, p) == Some(i)
  {
    if Size(i) <= 3 { DecodeShort(code, p, i); } else { DecodeFused(code, p, i); }
  }

  // ---- Sequences of instructions ----

  predicate AllWellFormed(L: seq<Instr>) {
    forall j :: 0 <= j < |L| ==> WellFormed(L[j])
  }

  function SizeAll(L: seq<Instr>): (n: nat)
    ensures n >= |L|
  {
    if L == [] then 0 else Size(L[0]) + SizeAll(L[1..])
  }

  function EncodeAll(L: seq<Instr>): (s: seq<byte>)
    requires AllWellFormed(L)
    ensures |s| == SizeAll(L)
  {
    if L == [] then [] else Encode(L[0]) + EncodeAll(L[1..])
  }

  lemma {:induction false} EncodeAppend(L: seq<Instr>, K: seq<Instr>)
    requires AllWellFormed(L) && AllWellFormed(K)
    ensures AllWellFormed(L + K)
    ensures SizeAll(L + K) == SizeAll(L) + SizeAll(K)
    ensures EncodeAll(L + K) == EncodeAll(L) + EncodeAll(K)
  {
    hide Encode, WellFormed, Size;
    if L == [] {
      assert L + K == K;
    } else {
      assert (L + K)[1..] == L[1..] + K;
      EncodeAppend(L[1..], K);
    }
  }

  lemma EncodeOne(i: Instr)
    requires WellFormed(i)
    ensures AllWellFormed([i]) && SizeAll([i]) == Size(i) && EncodeAll([i]) == Encode(i)
  {
    assert [i][1..] == [];
  }

  function Opcodes(L: seq<Instr>): (s: seq<byte>)
    requires AllWellFormed(L)
    ensures |s| == |L|
  {
    seq(|L|, j requires 0 <= j < |L| => Opcode(L[j]))
  }
}
