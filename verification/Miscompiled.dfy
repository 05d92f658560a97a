/** A program that the compiler accepts and gives other code than it should. */
module Miscompiled {
  import opened Types
  import opened Values
  import opened Syntax
  import opened Semantics
  import opened Bytecode
  import opened Machine
  import opened Peephole
  import opened Items
  import opened Buffer
  import opened Programs
  import C = Compiler

  /** print !(true or nil); */
  const SOURCE: Decls := More(Statement(Print(Unary(Not, Or(BoolLit(true), NilLit)))), Done)

  /** `!` is folded with nil, the end of `or`, into true; the jump of `or` arrives behind that, its value still true. */
  const CODE: seq<byte> := [OP_TRUE, OP_JUMP_IF_TRUE, 2, 0, OP_POP, OP_TRUE, OP_PRINT, OP_NIL, OP_RETURN]

  /** The source prints false. */
  lemma Means(A: Arith, script: Value, g: Globals)
    ensures Meaning(A, SOURCE, script, g, 0).Normal?
    ensures Meaning(A, SOURCE, script, g, 0).g == g && Meaning(A, SOURCE, script, g, 0).out == [Bool(false)]
  {
    var env := [Binding(THIS, script)];
    var e := Unary(Not, Or(BoolLit(true), NilLit));
    assert Eval(A, Or(BoolLit(true), NilLit), env, g) == Val(Bool(true), env, g);
    assert Eval(A, e, env, g) == Val(Bool(false), env, g);
    assert Exec(A, Print(e), env, g, [], 0) == Normal(env, g, [] + [Bool(false)]);
    assert ExecDecl(A, Statement(Print(e)), true, env, g, [], 0) == Normal(env, g, [] + [Bool(false)]);
  }

  /** The code prints true. */
  lemma Prints(A: Arith, P: Program, script: Value, g: Globals)
    requires P.code == CODE
    ensures Reaches(A, P, Initial(script, g), Halted(g, [Bool(true)]))
  {
    hide Reaches, EffectOf, Decode;
    Decodes();
    var m0 := Machine([script], g, []);
    var m1 := m0.Push(Bool(true));
    var m2 := m0.(out := [Bool(true)]);
    var m3 := m2.Push(Nil);
    Effects(A, P.consts, m0, m1, m2, m3);
    StepTo(A, P, Running(0, m0), Running(1, m1));
    StepTo(A, P, Running(1, m1), Running(6, m1));
    StepTo(A, P, Running(6, m1), Running(7, m2));
    StepTo(A, P, Running(7, m2), Running(8, m3));
    StepTo(A, P, Running(8, m3), Halted(g, [Bool(true)]));
    ReachesTrans(A, P, Running(0, m0), Running(1, m1), Running(6, m1));
    ReachesTrans(A, P, Running(0, m0), Running(6, m1), Running(7, m2));
    ReachesTrans(A, P, Running(0, m0), Running(7, m2), Running(8, m3));
    ReachesTrans(A, P, Running(0, m0), Running(8, m3), Halted(g, [Bool(true)]));
  }

  lemma Decodes()
    ensures Decode(CODE, 0) == Some(LoadTrue) && Decode(CODE, 1) == Some(JumpIfTrue(2)) && Decode(CODE, 6) == Some(PrintTop)
    ensures Decode(CODE, 7) == Some(LoadNil) && Decode(CODE, 8) == Some(Return)
  {
  }

  lemma Effects(A: Arith, consts: seq<Value>, m0: Machine, m1: Machine, m2: Machine, m3: Machine)
    requires |m0.stack| == 1 && m0.out == [] && m1 == m0.Push(Bool(true))
    requires m2 == m0.(out := [Bool(true)]) && m3 == m2.Push(Nil)
    ensures EffectOf(A, consts, LoadTrue, m0) == Go(m1) && EffectOf(A, consts, JumpIfTrue(2), m1) == Hop(m1, 2)
    ensures EffectOf(A, consts, PrintTop, m1) == Go(m2) && EffectOf(A, consts, LoadNil, m2) == Go(m3)
    ensures EffectOf(A, consts, Return, m3) == Finish
  {
    assert m1.(out := m1.out + [m1.Top()]).Drop(1) == m2;
  }

  lemma StepTo(A: Arith, P: Program, c: Config, d: Config)
    requires Step(A, P, c) == d
    ensures Reaches(A, P, c, d)
  {
    ReachesStep(A, P, c);
  }

  lemma NotCorrect(A: Arith, P: Program)
    requires P.code == CODE
    ensures !Correct(A, P, SOURCE)
  {
    hide Meaning, Reaches;
    var script, g: Globals := Nil, map[];
    Means(A, script, g);
    Prints(A, P, script, g);
    if Correct(A, P, SOURCE) {
      var r := Meaning(A, SOURCE, script, g, 0);
      assert Reaches(A, P, Initial(script, g), Halted(r.g, r.out));
      StoppedOnce(A, P, Initial(script, g), Halted(g, [Bool(true)]), Halted(r.g, r.out));
      assert false;
    }
  }

  /** What the compiler emits for the source, step by step: it accepts it, and its code is not correct. */
  method Compiled(A: Arith, constants: seq<Value>, pool: map<Value, nat>) returns (c: C.Compiler)
    requires C.PoolKept(constants, pool)
    ensures c.code == CODE && !Correct(A, Program(c.code, c.constants), SOURCE)
  {
    hide Correct, Described, Encode, C.PoolKept;
    c := new C.Compiler(A, constants, pool);
    CompileOr(c);
    CompileNot(c);
    SmallCodes();
    c.EmitLast(PrintTop);
    c.EmitLast(LoadNil);
    c.EmitLast(Return);
    NotCorrect(A, Program(c.code, c.constants));
  }

  /** true or nil */
  method CompileOr(c: C.Compiler)
    requires c.CodeInv() && c.code == [] && c.tail == []
    modifies c`code, c`opStack, c`tail, c`constants, c`pool
    ensures c.CodeInv() && c.code == [OP_TRUE, OP_JUMP_IF_TRUE, 2, 0, OP_POP, OP_NIL] && c.tail == [LoadNil]
  {
    hide Described, Encode, C.PoolKept, LoadedBy, EncodeAll, SizeAll;
    SmallCodes();
    var ok;
    ghost var load;
    ok, load := c.EmitLoad(Bool(true));
    c.PoolIsValid();
    LoadIs(c.constants, load, Bool(true));
    var endJump := c.EmitJump(OP_JUMP_IF_TRUE);
    ghost var before := c.code;
    c.EmitPop();
    ok, load := c.EmitLoad(Nil);
    c.PoolIsValid();
    LoadIs(c.constants, load, Nil);
    assert c.code == [OP_TRUE, OP_JUMP_IF_TRUE, 0xFF, 0xFF, OP_POP, OP_NIL] && c.tail == [LoadNil];
    NilSize();
    ok := c.PatchJump(endJump);
  }

  /** The operator, folded with the operand that the op stack shows. */
  method CompileNot(c: C.Compiler)
    requires c.CodeInv() && c.code == [OP_TRUE, OP_JUMP_IF_TRUE, 2, 0, OP_POP, OP_NIL] && c.tail == [LoadNil]
    modifies c`code, c`opStack, c`tail, c`constants, c`pool
    ensures c.CodeInv() && c.code == [OP_TRUE, OP_JUMP_IF_TRUE, 2, 0, OP_POP, OP_TRUE]
  {
    hide Described, Encode, C.PoolKept, LoadedBy, EncodeAll, SizeAll, RewriteOf;
    SmallCodes();
    NilSize();
    NotFolds(c.A, c.constants);
    assert LastOf(c.tail, 0) == Some(LoadNil) && LastOf(c.tail, 1) == None && [LoadNil] + [Un(Not)] == [LoadNil, Un(Not)];
    var ok;
    ghost var load;
    ok, load := c.EmitChecked(Un(Not));
    c.PoolIsValid();
    LoadIs(c.constants, load, Bool(true));
  }

  lemma NotFolds(A: Arith, consts: seq<Value>)
    ensures RewriteOf(A, consts, None, Some(LoadNil), Un(Not)) == Fold(2, Bool(true))
  {
  }

  lemma NilSize()
    ensures SizeAll([LoadNil]) == 1 && SizeAll([LoadNil, Un(Not)]) == 2
  {
    assert [LoadNil][1..] == [] && [LoadNil, Un(Not)][1..] == [Un(Not)] && [Un(Not)][1..] == [];
  }

  lemma SmallCodes()
    ensures Encode(LoadTrue) == [OP_TRUE] && Encode(LoadNil) == [OP_NIL] && Encode(PrintTop) == [OP_PRINT]
    ensures Encode(Return) == [OP_RETURN] && Encode(Pop) == [OP_POP] && Encode(Un(Not)) == [OP_NOT]
  {
  }

  /** nil and the booleans have opcodes of their own, and are not in the pool. */
  lemma LoadIs(consts: seq<Value>, load: Instr, v: Value)
    requires LoadsConst(load) && InPool(consts, Some(load)) && LoadedBy(consts, load) == v && PoolValid(consts)
    requires v == Nil || v == Bool(true)
    ensures load == if v == Nil then LoadNil else LoadTrue
  {
  }
}
