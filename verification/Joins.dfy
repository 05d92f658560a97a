/** What the peephole optimizer does to code that a jump arrives in.  Patching the jump of `and` or `or` leaves the op
    stack as it was, so an operation behind it may be rewritten together with the end of the right operand, although the
    jump leads between the two. */
module Joins {
  import opened Types
  import opened Values
  import opened Bytecode
  import opened Machine
  import opened Peephole

  /** The jump of `and` or `or` is taken: a test on the left operand, which is on top of the stack. */
  predicate Taken(jump: Instr, m: Machine)
    requires |m.stack| > 0
  {
    (jump.JumpIfTrue? && !Falsey(m.Top())) || (jump.JumpIfFalse? && Falsey(m.Top()))
  }

  predicate IsExit(i: Instr) {
    i.JumpIfTrue? || i.JumpIfFalse?
  }

  function ExitOff(i: Instr): u16
    requires IsExit(i)
  {
    i.off
  }

  /** The instruction i stands for the window: merged, or the load of the folded value. */
  predicate Replaces(A: Arith, consts: seq<Value>, left: Option<Instr>, right: Option<Instr>, last: Instr, i: Instr)
    requires InPool(consts, left) && InPool(consts, right)
  {
    match RewriteOf(A, consts, left, right, last)
    case Merge(_, j) => i == j
    case Fold(_, v) => LoadsConst(i) && InPool(consts, Some(i)) && LoadedBy(consts, i) == v
    case _ => false
  }

  lemma {:induction false} SkipPast(L: seq<Instr>, K: seq<Instr>, n: nat)
    ensures Skip(L + K, SizeAll(L) + n) == Skip(K, n)
    decreases |L|
  {
    if L == [] {
      assert L + K == K;
    } else {
      assert (L + K)[1..] == L[1..] + K;
      SkipPast(L[1..], K, n);
    }
  }

  /** The jump, where it leads. */
  lemma ExecExit(A: Arith, consts: seq<Value>, jump: Instr, rest: seq<Instr>, m: Machine)
    requires IsExit(jump) && |m.stack| > 0
    ensures ExecList(A, consts, [jump] + rest, m) ==
            if !Taken(jump, m) then ExecList(A, consts, rest, m)
            else if Skip(rest, ExitOff(jump)).None? then Stuck
            else ExecList(A, consts, Skip(rest, ExitOff(jump)).value, m)
  {
    hide ExecList, Skip;
    ExitEffects(A, consts, jump, m);
    if Taken(jump, m) { ExecJump(A, consts, jump, rest, m); } else { ExecCons(A, consts, jump, rest, m); }
  }

  lemma ExitEffects(A: Arith, consts: seq<Value>, jump: Instr, m: Machine)
    requires IsExit(jump) && |m.stack| > 0
    ensures EffectOf(A, consts, jump, m) == if Taken(jump, m) then Hop(m, ExitOff(jump)) else Go(m)
  {
  }

  lemma SkipInto(K: seq<Instr>, W1: seq<Instr>, W2: seq<Instr>)
    ensures Skip(K + (W1 + W2), SizeAll(K) + SizeAll(W1)) == Some(W2)
  {
    SkipPast(K, W1 + W2, SizeAll(W1));
    SkipPast(W1, W2, 0);
  }

  /** The code of `l and r` or `l or r` from its jump on, and an operation behind it; W1 is the part of the rewritten
      window that the jump skips. */
  function Joined(jump: Instr, K: seq<Instr>, W: seq<Instr>): seq<Instr> {
    [jump] + (K + W)
  }

  // ---- On the bytes ----

  /** The list, and the code that follows it, which ends the script. */
  predicate Ends(next: seq<Instr>) {
    AllWellFormed(next) && |next| >= 2 && next[|next| - 2] == LoadNil && next[|next| - 1] == Return
  }

  function Placed(L: seq<Instr>, next: seq<Instr>, consts: seq<Value>): Program
    requires AllWellFormed(L) && AllWellFormed(next)
  {
    Program(EncodeAll(L) + EncodeAll(next), consts)
  }

  /** Whatever code follows, the machine comes to the end of the list in the state that r has, or fails as r does. */
  ghost predicate AlwaysRuns(A: Arith, consts: seq<Value>, L: seq<Instr>, m: Machine, r: ListResult)
    requires AllWellFormed(L)
  {
    forall next: seq<Instr> :: Ends(next) ==> RunsList(A, Placed(L, next, consts), 0, SizeAll(L), m, r)
  }

  /** The top assigned to a slot, and popped. */
  function Stored(m: Machine, y: byte): Machine
    requires y < |m.stack|
  {
    m.(stack := m.stack[y := m.Top()]).Drop(1)
  }

  /** The number of the slot, read as an opcode, happens to assign the top to the slot. */
  predicate SlotActs(A: Arith, consts: seq<Value>, y: byte, m: Machine) {
    var j := Decode([y], 0);
    j.Some? && y < |m.stack| && EffectOf(A, consts, j.value, m) == Go(Stored(m, y))
  }

  lemma ListsRun(A: Arith, consts: seq<Value>, L: seq<Instr>, m: Machine)
    requires AllWellFormed(L)
    ensures AlwaysRuns(A, consts, L, m, ExecList(A, consts, L, m))
  {
    hide ExecList, RunsList, EncodeAll, SizeAll;
    forall next: seq<Instr> | Ends(next)
      ensures RunsList(A, Placed(L, next, consts), 0, SizeAll(L), m, ExecList(A, consts, L, m))
    {
      var P := Placed(L, next, consts);
      assert P.code[0..SizeAll(L)] == EncodeAll(L);
      ListRuns(A, P, 0, L, m);
    }
  }

  /** From q on the code has loads of constants and returns only. */
  predicate Onward(code: seq<byte>, q: nat) {
    forall p :: q <= p < |code| ==> code[p] == OP_CONSTANT || code[p] == OP_NIL || code[p] == OP_RETURN
  }

  lemma OnwardStep(A: Arith, P: Program, q: nat, m: Machine)
    requires Onward(P.code, q)
    ensures var c := Step(A, P, Running(q, m)); (c.Running? && c.ip > q) || c.Halted? || c.Wedged?
  {
  }

  lemma {:induction false} OnwardRuns(A: Arith, P: Program, q: nat, m: Machine, n: nat)
    requires Onward(P.code, q)
    ensures var c := Run(A, P, Running(q, m), n);
            (n == 0 && c == Running(q, m)) || (c.Running? && c.ip > q) || c.Halted? || c.Wedged?
    decreases n
  {
    hide Step;
    if n > 0 {
      OnwardStep(A, P, q, m);
      var c := Step(A, P, Running(q, m));
      if c.Running? { OnwardRuns(A, P, c.ip, c.m, n - 1); } else { StoppedStays(A, P, c, n - 1); }
    }
  }

  /** Where the first step leads past the end, or to it in another state, the end is not reached as it should be. */
  lemma NotReached(A: Arith, P: Program, q: nat, end: nat, m: Machine, m1: Machine, r: ListResult)
    requires Step(A, P, Running(0, m)) == Running(q, m1) && Onward(P.code, q) && 0 < end <= q && !r.Stuck?
    requires q == end ==> r != Ok(m1)
    ensures !RunsList(A, P, 0, end, m, r)
  {
    hide Step;
    var d := if r.Ok? then Running(end, r.m) else Faulted(r.globals, r.out);
    if Reaches(A, P, Running(0, m), d) {
      var n: nat :| Run(A, P, Running(0, m), n) == d;
      assert n > 0;
      OnwardRuns(A, P, q, m1, n - 1);
      assert false;
    }
  }

  const NILS: seq<Instr> := [LoadNil, Return]
  const ZEROS: seq<Instr> := [Constant(0), LoadNil, LoadNil, Return]

  lemma NilBytes()
    ensures Ends(NILS) && EncodeAll(NILS) == [OP_NIL, OP_RETURN]
  {
    assert NILS[1..] == [Return] && NILS[1..][1..] == [];
  }

  lemma ZeroBytes()
    ensures Ends(ZEROS) && EncodeAll(ZEROS) == [OP_CONSTANT, 0, 0, OP_NIL, OP_NIL, OP_RETURN]
  {
    hide EncodeAll;
    NilBytes();
    EncodeOne(Constant(0));
    EncodeOne(LoadNil);
    EncodeAppend([LoadNil], NILS);
    EncodeAppend([Constant(0)], [LoadNil] + NILS);
    assert [Constant(0)] + ([LoadNil] + NILS) == ZEROS;
  }

  /** The first step over a list that begins with a taken jump. */
  lemma JumpStep(A: Arith, P: Program, jump: Instr, rest: seq<Instr>, m: Machine)
    requires IsExit(jump) && |m.stack| > 0 && Taken(jump, m) && AllWellFormed([jump] + rest)
    requires EncodeAll([jump] + rest) <= P.code
    ensures Step(A, P, Running(0, m)) == Running(3 + ExitOff(jump), m)
  {
    hide Step, EncodeAll, Encode, EffectOf, Taken, SizeAll;
    var L := [jump] + rest;
    assert P.code[0..SizeAll(L)] == EncodeAll(L);
    ListAtHead(P.code, 0, L);
    ExitEffects(A, P.consts, jump, m);
    StepAt(A, P, 0, jump, m);
  }

  /** The jump leads to the end of the rewritten code or beyond it: it is as good as what was there exactly when it leads
      to the end and nothing had to be done there. */
  lemma LeadsBeyond(A: Arith, consts: seq<Value>, jump: Instr, K: seq<Instr>, i: Instr, m: Machine, r: ListResult)
    requires IsExit(jump) && |m.stack| > 0 && Taken(jump, m) && AllWellFormed(Joined(jump, K, [i])) && !r.Stuck?
    requires ExitOff(jump) >= SizeAll(K) + Size(i)
    ensures AlwaysRuns(A, consts, Joined(jump, K, [i]), m, r) <==> ExitOff(jump) == SizeAll(K) + Size(i) && r == Ok(m)
  {
    hide Step, EncodeAll, Encode, EffectOf, Taken, SizeAll, RunsList;
    var L := Joined(jump, K, [i]);
    JoinedSize(jump, K, i);
    if ExitOff(jump) == SizeAll(K) + Size(i) && r == Ok(m) {
      forall next: seq<Instr> | Ends(next) ensures RunsList(A, Placed(L, next, consts), 0, SizeAll(L), m, r) {
        JumpStep(A, Placed(L, next, consts), jump, K + [i], m);
        StepReaches(A, Placed(L, next, consts), m, SizeAll(L));
      }
    } else {
      NilBytes();
      var P := Placed(L, NILS, consts);
      JumpStep(A, P, jump, K + [i], m);
      NotReached(A, P, 3 + ExitOff(jump), SizeAll(L), m, m, r);
    }
  }

  lemma StepReaches(A: Arith, P: Program, m: Machine, end: nat)
    requires Step(A, P, Running(0, m)) == Running(end, m)
    ensures RunsList(A, P, 0, end, m, Ok(m))
  {
    hide Step, Reaches;
    ReachesStep(A, P, Running(0, m));
  }

  lemma JoinedSize(jump: Instr, K: seq<Instr>, i: Instr)
    requires IsExit(jump) && AllWellFormed(Joined(jump, K, [i]))
    ensures SizeAll(Joined(jump, K, [i])) == 3 + SizeAll(K) + Size(i)
    ensures WellFormed(jump) && AllWellFormed(K) && WellFormed(i)
    ensures EncodeAll(Joined(jump, K, [i])) == Encode(jump) + EncodeAll(K) + Encode(i)
  {
    hide EncodeAll, Encode, SizeAll;
    var L := Joined(jump, K, [i]);
    assert L[0] == jump && L[1 + |K|] == i && forall j :: 0 <= j < |K| ==> L[1 + j] == K[j];
    EncodeOne(jump);
    EncodeOne(i);
    EncodeAppend(K, [i]);
    EncodeAppend([jump], K + [i]);
  }

  // ---- Into a moved local's operand ----

  /** Decoding a byte that is an instruction by itself does not look further. */
  lemma DecodeByte(code: seq<byte>, q: nat)
    requires q < |code|
    ensures Decode([code[q]], 0).Some? ==> Decode(code, q) == Decode([code[q]], 0) && Size(Decode(code, q).value) == 1
    ensures Decode([code[q]], 0).None? && Decode(code, q).Some? ==> Size(Decode(code, q).value) > 1
    ensures Decode(code, q).Some? && Decode(code, q).value.Loop? && q + 2 < |code| && code[q + 1] == code[q + 2] == 0 ==>
              Decode(code, q).value.off == 0
  {
  }

  /** An instruction of one byte does not jump; a longer one that does not jump back leads further than one byte. */
  lemma StepOn(A: Arith, P: Program, q: nat, m: Machine)
    requires q + 2 < |P.code| && P.code[q + 1] == P.code[q + 2] == 0
    ensures var j := Decode([P.code[q]], 0);
            var c := Step(A, P, Running(q, m));
            if j.Some? then (if EffectOf(A, P.consts, j.value, m).Go?
                             then c == Running(q + 1, EffectOf(A, P.consts, j.value, m).m) else !c.Running?)
            else (c.Running? && c.ip > q + 1) || !c.Running?
  {
    hide Decode, Apply, ApplyUnary;
    DecodeByte(P.code, q);
  }

  lemma LeadsInside(A: Arith, consts: seq<Value>, jump: Instr, K: seq<Instr>, i: Instr, m: Machine)
    requires IsExit(jump) && |m.stack| > 0 && Taken(jump, m) && AllWellFormed(Joined(jump, K, [i])) && i.MoveLocal?
    requires ExitOff(jump) == SizeAll(K) + 2 && i.dst < |m.stack|
    ensures AlwaysRuns(A, consts, Joined(jump, K, [i]), m, Ok(Stored(m, i.dst))) <==> SlotActs(A, consts, i.dst, m)
  {
    hide Step, EncodeAll, Encode, EffectOf, Taken, SizeAll, Decode, RunsList, SlotActs, Joined, Stored, AllWellFormed;
    var L := Joined(jump, K, [i]);
    if SlotActs(A, consts, i.dst, m) {
      forall next: seq<Instr> | Ends(next)
        ensures RunsList(A, Placed(L, next, consts), 0, SizeAll(L), m, Ok(Stored(m, i.dst)))
      {
        InsideActs(A, consts, jump, K, i, m, next);
      }
    } else {
      ZeroBytes();
      InsideFails(A, consts, jump, K, i, m);
    }
  }

  lemma InsideActs(A: Arith, consts: seq<Value>, jump: Instr, K: seq<Instr>, i: Instr, m: Machine, next: seq<Instr>)
    requires IsExit(jump) && |m.stack| > 0 && Taken(jump, m) && AllWellFormed(Joined(jump, K, [i])) && i.MoveLocal?
    requires ExitOff(jump) == SizeAll(K) + 2 && SlotActs(A, consts, i.dst, m) && AllWellFormed(next)
    ensures i.dst < |m.stack|
    ensures RunsList(A, Placed(Joined(jump, K, [i]), next, consts), 0, SizeAll(Joined(jump, K, [i])), m, Ok(Stored(m, i.dst)))
  {
    hide Step, EncodeAll, Encode, EffectOf, Taken, SizeAll, Decode, RunsList, AllWellFormed;
    var P := Placed(Joined(jump, K, [i]), next, consts);
    OperandThere(P.code, jump, K, i, EncodeAll(next));
    JumpStep(A, P, jump, K + [i], m);
    StepByte(A, P, 5 + SizeAll(K), m);
    ActsThere(A, P, 5 + SizeAll(K), m, Stored(m, i.dst));
  }

  lemma InsideFails(A: Arith, consts: seq<Value>, jump: Instr, K: seq<Instr>, i: Instr, m: Machine)
    requires IsExit(jump) && |m.stack| > 0 && Taken(jump, m) && AllWellFormed(Joined(jump, K, [i])) && i.MoveLocal?
    requires ExitOff(jump) == SizeAll(K) + 2 && i.dst < |m.stack| && !SlotActs(A, consts, i.dst, m)
    ensures AllWellFormed(ZEROS) &&
            !RunsList(A, Placed(Joined(jump, K, [i]), ZEROS, consts), 0, SizeAll(Joined(jump, K, [i])), m,
                      Ok(Stored(m, i.dst)))
  {
    hide Step, EncodeAll, Encode, EffectOf, Taken, SizeAll, Decode, RunsList, AllWellFormed;
    ZeroBytes();
    var P := Placed(Joined(jump, K, [i]), ZEROS, consts);
    var q := 5 + SizeAll(K);
    OperandThere(P.code, jump, K, i, EncodeAll(ZEROS));
    JumpStep(A, P, jump, K + [i], m);
    OperandsZero(P.code, q + 1);
    StepOn(A, P, q, m);
    NotReachedInside(A, P, q, m, Stored(m, i.dst));
  }

  lemma OperandsZero(code: seq<byte>, q: nat)
    requires q <= |code| && code[q..] == [OP_CONSTANT, 0, 0, OP_NIL, OP_NIL, OP_RETURN]
    ensures |code| == q + 6 && code[q] == code[q + 1] == 0 && Onward(code, q)
  {
    assert forall p :: q <= p < |code| ==> code[p] == code[q..][p - q];
    assert code[q] == code[q..][0] && code[q + 1] == code[q..][1];
  }

  lemma StepByte(A: Arith, P: Program, q: nat, m: Machine)
    requires q < |P.code| && Decode([P.code[q]], 0).Some?
    requires EffectOf(A, P.consts, Decode([P.code[q]], 0).value, m).Go?
    ensures Step(A, P, Running(q, m)) == Running(q + 1, EffectOf(A, P.consts, Decode([P.code[q]], 0).value, m).m)
  {
    hide Decode, EffectOf;
    DecodeByte(P.code, q);
  }

  lemma OperandThere(code: seq<byte>, jump: Instr, K: seq<Instr>, i: Instr, rest: seq<byte>)
    requires IsExit(jump) && i.MoveLocal? && AllWellFormed(Joined(jump, K, [i]))
    requires code == EncodeAll(Joined(jump, K, [i])) + rest
    ensures var end := SizeAll(Joined(jump, K, [i]));
            end == 6 + SizeAll(K) && end <= |code| && code[end - 1] == i.dst && code[end..] == rest
  {
    hide EncodeAll, SizeAll;
    JoinedSize(jump, K, i);
    assert Encode(i) == [OP_MOVE_LOCAL, i.src, i.dst];
  }

  lemma ActsThere(A: Arith, P: Program, q: nat, m: Machine, m1: Machine)
    requires q > 0 && Step(A, P, Running(0, m)) == Running(q, m) && Step(A, P, Running(q, m)) == Running(q + 1, m1)
    ensures RunsList(A, P, 0, q + 1, m, Ok(m1))
  {
    hide Step, Reaches;
    ReachesStep(A, P, Running(0, m));
    ReachesStep(A, P, Running(q, m));
    ReachesTrans(A, P, Running(0, m), Running(q, m), Running(q + 1, m1));
  }

  lemma NotReachedInside(A: Arith, P: Program, q: nat, m: Machine, m1: Machine)
    requires q > 0 && Step(A, P, Running(0, m)) == Running(q, m) && Onward(P.code, q + 1)
    requires var c := Step(A, P, Running(q, m)); c.Running? ==> c.ip > q && c != Running(q + 1, m1)
    ensures !RunsList(A, P, 0, q + 1, m, Ok(m1))
  {
    hide Step;
    var d := Running(q + 1, m1);
    if Reaches(A, P, Running(0, m), d) {
      var n: nat :| Run(A, P, Running(0, m), n) == d;
      assert n > 0 && Run(A, P, Running(q, m), n - 1) == d;
      assert n > 1;
      var c := Step(A, P, Running(q, m));
      assert Run(A, P, c, n - 2) == d;
      if c.Running? { OnwardRuns(A, P, c.ip, c.m, n - 2); } else { StoppedStays(A, P, c, n - 2); }
      assert false;
    }
  }

  /** What is left of the operation behind the jump changes nothing, and the jump leads to it; or else the jump leads to the
      number of a slot, which as an opcode happens to do what is left. */
  ghost predicate Harmless(A: Arith, consts: seq<Value>, skipped: seq<Instr>, rest: seq<Instr>, i: Instr, m: Machine) {
    if SizeAll(skipped) < Size(i) then i.MoveLocal? && SlotActs(A, consts, i.dst, m)
    else SizeAll(skipped) == Size(i) && ExecList(A, consts, rest, m) == Ok(m)
  }

  /** A rewrite across the end of a join: whatever code follows, the machine does with the rewritten code what the code
      before the rewrite does, exactly when the jump is not taken, or when it is harmless. */
  lemma RewrittenAcross(A: Arith, consts: seq<Value>, jump: Instr, K: seq<Instr>, left: Option<Instr>,
                        right: Option<Instr>, last: Instr, i: Instr, cut: nat, m: Machine)
    requires InPool(consts, left) && InPool(consts, right) && Replaces(A, consts, left, right, last, i)
    requires RewriteFitsHere(A, consts, left, right, last) && 0 < cut < RewriteOf(A, consts, left, right, last).drop
    requires IsExit(jump) && |m.stack| > 0 && AllWellFormed(Joined(jump, K, [i])) && !ExecList(A, consts, K, m).Stuck?
    requires right.Some? && right.value.SetLocal? ==> right.value.i < |m.stack|
    requires right.Some? && right.value.SetLocal? && ExecList(A, consts, K, m).Ok? ==>
               right.value.i < |ExecList(A, consts, K, m).m.stack|
    requires var W := Window(left, right, last, RewriteOf(A, consts, left, right, last).drop);
             && ExitOff(jump) == SizeAll(K) + SizeAll(W[..cut]) && !ExecList(A, consts, Joined(jump, K, W), m).Stuck?
             && (SizeAll(W[..cut]) >= Size(i) || MovedInside(W, cut, i))
    ensures var W := Window(left, right, last, RewriteOf(A, consts, left, right, last).drop);
            AlwaysRuns(A, consts, Joined(jump, K, [i]), m, ExecList(A, consts, Joined(jump, K, W), m)) <==>
            !Taken(jump, m) || Harmless(A, consts, W[..cut], W[cut..], i, m)
  {
    hide ExecList, RewriteOf, EffectOf, LoadedBy, SizeAll, Taken, Joined, AlwaysRuns, SlotActs, AllWellFormed;
    var W := Window(left, right, last, RewriteOf(A, consts, left, right, last).drop);
    assert W[..cut] + W[cut..] == W;
    if Taken(jump, m) {
      JumpsAcross(A, consts, jump, K, W[..cut], W[cut..], m);
      if SizeAll(W[..cut]) >= Size(i) {
        LeadsBeyond(A, consts, jump, K, i, m, ExecList(A, consts, Joined(jump, K, W), m));
      } else {
        StoreRuns(A, consts, W[cut..], m);
        SkippedLoad(W[..cut]);
        LeadsInside(A, consts, jump, K, i, m);
      }
    } else {
      NotTaken(A, consts, K, left, right, last, i, m);
      FallsThrough(A, consts, jump, K, W, m);
      FallsThrough(A, consts, jump, K, [i], m);
      ListsRun(A, consts, Joined(jump, K, [i]), m);
    }
  }

  /** The load of a move is skipped, its store is not. */
  predicate MovedInside(W: seq<Instr>, cut: nat, i: Instr) {
    && i.MoveLocal? && cut == 1 && |W| == 3 && W[0].GetLocal? && W[1] == SetLocal(i.dst) && W[2] == Pop
  }

  lemma StoreRuns(A: Arith, consts: seq<Value>, rest: seq<Instr>, m: Machine)
    requires |rest| == 2 && rest[0].SetLocal? && rest[1] == Pop && rest[0].i < |m.stack|
    ensures ExecList(A, consts, rest, m) == Ok(Stored(m, rest[0].i))
  {
    assert rest == [SetLocal(rest[0].i), Pop];
    MergeSetPop(A, consts, rest[0].i, m);
    SetLocalPopEffect(A, consts, rest[0].i, m);
    ExecOne(A, consts, SetLocalPop(rest[0].i), m);
  }

  lemma SkippedLoad(skipped: seq<Instr>)
    requires |skipped| == 1 && skipped[0].GetLocal?
    ensures SizeAll(skipped) == 2
  {
    assert skipped[1..] == [];
  }

  lemma FallsThrough(A: Arith, consts: seq<Value>, jump: Instr, K: seq<Instr>, W: seq<Instr>, m: Machine)
    requires IsExit(jump) && |m.stack| > 0 && !Taken(jump, m)
    ensures ExecList(A, consts, Joined(jump, K, W), m) == ExecList(A, consts, K + W, m)
  {
    hide ExecList;
    ExecExit(A, consts, jump, K + W, m);
  }

  /** Where the jump of a join leads before the rewrite. */
  lemma JumpsAcross(A: Arith, consts: seq<Value>, jump: Instr, K: seq<Instr>, W1: seq<Instr>, W2: seq<Instr>, m: Machine)
    requires IsExit(jump) && |m.stack| > 0 && Taken(jump, m) && ExitOff(jump) == SizeAll(K) + SizeAll(W1)
    ensures ExecList(A, consts, Joined(jump, K, W1 + W2), m) == ExecList(A, consts, W2, m)
  {
    hide ExecList, Skip, SizeAll, Taken;
    ExecExit(A, consts, jump, K + (W1 + W2), m);
    SkipInto(K, W1, W2);
  }

  lemma NotTaken(A: Arith, consts: seq<Value>, K: seq<Instr>, left: Option<Instr>, right: Option<Instr>, last: Instr,
                 i: Instr, m: Machine)
    requires InPool(consts, left) && InPool(consts, right) && Replaces(A, consts, left, right, last, i)
    requires RewriteFitsHere(A, consts, left, right, last) && !ExecList(A, consts, K, m).Stuck?
    requires right.Some? && right.value.SetLocal? && ExecList(A, consts, K, m).Ok? ==>
               right.value.i < |ExecList(A, consts, K, m).m.stack|
    ensures var W := Window(left, right, last, RewriteOf(A, consts, left, right, last).drop);
            ExecList(A, consts, K + [i], m) == ExecList(A, consts, K + W, m)
  {
    hide ExecList, RewriteOf, EffectOf, LoadedBy;
    RewriteInContext(A, consts, K, left, right, last, m);
    if RewriteOf(A, consts, left, right, last).Fold? {
      ExecAppend(A, consts, K, [i], m);
      var k := ExecList(A, consts, K, m);
      if k.Ok? {
        LoadEffect(A, consts, i, k.m);
        ExecOne(A, consts, i, k.m);
      }
    }
  }

  // ---- In terms of the left operand's value ----

  /** What is left of the operation behind the jump leaves the left operand's value as it is. */
  predicate Idle(A: Arith, consts: seq<Value>, left: Option<Instr>, right: Option<Instr>, last: Instr, cut: nat, m: Machine)
    requires InPool(consts, left) && InPool(consts, right) && |m.stack| > 0
  {
    var v := m.Top();
    match last
    case Un(op) => ApplyUnary(A, op, v) == Some(v)
    case Bin(op) => cut == 1 && Folds(op, left, right) && Apply(A, op, v, LoadedBy(consts, right.value)) == Some(v)
    case _ => false
  }

  lemma UnIdle(A: Arith, consts: seq<Value>, op: UnOp, m: Machine)
    requires |m.stack| > 0
    ensures ExecList(A, consts, [Un(op)], m) == Ok(m) <==> ApplyUnary(A, op, m.Top()) == Some(m.Top())
    ensures !ExecList(A, consts, [Un(op)], m).Stuck?
  {
    hide ApplyUnary;
    var n := m.Drop(1);
    assert n.Push(m.Top()) == m;
    UnEffect(A, consts, op, n, m.Top());
  }

  lemma BinShrinks(A: Arith, consts: seq<Value>, op: BinOp, m: Machine)
    requires |m.stack| > 1
    ensures ExecList(A, consts, [Bin(op)], m) != Ok(m) && !ExecList(A, consts, [Bin(op)], m).Stuck?
  {
    hide Apply;
    var a, b := m.stack[|m.stack| - 2], m.Top();
    var n := m.Drop(2);
    assert n.Push(a).Push(b) == m;
    BinEffect(A, consts, op, n, a, b);
  }

  lemma LoadedBinIdle(A: Arith, consts: seq<Value>, r: Instr, op: BinOp, m: Machine)
    requires |m.stack| > 0 && LoadsConst(r) && InPool(consts, Some(r))
    ensures var L := [r, Bin(op)]; var v := m.Top();
      && (ExecList(A, consts, L, m) == Ok(m) <==> Apply(A, op, v, LoadedBy(consts, r)) == Some(v))
      && !ExecList(A, consts, L, m).Stuck?
  {
    hide Apply, EffectOf, LoadedBy;
    var n, v, c := m.Drop(1), m.Top(), LoadedBy(consts, r);
    assert n.Push(v) == m && [r] + [Bin(op)] == [r, Bin(op)];
    LoadEffect(A, consts, r, m);
    ExecCons(A, consts, r, [Bin(op)], m);
    BinEffect(A, consts, op, n, v, c);
  }

  lemma PopShrinks(A: Arith, consts: seq<Value>, L: seq<Instr>, m: Machine)
    requires |m.stack| > 0 && (L == [Pop] || (|L| == 2 && L[0].SetLocal? && L[0].i < |m.stack| && L[1] == Pop))
    ensures ExecList(A, consts, L, m) != Ok(m) && !ExecList(A, consts, L, m).Stuck?
  {
    if L == [Pop] {
      ExecOne(A, consts, Pop, m);
    } else {
      assert L == [SetLocal(L[0].i), Pop];
      MergeSetPop(A, consts, L[0].i, m);
      SetLocalPopEffect(A, consts, L[0].i, m);
      ExecOne(A, consts, SetLocalPop(L[0].i), m);
    }
  }

  /** The operands of the operation are there, whichever way it is reached. */
  predicate Supplied(right: Option<Instr>, last: Instr, m: Machine) {
    && |m.stack| > 0
    && (last.Bin? ==> |m.stack| > 1)
    && (right.Some? && right.value.SetLocal? ==> right.value.i < |m.stack|)
  }

  lemma RestIdle(A: Arith, consts: seq<Value>, left: Option<Instr>, right: Option<Instr>, last: Instr, cut: nat, m: Machine)
    requires InPool(consts, left) && InPool(consts, right) && Supplied(right, last, m)
    requires RewriteFitsHere(A, consts, left, right, last)
    requires var r := RewriteOf(A, consts, left, right, last); (r.Merge? || r.Fold?) && 0 < cut < r.drop
    ensures var W := Window(left, right, last, RewriteOf(A, consts, left, right, last).drop);
      && !ExecList(A, consts, W[cut..], m).Stuck?
      && (ExecList(A, consts, W[cut..], m) == Ok(m) <==> Idle(A, consts, left, right, last, cut, m))
  {
    hide ExecList, Apply, ApplyUnary, LoadedBy, EffectOf;
    var W := Window(left, right, last, RewriteOf(A, consts, left, right, last).drop);
    match last
    case Un(op) =>
      assert W[cut..] == [Un(op)];
      UnIdle(A, consts, op, m);
    case Bin(op) =>
      if Folds(op, left, right) && cut == 1 {
        assert W[cut..] == [right.value, Bin(op)];
        LoadedBinIdle(A, consts, right.value, op, m);
      } else {
        assert W[cut..] == [Bin(op)];
        BinShrinks(A, consts, op, m);
      }
    case Pop => PopShrinks(A, consts, W[cut..], m);
  }

  /** `not v` is never v, and only some numbers are their own negation. */
  lemma NegationIdle(A: Arith, op: UnOp, v: Value)
    ensures ApplyUnary(A, op, v) == Some(v) <==> op.Negate? && v.Number? && A.neg(v.n) == v.n
  {
  }

  /** What stands behind the jump before the rewrite. */
  ghost function Before(A: Arith, consts: seq<Value>, left: Option<Instr>, right: Option<Instr>, last: Instr): seq<Instr>
    requires InPool(consts, left) && InPool(consts, right) && RewriteFitsHere(A, consts, left, right, last)
    requires !RewriteOf(A, consts, left, right, last).Keep?
  {
    Window(left, right, last, RewriteOf(A, consts, left, right, last).drop)
  }

  /** The jump leads between the first `cut` instructions of the rewritten window and the rest. */
  ghost predicate Crosses(A: Arith, consts: seq<Value>, jump: Instr, K: seq<Instr>, left: Option<Instr>,
                          right: Option<Instr>, last: Instr, cut: nat, m: Machine)
  {
    && InPool(consts, left) && InPool(consts, right) && PoolValid(consts) && IsExit(jump) && AllWellFormed(K)
    && Supplied(right, last, m) && RewriteFitsHere(A, consts, left, right, last)
    && (var r := RewriteOf(A, consts, left, right, last);
        && !r.Keep? && !r.Reject? && 0 < cut < r.drop
        && ExitOff(jump) == SizeAll(K) + SizeAll(Before(A, consts, left, right, last)[..cut]))
    && !ExecList(A, consts, K, m).Stuck?
    && !ExecList(A, consts, Joined(jump, K, Before(A, consts, left, right, last)), m).Stuck?
    && (right.Some? && right.value.SetLocal? && ExecList(A, consts, K, m).Ok? ==>
          right.value.i < |ExecList(A, consts, K, m).m.stack|)
  }

  lemma CrossesFacts(A: Arith, consts: seq<Value>, jump: Instr, K: seq<Instr>, left: Option<Instr>,
                     right: Option<Instr>, last: Instr, i: Instr, cut: nat, m: Machine)
    requires Crosses(A, consts, jump, K, left, right, last, cut, m) && Replaces(A, consts, left, right, last, i)
    ensures RewriteFitsHere(A, consts, left, right, last) && AllWellFormed(Joined(jump, K, [i]))
    ensures right.Some? && right.value.SetLocal? ==> right.value.i < |m.stack|
  {
    hide Apply, ApplyUnary, LoadedBy, ExecList, SizeAll;
    var L := Joined(jump, K, [i]);
    assert forall j :: 0 <= j < |K| ==> L[1 + j] == K[j];
    assert L[0] == jump && L[1 + |K|] == i;
  }

  /** An instruction merged across the end of `and` or `or` does what the operation does, whatever code follows, exactly
      when the jump is not taken; but for the negation of a number that is its own, and for the number of an assigned slot
      that, as an opcode, happens to assign to it. */
  lemma MergedAcross(A: Arith, consts: seq<Value>, jump: Instr, K: seq<Instr>, left: Option<Instr>, right: Option<Instr>,
                     last: Instr, cut: nat, m: Machine)
    requires Crosses(A, consts, jump, K, left, right, last, cut, m) && RewriteOf(A, consts, left, right, last).Merge?
    ensures var i := RewriteOf(A, consts, left, right, last).i;
            && AllWellFormed(Joined(jump, K, [i]))
            && (AlwaysRuns(A, consts, Joined(jump, K, [i]), m,
                           ExecList(A, consts, Joined(jump, K, Before(A, consts, left, right, last)), m)) <==>
                || !Taken(jump, m)
                || (last == Un(Negate) && m.Top().Number? && A.neg(m.Top().n) == m.Top().n)
                || (i.MoveLocal? && cut == 1 && SlotActs(A, consts, i.dst, m)))
  {
    hide ExecList, Apply, LoadedBy, EffectOf, Joined, Taken, RewriteOf, Replaces, Window, SizeAll, AlwaysRuns, SlotActs,
         AllWellFormed;
    var r := RewriteOf(A, consts, left, right, last);
    MergeReplaces(A, consts, left, right, last);
    CrossesFacts(A, consts, jump, K, left, right, last, r.i, cut, m);
    RestIdle(A, consts, left, right, last, cut, m);
    MergeSizes(A, consts, left, right, last, cut);
    RewrittenAcross(A, consts, jump, K, left, right, last, r.i, cut, m);
    if last.Un? { NegationIdle(A, last.uop, m.Top()); }
  }

  /** A folded operation likewise; but where it would not change the left operand's value, and the load is as long as
      what the jump skips. */
  lemma FoldedAcross(A: Arith, consts: seq<Value>, jump: Instr, K: seq<Instr>, left: Option<Instr>, right: Option<Instr>,
                     last: Instr, load: Instr, cut: nat, m: Machine)
    requires Crosses(A, consts, jump, K, left, right, last, cut, m) && RewriteOf(A, consts, left, right, last).Fold?
    requires Replaces(A, consts, left, right, last, load)
    ensures var W := Before(A, consts, left, right, last);
            && AllWellFormed(Joined(jump, K, [load]))
            && (AlwaysRuns(A, consts, Joined(jump, K, [load]), m, ExecList(A, consts, Joined(jump, K, W), m)) <==>
                !Taken(jump, m) || (SizeAll(W[..cut]) == Size(load) && Idle(A, consts, left, right, last, cut, m)))
  {
    hide ExecList, Apply, ApplyUnary, LoadedBy, EffectOf, Joined, Taken, RewriteOf, Replaces, Window, SizeAll, AlwaysRuns,
         SlotActs, AllWellFormed;
    CrossesFacts(A, consts, jump, K, left, right, last, load, cut, m);
    RestIdle(A, consts, left, right, last, cut, m);
    FoldSizes(A, consts, left, right, last, load, cut);
    RewrittenAcross(A, consts, jump, K, left, right, last, load, cut, m);
  }

  lemma MergeReplaces(A: Arith, consts: seq<Value>, left: Option<Instr>, right: Option<Instr>, last: Instr)
    requires InPool(consts, left) && InPool(consts, right) && RewriteOf(A, consts, left, right, last).Merge?
    ensures Replaces(A, consts, left, right, last, RewriteOf(A, consts, left, right, last).i)
    ensures last.Bin? ==> !Folds(last.op, left, right)
  {
    hide Apply, ApplyUnary, LoadedBy;
  }

  /** A merged instruction is as long as what the jump skips, but for a move. */
  lemma MergeSizes(A: Arith, consts: seq<Value>, left: Option<Instr>, right: Option<Instr>, last: Instr, cut: nat)
    requires InPool(consts, left) && InPool(consts, right) && RewriteOf(A, consts, left, right, last).Merge?
    requires RewriteFitsHere(A, consts, left, right, last) && 0 < cut < RewriteOf(A, consts, left, right, last).drop
    ensures var i := RewriteOf(A, consts, left, right, last).i;
            var W := Before(A, consts, left, right, last);
            if !i.MoveLocal? then SizeAll(W[..cut]) == Size(i)
            else if cut == 1 then MovedInside(W, cut, i) && SizeAll(W[..cut]) < Size(i)
            else SizeAll(W[..cut]) > Size(i)
    ensures RewriteOf(A, consts, left, right, last).i.MoveLocal? ==> last == Pop
  {
    hide Apply, ApplyUnary, LoadedBy;
    var r := RewriteOf(A, consts, left, right, last);
    if r.drop == 2 {
      assert Window(left, right, last, 2)[..1] == [right.value];
      assert [right.value][1..] == [];
    } else if cut == 1 {
      assert Window(left, right, last, 3)[..1] == [left.value];
      assert [left.value][1..] == [];
    } else {
      assert Window(left, right, last, 3)[..2] == [left.value, right.value];
      assert [left.value, right.value][1..] == [right.value] && [right.value][1..] == [];
    }
  }

  /** The load of a folded value is not longer than what the jump skips. */
  lemma FoldSizes(A: Arith, consts: seq<Value>, left: Option<Instr>, right: Option<Instr>, last: Instr, load: Instr,
                  cut: nat)
    requires InPool(consts, left) && InPool(consts, right) && RewriteOf(A, consts, left, right, last).Fold?
    requires RewriteFitsHere(A, consts, left, right, last) && 0 < cut < RewriteOf(A, consts, left, right, last).drop
    requires Replaces(A, consts, left, right, last, load) && PoolValid(consts)
    ensures SizeAll(Before(A, consts, left, right, last)[..cut]) >= Size(load)
  {
    hide Apply, ApplyUnary, LoadedBy;
    var W := Before(A, consts, left, right, last);
    var first := if last.Bin? then left.value else right.value;
    assert W[0] == first;
    FirstSize(W, cut);
    LoadKind(consts, load);
    if last.Bin? {
      BinaryKind(A, last.op, LoadedBy(consts, left.value), LoadedBy(consts, right.value));
    } else {
      UnaryKind(A, last.uop, LoadedBy(consts, right.value));
      if last.uop.Negate? { NegatedKind(A, consts, right.value, last.uop); }
    }
  }

  /** Only numbers have a negation, and they are in the pool. */
  lemma NegatedKind(A: Arith, consts: seq<Value>, r: Instr, op: UnOp)
    requires LoadsConst(r) && InPool(consts, Some(r)) && op.Negate? && ApplyUnary(A, op, LoadedBy(consts, r)).Some?
    ensures r.Constant?
  {
  }

  lemma FirstSize(W: seq<Instr>, cut: nat)
    requires 0 < cut <= |W|
    ensures SizeAll(W[..cut]) >= Size(W[0])
  {
    assert W[..cut][0] == W[0];
  }
}
