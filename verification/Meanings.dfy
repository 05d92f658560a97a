/** What the instructions of programs with calls mean.  On those that the machine over bytes has too, the two go in step;
    calls pass arguments and return results, and closures share cells. */
module Meanings {
  import opened Types
  import opened Values
  import opened Calls
  import B = Bytecode
  import M = Machine
  import U = Upvalues

  // ---- Scripts without closures ----

  /** The values on the stack, from the bottom. */
  ghost function Shows(v: U.View): seq<Value>
    requires U.Proper(v)
  {
    seq(|v.slots|, i requires 0 <= i < |v.slots| => v.store[v.slots[i]])
  }

  /** The two instructions are the same, but for where they are and where they jump to. */
  predicate Same(b: B.Instr, consts: seq<Value>, i: Instr) {
    match b
    case Constant(k) => k < |consts| && i == Constant(consts[k])
    case LoadNil => i == Constant(Nil)
    case LoadTrue => i == Constant(Bool(true))
    case LoadFalse => i == Constant(Bool(false))
    case GetLocal(x) => i == GetLocal(x)
    case SetLocal(x) => i == SetLocal(x)
    case Bin(op) => i == Bin(op)
    case Un(op) => i == Un(op)
    case Pop => i == PopCount(1)
    case PopN(n) => i == PopCount(n)
    case PrintTop => i == Print
    case Jump(_) => i.Jump?
    case Loop(_) => i.Jump?
    case JumpIfFalsePop(_) => i.JumpIfFalsePop?
    case Return => i == Return
    case _ => false
  }

  /** The instruction behind, and the target of a jump, stand where the bytes say. */
  predicate Joined(b: B.Instr, i: Instr, at: seq<nat>, p: nat)
    requires p < |at|
  {
    && (Falls(i) ==> p + 1 < |at| && at[p + 1] == at[p] + B.Size(b))
    && (Branches(i) ==>
          i.target < |at| &&
          if b.Loop? then at[i.target] + b.off == at[p] + B.Size(b)
          else (b.Jump? || b.JumpIfFalsePop?) && at[i.target] == at[p] + B.Size(b) + b.off)
  }

  /** The bytes are those of the instructions, of which the p-th begins at at[p]. */
  ghost predicate Disassembles(P: M.Program, code: seq<Instr>, at: seq<nat>) {
    && |at| == |code| > 0 && at[0] == 0
    && forall p :: 0 <= p < |code| ==>
         && B.Decode(P.code, at[p]).Some?
         && Same(B.Decode(P.code, at[p]).value, P.consts, code[p])
         && Joined(B.Decode(P.code, at[p]).value, code[p], at, p)
  }

  /** A state of the byte machine and one of a program with calls that is in its script. */
  ghost predicate InStep(c: M.Config, r: Ref, at: seq<nat>) {
    match c
    case Running(ip, m) =>
      && r.status.Going? && U.Proper(r.view) && Shows(r.view) == m.stack && r.out == m.out
      && |r.frames| == 1 && r.frames[0].f == 0 && r.frames[0].base == 0 == r.frames[0].extra
      && r.frames[0].pc < |at| && at[r.frames[0].pc] == ip
    case Faulted(_, out) => r.status.Failed? && r.out == out
    case Halted(_, out) => r.status.Done? && r.out == out
    case Wedged => true
  }

  /** The two take the same step. */
  lemma StepInStep(A: Arith, P: M.Program, fs: seq<Function>, blind: bool, at: seq<nat>, c: M.Config, r: Ref)
    requires fs != [] && Disassembles(P, fs[0].code, at) && InStep(c, r, at)
    ensures InStep(M.Step(A, P, c), Step(A, fs, blind, r), at)
  {
    hide B.Decode, B.Size, M.EffectOf, Meaning, Joined, Same;
    if c.Running? {
      var p := r.frames[0].pc;
      var b, i := B.Decode(P.code, c.ip).value, fs[0].code[p];
      assert Seen(r, blind) == r.frames[0];
      if i.Call? || i.Closure? || i.GetUpvalue? || i.SetUpvalue? || i.CloseUpvalue? {
        NotBoth(b, P.consts, i);
      } else if i.Return? {
        ReturnInStep(A, P, fs, b, at, c.ip, c.m, r);
      } else if Branches(i) {
        JumpInStep(A, P, fs, b, i, at, c.ip, c.m, r);
      } else {
        match i
        case Constant(_) => ConstantInStep(A, P, fs, b, i, at, c.ip, c.m, r);
        case GetLocal(_) => GetInStep(A, P, fs, b, i, at, c.ip, c.m, r);
        case SetLocal(_) => SetInStep(A, P, fs, b, i, at, c.ip, c.m, r);
        case Bin(_) => BinInStep(A, P, fs, b, i, at, c.ip, c.m, r);
        case Un(_) => UnInStep(A, P, fs, b, i, at, c.ip, c.m, r);
        case Print => PrintInStep(A, P, fs, b, i, at, c.ip, c.m, r);
        case PopCount(_) => PopInStep(A, P, fs, b, i, at, c.ip, c.m, r);
      }
    }
  }

  lemma NotBoth(b: B.Instr, consts: seq<Value>, i: Instr)
    requires Same(b, consts, i)
    ensures !(i.Call? || i.Closure? || i.GetUpvalue? || i.SetUpvalue? || i.CloseUpvalue?)
  {
  }

  lemma ReturnInStep(A: Arith, P: M.Program, fs: seq<Function>, b: B.Instr, at: seq<nat>, ip: nat, m: M.Machine, r: Ref)
    requires InStep(M.Running(ip, m), r, at) && Same(b, P.consts, Return)
    ensures InStep(M.After(M.EffectOf(A, P.consts, b, m), ip + B.Size(b), m), Meaning(A, fs, r, r.frames[0], Return), at)
  {
    hide B.Size;
  }

  lemma JumpInStep(A: Arith, P: M.Program, fs: seq<Function>, b: B.Instr, i: Instr, at: seq<nat>, ip: nat, m: M.Machine,
                   r: Ref)
    requires InStep(M.Running(ip, m), r, at) && Same(b, P.consts, i) && Joined(b, i, at, r.frames[0].pc) && Branches(i)
    ensures InStep(M.After(M.EffectOf(A, P.consts, b, m), ip + B.Size(b), m), Meaning(A, fs, r, r.frames[0], i), at)
  {
    hide B.Size;
    if |m.stack| > 0 { TopShown(r.view); }
  }

  lemma TopShown(v: U.View)
    requires U.Proper(v) && |v.slots| > 0
    ensures var n := |v.slots| - 1;
            && U.Proper(U.Cut(v, n)) && Shows(U.Cut(v, n)) == Shows(v)[..n] && Shows(v)[n] == v.store[v.slots[n]]
  {
  }

  lemma InStepFacts(at: seq<nat>, ip: nat, m: M.Machine, r: Ref)
    requires InStep(M.Running(ip, m), r, at)
    ensures r.status.Going? && U.Proper(r.view) && Shows(r.view) == m.stack && |m.stack| == |r.view.slots| && r.out == m.out
    ensures |r.frames| == 1 && r.frames[0].f == 0 == r.frames[0].base == r.frames[0].extra && r.frames[0].pc < |at|
    ensures at[r.frames[0].pc] == ip
    ensures forall n: nat :: n <= |m.stack| ==> r.HasTop(n)
    ensures forall n: nat :: n < |m.stack| ==> r.Peek(n) == m.stack[|m.stack| - 1 - n]
    ensures forall n: nat :: n < |m.stack| ==>
              r.view.slots[n] in r.view.store && r.view.store[r.view.slots[n]] == m.stack[n]
  {
  }

  /** Both go on to the instruction behind, or both stop. */
  lemma Onward(at: seq<nat>, ip: nat, m: M.Machine, r: Ref, next: nat, m1: M.Machine, r1: Ref)
    requires InStep(M.Running(ip, m), r, at) && r1 == r.(view := r1.view, out := r1.out).At(r.frames[0].pc + 1)
    requires r.frames[0].pc + 1 < |at| && at[r.frames[0].pc + 1] == next
    requires U.Proper(r1.view) && Shows(r1.view) == m1.stack && r1.out == m1.out
    ensures InStep(M.Running(next, m1), r1, at)
  {
  }

  lemma FailsInStep(at: seq<nat>, ip: nat, m: M.Machine, r: Ref)
    requires InStep(M.Running(ip, m), r, at)
    ensures InStep(M.Faulted(m.globals, m.out), r.Ends(Failed), at) && InStep(M.Wedged, r.Ends(Stuck), at)
  {
  }

  lemma JoinedOn(b: B.Instr, i: Instr, at: seq<nat>, p: nat)
    requires p < |at| && Joined(b, i, at, p) && Falls(i)
    ensures p + 1 < |at| && at[p + 1] == at[p] + B.Size(b)
  {
    hide B.Size;
  }

  /** What of the byte machine an instruction can be. */
  lemma SameKind(b: B.Instr, consts: seq<Value>, i: Instr)
    requires Same(b, consts, i)
    ensures i.GetLocal? ==> b.GetLocal? && b.i == i.slot
    ensures i.SetLocal? ==> b.SetLocal? && b.i == i.slot
    ensures i.Bin? ==> b == B.Bin(i.op)
    ensures i.Un? ==> b == B.Un(i.uop)
    ensures i.Print? ==> b.PrintTop?
    ensures i.PopCount? ==> (b.Pop? && i.n == 1) || (b.PopN? && b.n == i.n)
    ensures i.Constant? ==> b.Constant? || b.LoadNil? || b.LoadTrue? || b.LoadFalse?
  {
  }

  lemma ConstantInStep(A: Arith, P: M.Program, fs: seq<Function>, b: B.Instr, i: Instr, at: seq<nat>, ip: nat, m: M.Machine,
    r: Ref)
    requires InStep(M.Running(ip, m), r, at) && Same(b, P.consts, i) && Joined(b, i, at, r.frames[0].pc)
    requires i.Constant?
    ensures InStep(M.After(M.EffectOf(A, P.consts, b, m), ip + B.Size(b), m), Meaning(A, fs, r, r.frames[0], i), at)
  {
    hide InStep, U.Proper, Shows, B.Size, Apply, ApplyUnary;
    InStepFacts(at, ip, m, r);
    var r1 := Meaning(A, fs, r, r.frames[0], i);
    PushShown(r.view, i.v);
    Onward(at, ip, m, r, ip + B.Size(b), m.Push(i.v), r1);
  }

  lemma GetInStep(A: Arith, P: M.Program, fs: seq<Function>, b: B.Instr, i: Instr, at: seq<nat>, ip: nat, m: M.Machine,
    r: Ref)
    requires InStep(M.Running(ip, m), r, at) && Same(b, P.consts, i) && Joined(b, i, at, r.frames[0].pc)
    requires i.GetLocal?
    ensures InStep(M.After(M.EffectOf(A, P.consts, b, m), ip + B.Size(b), m), Meaning(A, fs, r, r.frames[0], i), at)
  {
    hide Same, Joined, InStep, U.Proper, Shows, B.Size, Apply, ApplyUnary;
    InStepFacts(at, ip, m, r);
    SameKind(b, P.consts, i);
    JoinedOn(b, i, at, r.frames[0].pc);
    FailsInStep(at, ip, m, r);
    var r1 := Meaning(A, fs, r, r.frames[0], i);
    if i.slot < |m.stack| {
      PushShown(r.view, m.stack[i.slot]);
      Onward(at, ip, m, r, ip + B.Size(b), m.Push(m.stack[i.slot]), r1);
    }
  }

  lemma SetInStep(A: Arith, P: M.Program, fs: seq<Function>, b: B.Instr, i: Instr, at: seq<nat>, ip: nat, m: M.Machine,
    r: Ref)
    requires InStep(M.Running(ip, m), r, at) && Same(b, P.consts, i) && Joined(b, i, at, r.frames[0].pc)
    requires i.SetLocal?
    ensures InStep(M.After(M.EffectOf(A, P.consts, b, m), ip + B.Size(b), m), Meaning(A, fs, r, r.frames[0], i), at)
  {
    hide Same, Joined, InStep, U.Proper, Shows, B.Size, Apply, ApplyUnary;
    InStepFacts(at, ip, m, r);
    SameKind(b, P.consts, i);
    JoinedOn(b, i, at, r.frames[0].pc);
    FailsInStep(at, ip, m, r);
    var r1 := Meaning(A, fs, r, r.frames[0], i);
    if i.slot < |m.stack| {
      SetShown(r.view, i.slot, m.Top());
      Onward(at, ip, m, r, ip + B.Size(b), m.(stack := m.stack[i.slot := m.Top()]), r1);
    }
  }

  lemma BinInStep(A: Arith, P: M.Program, fs: seq<Function>, b: B.Instr, i: Instr, at: seq<nat>, ip: nat, m: M.Machine,
    r: Ref)
    requires InStep(M.Running(ip, m), r, at) && Same(b, P.consts, i) && Joined(b, i, at, r.frames[0].pc)
    requires i.Bin?
    ensures InStep(M.After(M.EffectOf(A, P.consts, b, m), ip + B.Size(b), m), Meaning(A, fs, r, r.frames[0], i), at)
  {
    hide Same, Joined, InStep, U.Proper, Shows, B.Size, Apply, ApplyUnary;
    InStepFacts(at, ip, m, r);
    SameKind(b, P.consts, i);
    JoinedOn(b, i, at, r.frames[0].pc);
    FailsInStep(at, ip, m, r);
    var r1 := Meaning(A, fs, r, r.frames[0], i);
    if |m.stack| >= 2 && Apply(A, i.op, m.stack[|m.stack| - 2], m.Top()).Some? {
      var x := Apply(A, i.op, m.stack[|m.stack| - 2], m.Top());
      ComputedShown(r.view, 2, x);
      Onward(at, ip, m, r, ip + B.Size(b), m.Drop(2).Push(x.value), r1);
    }
  }

  lemma UnInStep(A: Arith, P: M.Program, fs: seq<Function>, b: B.Instr, i: Instr, at: seq<nat>, ip: nat, m: M.Machine,
    r: Ref)
    requires InStep(M.Running(ip, m), r, at) && Same(b, P.consts, i) && Joined(b, i, at, r.frames[0].pc)
    requires i.Un?
    ensures InStep(M.After(M.EffectOf(A, P.consts, b, m), ip + B.Size(b), m), Meaning(A, fs, r, r.frames[0], i), at)
  {
    hide Same, Joined, InStep, U.Proper, Shows, B.Size, Apply, ApplyUnary;
    InStepFacts(at, ip, m, r);
    SameKind(b, P.consts, i);
    JoinedOn(b, i, at, r.frames[0].pc);
    FailsInStep(at, ip, m, r);
    var r1 := Meaning(A, fs, r, r.frames[0], i);
    if |m.stack| >= 1 && ApplyUnary(A, i.uop, m.Top()).Some? {
      var x := ApplyUnary(A, i.uop, m.Top());
      ComputedShown(r.view, 1, x);
      Onward(at, ip, m, r, ip + B.Size(b), m.Drop(1).Push(x.value), r1);
    }
  }

  lemma PrintInStep(A: Arith, P: M.Program, fs: seq<Function>, b: B.Instr, i: Instr, at: seq<nat>, ip: nat, m: M.Machine,
    r: Ref)
    requires InStep(M.Running(ip, m), r, at) && Same(b, P.consts, i) && Joined(b, i, at, r.frames[0].pc)
    requires i.Print?
    ensures InStep(M.After(M.EffectOf(A, P.consts, b, m), ip + B.Size(b), m), Meaning(A, fs, r, r.frames[0], i), at)
  {
    hide Same, Joined, InStep, U.Proper, Shows, B.Size, Apply, ApplyUnary;
    InStepFacts(at, ip, m, r);
    SameKind(b, P.consts, i);
    JoinedOn(b, i, at, r.frames[0].pc);
    FailsInStep(at, ip, m, r);
    var r1 := Meaning(A, fs, r, r.frames[0], i);
    if |m.stack| >= 1 {
      CutShown(r.view, 1);
      Onward(at, ip, m, r, ip + B.Size(b), m.(out := m.out + [m.Top()]).Drop(1), r1);
    }
  }

  lemma PopInStep(A: Arith, P: M.Program, fs: seq<Function>, b: B.Instr, i: Instr, at: seq<nat>, ip: nat, m: M.Machine,
    r: Ref)
    requires InStep(M.Running(ip, m), r, at) && Same(b, P.consts, i) && Joined(b, i, at, r.frames[0].pc)
    requires i.PopCount?
    ensures InStep(M.After(M.EffectOf(A, P.consts, b, m), ip + B.Size(b), m), Meaning(A, fs, r, r.frames[0], i), at)
  {
    hide Same, Joined, InStep, U.Proper, Shows, B.Size, Apply, ApplyUnary;
    InStepFacts(at, ip, m, r);
    SameKind(b, P.consts, i);
    JoinedOn(b, i, at, r.frames[0].pc);
    FailsInStep(at, ip, m, r);
    var r1 := Meaning(A, fs, r, r.frames[0], i);
    if |m.stack| >= i.n {
      CutShown(r.view, i.n);
      Onward(at, ip, m, r, ip + B.Size(b), m.Drop(i.n), r1);
    }
  }

  lemma PushShown(v: U.View, x: Value)
    requires U.Proper(v)
    ensures U.Proper(U.Pushed(v, x)) && Shows(U.Pushed(v, x)) == Shows(v) + [x]
  {
  }

  lemma SetShown(v: U.View, slot: nat, x: Value)
    requires U.Proper(v) && slot < |v.slots|
    ensures U.Proper(U.CellSet(v, v.slots[slot], x)) && Shows(U.CellSet(v, v.slots[slot], x)) == Shows(v)[slot := x]
  {
  }

  lemma CutShown(v: U.View, n: nat)
    requires U.Proper(v) && n <= |v.slots|
    ensures U.Proper(U.Cut(v, |v.slots| - n)) && Shows(U.Cut(v, |v.slots| - n)) == Shows(v)[..|v.slots| - n]
  {
  }

  lemma ComputedShown(v: U.View, n: nat, x: Option<Value>)
    requires U.Proper(v) && n <= |v.slots|
    ensures U.Proper(U.Cut(v, |v.slots| - n))
    ensures x.Some? ==> U.Proper(U.Pushed(U.Cut(v, |v.slots| - n), x.value)) &&
                        Shows(U.Pushed(U.Cut(v, |v.slots| - n), x.value)) == Shows(v)[..|v.slots| - n] + [x.value]
  {
    CutShown(v, n);
    if x.Some? { PushShown(U.Cut(v, |v.slots| - n), x.value); }
  }

  /** A script that needs no closures runs as its bytes do: the same values on the stack, the same output, the same end. */
  lemma {:induction false} RunInStep(A: Arith, P: M.Program, fs: seq<Function>, blind: bool, at: seq<nat>, c: M.Config, r: Ref,
                                     k: nat)
    requires fs != [] && Disassembles(P, fs[0].code, at) && InStep(c, r, at)
    ensures InStep(M.Run(A, P, c, k), Run(A, fs, blind, r, k), at)
  {
    hide M.Step, Step, Disassembles, InStep;
    if k > 0 {
      RunInStep(A, P, fs, blind, at, c, r, k - 1);
      StepInStep(A, P, fs, blind, at, M.Run(A, P, c, k - 1), Run(A, fs, blind, r, k - 1));
      M.RunSplit(A, P, c, k - 1, 1);
      assert M.Run(A, P, M.Run(A, P, c, k - 1), 1) == M.Step(A, P, M.Run(A, P, c, k - 1));
    }
  }

  lemma StartInStep(at: seq<nat>, globals: map<Text, Value>)
    requires |at| > 0 && at[0] == 0
    ensures InStep(M.Running(0, M.Machine([Object(0)], globals, [])), Start(), at)
  {
    assert Start().view == U.View([0], map[0 := Object(0)], 1);
    assert Shows(Start().view) == [Object(0)];
  }

  // ---- Calls ----

  /** A call: the callee begins with its closure in slot 0 and argument i in slot i + 1, nil where there is none; nothing
      below it has changed, and the caller will go on behind the call. */
  lemma CallPasses(A: Arith, fs: seq<Function>, blind: bool, r: Ref, argCount: nat, id: nat)
    requires U.Proper(r.view) && Next(fs, r) == Some(Call(argCount)) && argCount < |r.view.slots|
    requires Shows(r.view)[|r.view.slots| - argCount - 1] == Object(id) && id < |r.closures| && r.closures[id].f < |fs|
    ensures var r1, f := Step(A, fs, blind, r), r.closures[id].f; var base := |r.view.slots| - argCount - 1;
      && U.Proper(r1.view) && r1.status.Going? && r1.out == r.out && r1.closures == r.closures
      && |r1.frames| == |r.frames| + 1 && r1.frames[..|r.frames|] == r.At(r.frames[|r.frames| - 1].pc + 1).frames
      && r1.frames[|r.frames|].f == f && r1.frames[|r.frames|].pc == 0 && r1.frames[|r.frames|].base == base
      && r1.frames[|r.frames|].cells == r.closures[id].cells
      && |r1.view.slots| >= base + 1 + fs[f].arity
      && Shows(r1.view)[..base + 1] == Shows(r.view)[..base + 1]
      && forall i :: base < i <= base + fs[f].arity ==>
           Shows(r1.view)[i] == if i <= base + argCount then Shows(r.view)[i] else Nil
  {
    hide Arguments, Shows, U.Proper;
    var f := fs[r.closures[id].f];
    HasAll(r);
    ShowsTop(r, argCount);
    ArgumentsShow(r.view, argCount, f.arity);
    var r1, base := Step(A, fs, blind, r), |r.view.slots| - argCount - 1;
    HasAll(r1);
    assert Shows(r1.view)[..base + 1] == Shows(r.view)[..base + 1];
  }

  /** What is no closure cannot be called: the run fails. */
  lemma CallFails(A: Arith, fs: seq<Function>, blind: bool, r: Ref, argCount: nat)
    requires U.Proper(r.view) && Next(fs, r) == Some(Call(argCount)) && argCount < |r.view.slots|
    requires !Shows(r.view)[|r.view.slots| - argCount - 1].Object?
    ensures var r1 := Step(A, fs, blind, r); r1.status.Failed? && r1.out == r.out
  {
    hide Shows, U.Proper;
    ShowsTop(r, argCount);
  }

  lemma ArgumentsShow(v: U.View, argCount: nat, arity: nat)
    requires U.Proper(v) && argCount <= |v.slots|
    ensures U.Proper(Arguments(v, argCount, arity))
    ensures |Arguments(v, argCount, arity).slots| == |v.slots| + if argCount < arity then arity - argCount else 0
    ensures forall i :: 0 <= i < |v.slots| - argCount + arity ==>
              Shows(Arguments(v, argCount, arity))[i] == if i < |v.slots| then Shows(v)[i] else Nil
  {
    hide Padded, Cleared, Shows, U.Proper;
    if argCount <= arity { PaddedShows(v, arity - argCount); } else { ClearedShows(v, argCount - arity); }
  }

  lemma HasAll(r: Ref)
    requires U.Proper(r.view)
    ensures forall n: nat :: n <= |r.view.slots| ==> r.HasTop(n)
    ensures |Shows(r.view)| == |r.view.slots|
  {
  }

  lemma ShowsTop(r: Ref, n: nat)
    requires U.Proper(r.view) && n < |r.view.slots|
    ensures r.HasTop(n + 1) && r.Peek(n) == Shows(r.view)[|r.view.slots| - 1 - n]
  {
  }

  lemma {:induction false} PaddedShows(v: U.View, n: nat)
    requires U.Proper(v)
    ensures U.Proper(Padded(v, n)) && |Padded(v, n).slots| == |v.slots| + n
    ensures forall i :: 0 <= i < |v.slots| + n ==> Shows(Padded(v, n))[i] == if i < |v.slots| then Shows(v)[i] else Nil
    decreases n
  {
    if n > 0 {
      PushShown(v, Nil);
      PaddedShows(U.Pushed(v, Nil), n - 1);
    }
  }

  lemma {:induction false} ClearedShows(v: U.View, n: nat)
    requires U.Proper(v) && n <= |v.slots|
    ensures U.Proper(Cleared(v, n))
    ensures forall i :: 0 <= i < |v.slots| ==> Shows(Cleared(v, n))[i] == if i < |v.slots| - n then Shows(v)[i] else Nil
  {
    if n > 0 {
      ClearedShows(v, n - 1);
      SetShown(Cleared(v, n - 1), |v.slots| - n, Nil);
    }
  }

  /** A return: the caller finds the result where the callee's closure was, and all below as it was. */
  lemma ReturnGives(A: Arith, fs: seq<Function>, blind: bool, r: Ref)
    requires U.Proper(r.view) && Next(fs, r) == Some(Return) && |r.frames| > 1
    requires r.frames[|r.frames| - 1].base < |r.view.slots|
    ensures var r1, n := Step(A, fs, blind, r), |r.view.slots|; var base := r.frames[|r.frames| - 1].base;
      && U.Proper(r1.view) && r1.status.Going? && r1.out == r.out && r1.closures == r.closures
      && r1.frames == r.frames[..|r.frames| - 1] && |r1.view.slots| == base + 1
      && r1.view.slots[..base] == r.view.slots[..base]
      && Shows(r1.view) == Shows(r.view)[..base] + [Shows(r.view)[n - 1]]
  {
    hide Shows, U.Proper;
    HasAll(r);
    ShowsTop(r, 0);
    var base := r.frames[|r.frames| - 1].base;
    CutShown(r.view, |r.view.slots| - base);
    PushShown(U.Cut(r.view, base), r.Peek(0));
  }

  // ---- Closures ----

  /** A new closure is on the stack, and holds the cells of the variables it captures: of the function that runs, its own
      slot included, or of that function's closure. */
  lemma ClosureHolds(A: Arith, fs: seq<Function>, r: Ref, f: nat, cs: seq<(bool, nat)>)
    requires U.Proper(r.view) && Next(fs, r) == Some(Closure(f, cs)) && r.frames[|r.frames| - 1].extra == 0
    requires forall j :: 0 <= j < |cs| ==>
               if cs[j].0 then r.frames[|r.frames| - 1].base + cs[j].1 <= |r.view.slots|
               else cs[j].1 < |r.frames[|r.frames| - 1].cells|
    ensures var r1, fr, n := Step(A, fs, false, r), r.frames[|r.frames| - 1], |r.view.slots|;
      && U.Proper(r1.view) && Shows(r1.view) == Shows(r.view) + [Object(|r.closures|)]
      && |r1.closures| == |r.closures| + 1 && r1.closures[..|r.closures|] == r.closures
      && r1.closures[|r.closures|].f == f && |r1.closures[|r.closures|].cells| == |cs|
      && forall j :: 0 <= j < |cs| ==>
           r1.closures[|r.closures|].cells[j] == if cs[j].0 then r1.view.slots[fr.base + cs[j].1] else fr.cells[cs[j].1]
  {
    hide Shows, U.Proper;
    PushShown(r.view, Object(|r.closures|));
    var made := U.Pushed(r.view, Object(|r.closures|));
    forall j | 0 <= j < |cs| ensures CellOf(fs, made, r.frames[|r.frames| - 1], cs[j]).Some? { }
  }

  /** Reading an upvalue pushes what its cell holds, and assigning to it changes that cell alone; so a variable and all that
      captured it are one. */
  lemma UpvaluesShare(A: Arith, fs: seq<Function>, blind: bool, r: Ref, index: nat)
    requires U.Proper(r.view) && Next(fs, r).Some? && index < |r.frames[|r.frames| - 1].cells|
    requires r.frames[|r.frames| - 1].cells[index] in r.view.store
    ensures var cell := r.frames[|r.frames| - 1].cells[index]; var r1 := Step(A, fs, blind, r);
      && (Next(fs, r) == Some(GetUpvalue(index)) ==>
            U.Proper(r1.view) && Shows(r1.view) == Shows(r.view) + [r.view.store[cell]])
      && (Next(fs, r) == Some(SetUpvalue(index)) && |r.view.slots| > 0 ==>
            r1.view.slots == r.view.slots && r1.view.store == r.view.store[cell := Shows(r.view)[|r.view.slots| - 1]])
  {
    HasAll(r);
    PushShown(r.view, r.view.store[r.frames[|r.frames| - 1].cells[index]]);
    if |r.view.slots| > 0 { ShowsTop(r, 0); }
  }

  /** Closing an upvalue takes the variable off the stack and leaves its cell to those who captured it. */
  lemma CloseKeepsCell(A: Arith, fs: seq<Function>, blind: bool, r: Ref)
    requires U.Proper(r.view) && Next(fs, r) == Some(CloseUpvalue) && |r.view.slots| > 0
    ensures var r1 := Step(A, fs, blind, r);
      U.Proper(r1.view) && Shows(r1.view) == Shows(r.view)[..|r.view.slots| - 1] && r1.view.store == r.view.store
  {
    CutShown(r.view, 1);
  }
}
