/** Calls with more arguments than parameters: the surplus arguments stay on the stack, between the parameters and the
    function's own variables, which the machine then looks for in the wrong slots. */
module Surplus {
  import opened Types
  import opened Values
  import opened Calls
  import C = Captures
  import U = Upvalues

  /** The instruction is about one of the function's own variables. */
  predicate Own(i: Instr, arity: nat) {
    match i
    case GetLocal(slot) => slot > arity
    case SetLocal(slot) => slot > arity
    case Closure(_, cs) => exists j :: 0 <= j < |cs| && cs[j].0 && cs[j].1 > arity
    case _ => false
  }

  /** The next instruction is about a variable that surplus arguments have moved. */
  ghost predicate AtMoved(fs: seq<Function>, r: Ref) {
    Next(fs, r).Some? &&
    var fr := r.frames[|r.frames| - 1];
    fr.extra > 0 && Own(Next(fs, r).value, fs[fr.f].arity)
  }

  /** The variable and the slot that the machine takes for it hold the same value, and an assignment assigns just that. */
  ghost predicate SameAnyway(fs: seq<Function>, r: Ref)
    requires AtMoved(fs, r)
  {
    var fr, i := r.frames[|r.frames| - 1], Next(fs, r).value;
    !i.Closure? &&
    var p, q := fr.base + i.slot, Place(fs, fr, i.slot);
    && q < |r.view.slots| && r.HasTop(|r.view.slots|)
    && r.view.store[r.view.slots[p]] == r.view.store[r.view.slots[q]]
    && (i.SetLocal? ==> r.Peek(0) == r.view.store[r.view.slots[p]])
  }

  /** The machine does with a moved variable what is meant exactly when it makes no difference. */
  lemma MovedStep(A: Arith, fs: seq<Function>, r: Ref)
    requires AtMoved(fs, r) && U.Proper(r.view) && !Step(A, fs, false, r).status.Stuck?
    ensures Step(A, fs, true, r) == Step(A, fs, false, r) <==> SameAnyway(fs, r)
  {
    hide Meaning, U.Proper, HasCells, CellsOf;
    var fr, i := r.frames[|r.frames| - 1], Next(fs, r).value;
    ProperTop(r);
    if i.Closure? {
      CaptureMeans(A, fs, r, fr, i);
    } else if i.GetLocal? {
      ReadMeans(A, fs, r, fr, i);
    } else {
      WriteMeans(A, fs, r, fr, i);
    }
  }

  lemma ProperTop(r: Ref)
    requires U.Proper(r.view)
    ensures r.HasTop(|r.view.slots|)
  {
  }

  lemma CaptureMeans(A: Arith, fs: seq<Function>, r: Ref, fr: RefFrame, i: Instr)
    requires U.Proper(r.view) && r.frames != [] && fr.extra > 0 && fr.f < |fs| && i.Closure? && Own(i, fs[fr.f].arity)
    requires r.status.Going? && !Meaning(A, fs, r, fr, i).status.Stuck?
    ensures Meaning(A, fs, r, fr.(extra := 0), i) != Meaning(A, fs, r, fr, i)
  {
    hide U.Proper, HasCells, CellsOf;
    var made := r.Push(Object(|r.closures|));
    PushedProper(r.view, Object(|r.closures|));
    MovedCapture(fs, made, fr, i.captures);
    var a := RefClosure(i.f, CellsOf(fs, made.view, fr.(extra := 0), i.captures));
    var b := RefClosure(i.f, CellsOf(fs, made.view, fr, i.captures));
    assert (r.closures + [a])[|r.closures|] != (r.closures + [b])[|r.closures|];
  }

  lemma ReadMeans(A: Arith, fs: seq<Function>, r: Ref, fr: RefFrame, i: Instr)
    requires U.Proper(r.view) && r.frames != [] && fr.extra > 0 && fr.f < |fs| && i.GetLocal? && Own(i, fs[fr.f].arity)
    requires r.status.Going? && !Meaning(A, fs, r, fr, i).status.Stuck?
    ensures var p, q := fr.base + i.slot, Place(fs, fr, i.slot);
      && q < |r.view.slots| && r.view.slots[p] in r.view.store && r.view.slots[q] in r.view.store
      && (Meaning(A, fs, r, fr.(extra := 0), i) == Meaning(A, fs, r, fr, i) <==>
            r.view.store[r.view.slots[p]] == r.view.store[r.view.slots[q]])
  {
    MovedRead(r, fr.base + i.slot, Place(fs, fr, i.slot), fr.pc + 1);
  }

  lemma WriteMeans(A: Arith, fs: seq<Function>, r: Ref, fr: RefFrame, i: Instr)
    requires U.Proper(r.view) && r.frames != [] && fr.extra > 0 && fr.f < |fs| && i.SetLocal? && Own(i, fs[fr.f].arity)
    requires r.status.Going? && !Meaning(A, fs, r, fr, i).status.Stuck?
    ensures var p, q := fr.base + i.slot, Place(fs, fr, i.slot);
      && q < |r.view.slots| && r.view.slots[p] in r.view.store && r.view.slots[q] in r.view.store && r.HasTop(1)
      && (Meaning(A, fs, r, fr.(extra := 0), i) == Meaning(A, fs, r, fr, i) <==>
            r.view.store[r.view.slots[p]] == r.Peek(0) == r.view.store[r.view.slots[q]])
  {
    MovedWrite(r, fr.base + i.slot, Place(fs, fr, i.slot), fr.pc + 1);
  }

  lemma PushedProper(v: U.View, value: Value)
    requires U.Proper(v)
    ensures U.Proper(U.Pushed(v, value))
  {
  }

  lemma MovedCapture(fs: seq<Function>, r: Ref, fr: RefFrame, cs: seq<(bool, nat)>)
    requires U.Proper(r.view) && fr.extra > 0 && fr.f < |fs| && Own(Closure(0, cs), fs[fr.f].arity)
    requires HasCells(fs, r.view, fr, cs)
    ensures HasCells(fs, r.view, fr.(extra := 0), cs)
    ensures CellsOf(fs, r.view, fr.(extra := 0), cs) != CellsOf(fs, r.view, fr, cs)
  {
    var j :| 0 <= j < |cs| && cs[j].0 && cs[j].1 > fs[fr.f].arity;
    forall n | 0 <= n < |cs| ensures CellOf(fs, r.view, fr.(extra := 0), cs[n]).Some? {
      assert CellOf(fs, r.view, fr, cs[n]).Some?;
    }
    assert CellOf(fs, r.view, fr, cs[j]).Some?;
    assert CellsOf(fs, r.view, fr.(extra := 0), cs)[j] != CellsOf(fs, r.view, fr, cs)[j];
  }

  lemma MovedRead(r: Ref, p: nat, q: nat, pc: nat)
    requires U.Proper(r.view) && p < q < |r.view.slots| && r.frames != []
    ensures r.Push(r.view.store[r.view.slots[p]]).At(pc) == r.Push(r.view.store[r.view.slots[q]]).At(pc) <==>
            r.view.store[r.view.slots[p]] == r.view.store[r.view.slots[q]]
  {
    var a, b := r.Push(r.view.store[r.view.slots[p]]).At(pc), r.Push(r.view.store[r.view.slots[q]]).At(pc);
    assert a.view.store[r.view.unused] == r.view.store[r.view.slots[p]];
    assert b.view.store[r.view.unused] == r.view.store[r.view.slots[q]];
  }

  lemma MovedWrite(r: Ref, p: nat, q: nat, pc: nat)
    requires U.Proper(r.view) && p < q < |r.view.slots| && r.frames != []
    ensures var v := r.Peek(0);
            var a := r.(view := U.CellSet(r.view, r.view.slots[p], v)).At(pc);
            var b := r.(view := U.CellSet(r.view, r.view.slots[q], v)).At(pc);
            a == b <==> r.view.store[r.view.slots[p]] == v == r.view.store[r.view.slots[q]]
  {
    var v := r.Peek(0);
    var c, d := r.view.slots[p], r.view.slots[q];
    var a, b := r.(view := U.CellSet(r.view, c, v)).At(pc), r.(view := U.CellSet(r.view, d, v)).At(pc);
    assert c != d && a.view.store[d] == r.view.store[d] && b.view.store[c] == r.view.store[c];
    if r.view.store[c] == v == r.view.store[d] { assert a.view.store == r.view.store == b.view.store; }
  }

  /** Every other instruction is taken as it is meant. */
  lemma OtherStep(A: Arith, fs: seq<Function>, r: Ref)
    requires !AtMoved(fs, r)
    ensures Step(A, fs, true, r) == Step(A, fs, false, r)
  {
    hide Meaning, Own;
    if Next(fs, r).Some? {
      var fr, i := r.frames[|r.frames| - 1], Next(fs, r).value;
      if i.Closure? {
        SameCaptures(A, fs, r, fr, i);
      } else if i.GetLocal? || i.SetLocal? {
        SamePlace(A, fs, r, fr, i);
      } else {
        NoPlace(A, fs, r, fr, i);
      }
    }
  }

  lemma SameCaptures(A: Arith, fs: seq<Function>, r: Ref, fr: RefFrame, i: Instr)
    requires r.frames != [] && fr.f < |fs| && i.Closure? && (fr.extra == 0 || !Own(i, fs[fr.f].arity))
    ensures Meaning(A, fs, r, fr.(extra := 0), i) == Meaning(A, fs, r, fr, i)
  {
    hide HasCells, CellsOf;
    SameCells(fs, r.Push(Object(|r.closures|)).view, fr, i.captures);
  }

  lemma SamePlace(A: Arith, fs: seq<Function>, r: Ref, fr: RefFrame, i: Instr)
    requires r.frames != [] && fr.f < |fs| && (i.GetLocal? || i.SetLocal?) && (fr.extra == 0 || !Own(i, fs[fr.f].arity))
    ensures Meaning(A, fs, r, fr.(extra := 0), i) == Meaning(A, fs, r, fr, i)
  {
    hide Place;
    PlaceSame(fs, fr, i.slot);
  }

  lemma PlaceSame(fs: seq<Function>, fr: RefFrame, slot: nat)
    requires fr.f < |fs| && (fr.extra == 0 || slot <= fs[fr.f].arity)
    ensures Place(fs, fr.(extra := 0), slot) == Place(fs, fr, slot)
  {
  }

  lemma NoPlace(A: Arith, fs: seq<Function>, r: Ref, fr: RefFrame, i: Instr)
    requires r.frames != [] && !i.Closure? && !i.GetLocal? && !i.SetLocal?
    ensures Meaning(A, fs, r, fr.(extra := 0), i) == Meaning(A, fs, r, fr, i)
  {
    hide Apply, ApplyUnary, Called, Computed;
  }

  lemma SameCells(fs: seq<Function>, v: U.View, fr: RefFrame, cs: seq<(bool, nat)>)
    requires fr.f < |fs| && (fr.extra == 0 || !Own(Closure(0, cs), fs[fr.f].arity))
    ensures HasCells(fs, v, fr.(extra := 0), cs) <==> HasCells(fs, v, fr, cs)
    ensures HasCells(fs, v, fr, cs) ==> CellsOf(fs, v, fr.(extra := 0), cs) == CellsOf(fs, v, fr, cs)
  {
    forall j | 0 <= j < |cs| ensures CellOf(fs, v, fr.(extra := 0), cs[j]) == CellOf(fs, v, fr, cs[j]) { }
  }

  /** A function that is about parameters only, or a call with no surplus arguments. */
  ghost predicate Suits(f: Function, extra: nat) {
    extra == 0 || forall p :: 0 <= p < |f.code| ==> !Own(f.code[p], f.arity)
  }

  ghost predicate AllSuit(fs: seq<Function>, frames: seq<RefFrame>) {
    forall i :: 0 <= i < |frames| ==> frames[i].f < |fs| && Suits(fs[frames[i].f], frames[i].extra)
  }

  /** If the next instruction is a call, it has no surplus arguments, or is of a function about parameters only. */
  ghost predicate SuitableCall(fs: seq<Function>, r: Ref) {
    Next(fs, r).Some? && Next(fs, r).value.Call? && r.HasTop(Next(fs, r).value.argCount + 1) ==>
      var callee := r.Peek(Next(fs, r).value.argCount);
      callee.Object? && callee.id < |r.closures| && r.closures[callee.id].f < |fs| ==>
        var f := fs[r.closures[callee.id].f];
        Suits(f, Extra(Next(fs, r).value.argCount, f.arity))
  }

  /** As long as all calls are suitable, the machine does what is meant. */
  lemma {:induction false} SuitableRun(A: Arith, fs: seq<Function>, r: Ref, k: nat)
    requires AllSuit(fs, r.frames) && forall j :: 0 <= j < k ==> SuitableCall(fs, Run(A, fs, false, r, j))
    ensures Run(A, fs, true, r, k) == Run(A, fs, false, r, k) && AllSuit(fs, Run(A, fs, false, r, k).frames)
  {
    hide Step, SuitableCall, AllSuit;
    if k > 0 {
      SuitableRun(A, fs, r, k - 1);
      var before := Run(A, fs, false, r, k - 1);
      SuitableStep(A, fs, before);
      OtherStep(A, fs, before);
    }
  }

  lemma SuitableStep(A: Arith, fs: seq<Function>, r: Ref)
    requires AllSuit(fs, r.frames) && SuitableCall(fs, r)
    ensures AllSuit(fs, Step(A, fs, false, r).frames) && !AtMoved(fs, r)
  {
    hide Meaning, AllSuit, SuitableCall;
    NotMoved(fs, r);
    if Next(fs, r).Some? {
      var fr, i := r.frames[|r.frames| - 1], Next(fs, r).value;
      if i.Call? && r.HasTop(i.argCount + 1) {
        SuitableCalled(fs, r, i.argCount, fr.pc + 1);
        CallMeans(A, fs, r, fr, i);
      } else {
        SuitableMeaning(A, fs, r, fr, i);
      }
    }
  }

  lemma CallMeans(A: Arith, fs: seq<Function>, r: Ref, fr: RefFrame, i: Instr)
    requires r.frames != [] && i.Call? && r.HasTop(i.argCount + 1)
    ensures r.At(fr.pc + 1).HasTop(i.argCount + 1)
    ensures Meaning(A, fs, r, fr, i) == Called(fs, r.At(fr.pc + 1), i.argCount)
  {
  }

  lemma SuitableMeaning(A: Arith, fs: seq<Function>, r: Ref, fr: RefFrame, i: Instr)
    requires r.frames != [] && AllSuit(fs, r.frames) && !(i.Call? && r.HasTop(i.argCount + 1))
    ensures AllSuit(fs, Meaning(A, fs, r, fr, i).frames)
  {
    hide Apply, ApplyUnary, Place, Called, AllSuit, HasCells, CellsOf;
    SuitKept(fs, r.frames, fr.pc + 1);
    if Branches(i) { SuitKept(fs, r.frames, i.target); }
  }

  lemma SuitKept(fs: seq<Function>, frames: seq<RefFrame>, pc: nat)
    requires AllSuit(fs, frames) && frames != []
    ensures AllSuit(fs, frames[..|frames| - 1])
    ensures AllSuit(fs, frames[|frames| - 1 := frames[|frames| - 1].(pc := pc)])
  {
    hide Suits;
  }

  lemma SuitableCalled(fs: seq<Function>, r: Ref, argCount: nat, pc: nat)
    requires AllSuit(fs, r.frames) && r.frames != [] && SuitableCall(fs, r) && r.HasTop(argCount + 1)
    requires Next(fs, r) == Some(Call(argCount))
    ensures r.At(pc).HasTop(argCount + 1) && AllSuit(fs, Called(fs, r.At(pc), argCount).frames)
  {
    hide Suits, Arguments, Extra;
    SuitKept(fs, r.frames, pc);
  }

  lemma NotMoved(fs: seq<Function>, r: Ref)
    requires AllSuit(fs, r.frames)
    ensures !AtMoved(fs, r)
  {
    hide Own;
  }

  // fun f() { var x = true; return x; } print f(false);
  const SURPLUS: seq<Function> :=
    [Function(0, 0, [Closure(1, []), Constant(Bool(false)), Call(1), Print, Constant(Nil), Return]),
     Function(0, 0, [Constant(Bool(true)), GetLocal(1), Return])]

  const SURPLUS_NOTES: seq<seq<C.Note>> :=
    [[C.Note(1, {}), C.Note(2, {}), C.Note(3, {}), C.Note(2, {}), C.Note(1, {}), C.Note(2, {})],
     [C.Note(1, {}), C.Note(2, {}), C.Note(3, {})]]

  lemma SurplusTyped()
    ensures WellTyped(SURPLUS, SURPLUS_NOTES)
  {
    hide FunctionTyped;
    ScriptTyped();
    FunctionOfScriptTyped();
  }

  lemma ScriptTyped()
    ensures FunctionTyped(SURPLUS, SURPLUS[0], SURPLUS_NOTES[0])
  {
  }

  lemma FunctionOfScriptTyped()
    ensures FunctionTyped(SURPLUS, SURPLUS[1], SURPLUS_NOTES[1])
  {
  }

  ghost function Slots(n: nat, last: Value): U.View {
    var v := U.View([0, 1], map[0 := Object(0), 1 := Object(1)], 2);
    if n == 2 then v else if n == 3 then U.Pushed(v, last) else U.Pushed(U.Pushed(v, Nil), last)
  }

  /** The states of the run with f's closure on the stack: f's frame has `pc`, if it is there. */
  ghost function Stage(view: U.View, pc: nat, running: Option<nat>, out: seq<Value>): Ref {
    Ref(view, [RefFrame(0, pc, 0, 0, [])] + if running.Some? then [RefFrame(1, running.value, 1, 1, [])] else [],
        [RefClosure(0, []), RefClosure(1, [])], out, Going)
  }

  lemma SurplusPushed(A: Arith, blind: bool)
    ensures Step(A, SURPLUS, blind, Start()) == Stage(Slots(2, Nil), 1, None, [])
    ensures Step(A, SURPLUS, blind, Stage(Slots(2, Nil), 1, None, [])) == Stage(Slots(3, Bool(false)), 2, None, [])
  {
    assert CellsOf(SURPLUS, Start().Push(Object(1)).view, Seen(Start(), blind), []) == [];
  }

  lemma SurplusCall(A: Arith, blind: bool)
    ensures Step(A, SURPLUS, blind, Stage(Slots(3, Bool(false)), 2, None, [])) ==
            Stage(Slots(3, Nil), 3, Some(0), [])
  {
    hide Place;
    var r := Stage(Slots(3, Bool(false)), 2, None, []);
    assert r.HasTop(2) && r.Peek(1) == Object(1);
    assert Cleared(r.view, 1) == U.CellSet(Cleared(r.view, 0), 2, Nil) == Slots(3, Nil);
    assert Called(SURPLUS, r.At(3), 1) == Stage(Slots(3, Nil), 3, Some(0), []);
  }

  lemma SurplusVariable(A: Arith, blind: bool)
    ensures Step(A, SURPLUS, blind, Stage(Slots(3, Nil), 3, Some(0), [])) ==
            Stage(Slots(4, Bool(true)), 3, Some(1), [])
    ensures Step(A, SURPLUS, blind, Stage(Slots(4, Bool(true)), 3, Some(1), [])) ==
            Stage(U.Pushed(Slots(4, Bool(true)), if blind then Nil else Bool(true)), 3, Some(2), [])
  {
    hide Returned, Called;
    var r := Stage(Slots(4, Bool(true)), 3, Some(1), []);
    assert Place(SURPLUS, Seen(r, blind), 1) == if blind then 2 else 3;
    assert r.view.slots == [0, 1, 2, 3];
  }

  lemma SurplusReturned(A: Arith, blind: bool, v: Value)
    ensures Step(A, SURPLUS, blind, Stage(U.Pushed(Slots(4, Bool(true)), v), 3, Some(2), [])) ==
            Stage(U.Pushed(U.Cut(U.Pushed(Slots(4, Bool(true)), v), 1), v), 3, None, [])
  {
    hide Place, Called;
    var r := Stage(U.Pushed(Slots(4, Bool(true)), v), 3, Some(2), []);
    assert r.HasTop(1) && r.Peek(0) == v;
    assert r.frames[..1] == [RefFrame(0, 3, 0, 0, [])] + [];
  }

  lemma SurplusPrinted(A: Arith, blind: bool, view: U.View, v: Value)
    requires |view.slots| == 2 && view.slots[1] in view.store && view.store[view.slots[1]] == v
    ensures Step(A, SURPLUS, blind, Stage(view, 3, None, [])).out == [v]
  {
    hide Place, Called, Returned;
  }

  /** In a program that the machine runs, f's variable is taken to be where the surplus argument is: nil is printed, and
      true is meant. */
  lemma SurplusArgument(A: Arith)
    ensures WellTyped(SURPLUS, SURPLUS_NOTES)
    ensures Run(A, SURPLUS, true, Start(), 7).out == [Nil]
    ensures Run(A, SURPLUS, false, Start(), 7).out == [Bool(true)]
  {
    SurplusTyped();
    SurplusRun(A, true);
    SurplusRun(A, false);
  }

  lemma SurplusRun(A: Arith, blind: bool)
    ensures Run(A, SURPLUS, blind, Start(), 7).out == [if blind then Nil else Bool(true)]
  {
    hide Step, Stage, Slots;
    var v := if blind then Nil else Bool(true);
    var view := U.Pushed(Slots(4, Bool(true)), v);
    SlotsFit();
    SurplusPushed(A, blind);
    SurplusCall(A, blind);
    SurplusVariable(A, blind);
    SurplusReturned(A, blind, v);
    SurplusPrinted(A, blind, U.Pushed(U.Cut(view, 1), v), v);
    assert Run(A, SURPLUS, blind, Start(), 1) == Stage(Slots(2, Nil), 1, None, []);
    assert Run(A, SURPLUS, blind, Start(), 2) == Stage(Slots(3, Bool(false)), 2, None, []);
    assert Run(A, SURPLUS, blind, Start(), 3) == Stage(Slots(3, Nil), 3, Some(0), []);
    assert Run(A, SURPLUS, blind, Start(), 4) == Stage(Slots(4, Bool(true)), 3, Some(1), []);
    assert Run(A, SURPLUS, blind, Start(), 5) == Stage(view, 3, Some(2), []);
    assert Run(A, SURPLUS, blind, Start(), 6) == Stage(U.Pushed(U.Cut(view, 1), v), 3, None, []);
  }

  lemma SlotsFit()
    ensures |Slots(4, Bool(true)).slots| == 4
  {
  }
}
