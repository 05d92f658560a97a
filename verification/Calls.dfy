/** Runs of whole programs with closures and calls: the machine with its stack, its frames and its list of open upvalues
    does what a machine does for which every variable is a cell of its own, and closures hold cells. */
module Calls {
  import opened Types
  import opened Values
  import C = Captures
  import U = Upvalues

  const FRAMES_MAX: nat := 1024
  const ARITY_MAX: nat := 255

  datatype Instr =
    | Constant(v: Value)
    | GetLocal(slot: nat)
    | SetLocal(slot: nat)
    | GetUpvalue(index: nat)
    | SetUpvalue(index: nat)
    | Closure(f: nat, captures: seq<(bool, nat)>)  // of a local of the function, or of one of its own upvalues
    | Bin(op: BinOp)
    | Un(uop: UnOp)
    | Print
    | PopCount(n: nat)                             // OP_POP and OP_POP_N
    | CloseUpvalue
    | Jump(target: nat)
    | JumpIfFalsePop(target: nat)
    | Call(argCount: nat)
    | Return

  datatype Function = Function(arity: nat, upvalueCount: nat, code: seq<Instr>)

  // ---- Notes ----

  /** How many values the instruction takes off the stack for good. */
  function Pops(i: Instr): nat {
    match i
    case Bin(_) => 2
    case Un(_) => 1
    case Print => 1
    case PopCount(n) => n
    case CloseUpvalue => 1
    case JumpIfFalsePop(_) => 1
    case Call(argCount) => argCount + 1
    case Return => 1
    case _ => 0
  }

  function Pushes(i: Instr): nat {
    match i
    case Constant(_) => 1
    case GetLocal(_) => 1
    case GetUpvalue(_) => 1
    case Closure(_, _) => 1
    case Bin(_) => 1
    case Un(_) => 1
    case Call(_) => 1
    case _ => 0
  }

  /** What an instruction relies on: its operands are there, and only CLOSE_UPVALUE takes a slot that an open upvalue may
      show. */
  predicate Allowed(fs: seq<Function>, up: nat, i: Instr, n: C.Note) {
    && Pops(i) <= n.height
    && (i.CloseUpvalue? || C.Below(n.open, n.height - Pops(i)))
    && match i
       case GetLocal(slot) => slot < n.height
       case SetLocal(slot) => slot < n.height
       case GetUpvalue(index) => index < up
       case SetUpvalue(index) => index < up && n.height > 0
       case Closure(f, cs) =>
         && f < |fs| && |cs| == fs[f].upvalueCount
         && forall j :: 0 <= j < |cs| ==> if cs[j].0 then cs[j].1 <= n.height else cs[j].1 < up
       case _ => true
  }

  function Captured(cs: seq<(bool, nat)>): set<nat> {
    set j | 0 <= j < |cs| && cs[j].0 :: cs[j].1
  }

  function Behind(i: Instr, n: C.Note): C.Note
    requires Pops(i) <= n.height
  {
    C.Note(n.height - Pops(i) + Pushes(i),
           match i
           case Closure(_, cs) => n.open + Captured(cs)
           case CloseUpvalue => n.open - {n.height - 1}
           case _ => n.open)
  }

  predicate Falls(i: Instr) {
    !i.Jump? && !i.Return?
  }

  predicate Branches(i: Instr) {
    i.Jump? || i.JumpIfFalsePop?
  }

  predicate Agrees(fs: seq<Function>, f: Function, notes: seq<C.Note>, p: nat)
    requires p < |f.code| && |f.code| == |notes|
  {
    var i, n := f.code[p], notes[p];
    && Allowed(fs, f.upvalueCount, i, n)
    && (Falls(i) ==> p + 1 < |notes| && C.Leads(Behind(i, n), notes[p + 1]))
    && (Branches(i) ==> i.target < |notes| && C.Leads(Behind(i, n), notes[i.target]))
  }

  predicate FunctionTyped(fs: seq<Function>, f: Function, notes: seq<C.Note>) {
    && f.arity <= ARITY_MAX && |f.code| == |notes| && |f.code| > 0
    && C.Leads(C.Note(f.arity + 1, {}), notes[0])
    && forall p :: 0 <= p < |f.code| ==> Agrees(fs, f, notes, p)
  }

  /** Every function's code agrees with its notes; slot 0 holds the function itself, and its arguments follow. */
  predicate WellTyped(fs: seq<Function>, notes: seq<seq<C.Note>>) {
    |notes| == |fs| && forall f :: 0 <= f < |fs| ==> FunctionTyped(fs, fs[f], notes[f])
  }

  // ---- Compiled functions ----

  /** The instruction is what the compiler of functions says of it: a closure captures these slots, of locals only; any
      instruction may take the value on top. */
  predicate Stands(fs: seq<Function>, op: C.Op, i: Instr) {
    match op
    case Closure(slots) =>
      && i.Closure? && i.f < |fs| && |i.captures| == fs[i.f].upvalueCount == |slots|
      && forall j :: 0 <= j < |slots| ==> i.captures[j] == (true, slots[j])
    case PopCount(n) => i == PopCount(n)
    case Consume => i.Print?
    case CloseUpvalue => i == CloseUpvalue
    case Jump(t) => i == Jump(t)
    case JumpIfFalsePop(t) => i == JumpIfFalsePop(t)
    case Return => i == Return
  }

  lemma StandsNoted(fs: seq<Function>, up: nat, op: C.Op, i: Instr, n: C.Note)
    requires Stands(fs, op, i) && C.Allowed(op, n)
    ensures Allowed(fs, up, i, n) && Behind(i, n) == C.Behind(op, n)
    ensures (Falls(i) <==> C.Falls(op)) && (Branches(i) <==> C.IsJump(op)) && (Branches(i) ==> i.target == op.target)
  {
    if op.Closure? {
      forall c | c in op.captured ensures c in Captured(i.captures) {
        var j :| 0 <= j < |op.captured| && op.captured[j] == c;
        assert i.captures[j] == (true, c);
      }
      assert Behind(i, n).open == C.Behind(op, n).open;
      forall j | 0 <= j < |i.captures| ensures i.captures[j].0 && i.captures[j].1 <= n.height {
        assert op.captured[j] in op.captured;
      }
    }
  }

  /** Code that the compiler of functions noted is code for this machine. */
  lemma CompiledTyped(fs: seq<Function>, f: Function, code: seq<C.Op>, notes: seq<C.Note>)
    requires C.Typed(code, notes) && code != [] && f.arity <= ARITY_MAX && C.Leads(C.Note(f.arity + 1, {}), notes[0])
    requires |f.code| == |code| && forall p :: 0 <= p < |code| ==> Stands(fs, code[p], f.code[p])
    ensures FunctionTyped(fs, f, notes)
  {
    hide Allowed, Behind, C.Allowed, C.Behind, Stands, C.Leads;
    forall p | 0 <= p < |f.code| ensures Agrees(fs, f, notes, p) {
      assert C.Agrees(code, notes, p);
      StandsNoted(fs, f.upvalueCount, code[p], f.code[p], notes[p]);
      TypedAllowed(code, notes, p);
    }
  }

  lemma TypedAllowed(code: seq<C.Op>, notes: seq<C.Note>, p: nat)
    requires p < |code| <= |notes| && C.Agrees(code, notes, p)
    ensures C.Allowed(code[p], notes[p]) && C.Pops(code[p]) <= notes[p].height
  {
  }

  // ---- What a program means ----

  datatype Status = Going | Done | Failed | Stuck

  /** The cells that the function's closure holds, where its variables begin, and how many surplus arguments it was
      given. */
  datatype RefFrame = RefFrame(f: nat, pc: nat, base: nat, extra: nat, cells: seq<nat>)

  datatype RefClosure = RefClosure(f: nat, cells: seq<nat>)

  /** Closures are values by their number.  Stuck stands for an instruction that does not find what it relies on. */
  datatype Ref = Ref(view: U.View, frames: seq<RefFrame>, closures: seq<RefClosure>, out: seq<Value>, status: Status)
  {
    ghost predicate HasTop(n: nat) {
      n <= |view.slots| && forall i :: |view.slots| - n <= i < |view.slots| ==> view.slots[i] in view.store
    }

    /** The n-th value from the top. */
    ghost function Peek(n: nat): Value
      requires HasTop(n + 1)
    {
      view.store[view.slots[|view.slots| - 1 - n]]
    }

    ghost function Drop(n: nat): Ref
      requires n <= |view.slots|
    {
      this.(view := U.Cut(view, |view.slots| - n))
    }

    ghost function Push(v: Value): Ref {
      this.(view := U.Pushed(view, v))
    }

    ghost function At(pc: nat): Ref {
      if frames == [] then this else this.(frames := frames[|frames| - 1 := frames[|frames| - 1].(pc := pc)])
    }

    ghost function Ends(s: Status): Ref {
      this.(status := s)
    }
  }

  /** Where a variable of a function is: behind the parameters come the surplus arguments, and then its own variables. */
  ghost function Place(fs: seq<Function>, fr: RefFrame, slot: nat): nat {
    fr.base + slot + if fr.f < |fs| && slot > fs[fr.f].arity then fr.extra else 0
  }

  /** The cell of a variable that a new closure captures. */
  ghost function CellOf(fs: seq<Function>, v: U.View, fr: RefFrame, c: (bool, nat)): Option<nat> {
    if c.0 then (if Place(fs, fr, c.1) < |v.slots| then Some(v.slots[Place(fs, fr, c.1)]) else None)
    else if c.1 < |fr.cells| then Some(fr.cells[c.1]) else None
  }

  ghost predicate HasCells(fs: seq<Function>, v: U.View, fr: RefFrame, cs: seq<(bool, nat)>) {
    forall j :: 0 <= j < |cs| ==> CellOf(fs, v, fr, cs[j]).Some?
  }

  ghost function CellsOf(fs: seq<Function>, v: U.View, fr: RefFrame, cs: seq<(bool, nat)>): seq<nat>
    requires HasCells(fs, v, fr, cs)
  {
    seq(|cs|, j requires 0 <= j < |cs| => CellOf(fs, v, fr, cs[j]).value)
  }

  /** nil for every parameter without an argument. */
  ghost function Padded(v: U.View, n: nat): U.View
    decreases n
  {
    if n == 0 then v else Padded(U.Pushed(v, Nil), n - 1)
  }

  /** nil for the last n arguments. */
  ghost function Cleared(v: U.View, n: nat): (w: U.View)
    requires n <= |v.slots|
    ensures w.slots == v.slots
  {
    if n == 0 then v else U.CellSet(Cleared(v, n - 1), v.slots[|v.slots| - n], Nil)
  }

  /** The parameters of a function get the arguments, nil where there is none; surplus arguments become nil. */
  ghost function Arguments(v: U.View, argCount: nat, arity: nat): U.View
    requires argCount <= |v.slots|
  {
    if argCount <= arity then Padded(v, arity - argCount) else Cleared(v, argCount - arity)
  }

  function Extra(argCount: nat, arity: nat): nat {
    if argCount > arity then argCount - arity else 0
  }

  ghost function Called(fs: seq<Function>, r: Ref, argCount: nat): Ref
    requires r.HasTop(argCount + 1)
  {
    var callee := r.Peek(argCount);
    if !callee.Object? || callee.id >= |r.closures| then r.Ends(Failed)
    else
      var c := r.closures[callee.id];
      if c.f >= |fs| then r.Ends(Stuck)
      else
        r.(view := Arguments(r.view, argCount, fs[c.f].arity),
           frames := r.frames + [RefFrame(c.f, 0, |r.view.slots| - argCount - 1, Extra(argCount, fs[c.f].arity),
                                          c.cells)])
  }

  /** The function's variables leave the stack, and its result is left; the script's is dropped. */
  ghost function Returned(r: Ref, fr: RefFrame): Ref
    requires r.frames != [] && r.HasTop(1) && fr.base <= |r.view.slots|
  {
    var result := r.Peek(0);
    var left := r.(view := U.Cut(r.view, fr.base), frames := r.frames[..|r.frames| - 1]).Push(result);
    if |r.frames| == 1 then left.Drop(1).Ends(Done) else left
  }

  ghost function Computed(r: Ref, n: nat, v: Option<Value>, pc: nat): Ref
    requires n <= |r.view.slots|
  {
    if v.Some? then r.Drop(n).Push(v.value).At(pc) else r.Ends(Failed)
  }

  /** The instruction i, where every variable is a cell: popping a variable or closing its upvalue is the same. */
  ghost function Meaning(A: Arith, fs: seq<Function>, r: Ref, fr: RefFrame, i: Instr): Ref
    requires r.frames != []
  {
    var next := fr.pc + 1;
    match i
    case Constant(v) => r.Push(v).At(next)
    case GetLocal(slot) =>
      var p := Place(fs, fr, slot);
      if p < |r.view.slots| && r.view.slots[p] in r.view.store
      then r.Push(r.view.store[r.view.slots[p]]).At(next) else r.Ends(Stuck)
    case SetLocal(slot) =>
      var p := Place(fs, fr, slot);
      if p < |r.view.slots| && r.HasTop(1)
      then r.(view := U.CellSet(r.view, r.view.slots[p], r.Peek(0))).At(next) else r.Ends(Stuck)
    case GetUpvalue(index) =>
      if index < |fr.cells| && fr.cells[index] in r.view.store
      then r.Push(r.view.store[fr.cells[index]]).At(next) else r.Ends(Stuck)
    case SetUpvalue(index) =>
      if index < |fr.cells| && r.HasTop(1)
      then r.(view := U.CellSet(r.view, fr.cells[index], r.Peek(0))).At(next) else r.Ends(Stuck)
    case Closure(f, cs) =>
      var made := r.Push(Object(|r.closures|));
      if HasCells(fs, made.view, fr, cs)
      then made.(closures := made.closures + [RefClosure(f, CellsOf(fs, made.view, fr, cs))]).At(next) else r.Ends(Stuck)
    case Bin(op) => if r.HasTop(2) then Computed(r, 2, Apply(A, op, r.Peek(1), r.Peek(0)), next) else r.Ends(Stuck)
    case Un(op) => if r.HasTop(1) then Computed(r, 1, ApplyUnary(A, op, r.Peek(0)), next) else r.Ends(Stuck)
    case Print => if r.HasTop(1) then r.(out := r.out + [r.Peek(0)]).Drop(1).At(next) else r.Ends(Stuck)
    case PopCount(n) => if n <= |r.view.slots| then r.Drop(n).At(next) else r.Ends(Stuck)
    case CloseUpvalue => if 1 <= |r.view.slots| then r.Drop(1).At(next) else r.Ends(Stuck)
    case Jump(t) => r.At(t)
    case JumpIfFalsePop(t) =>
      if r.HasTop(1) then r.Drop(1).At(if Falsey(r.Peek(0)) then t else next) else r.Ends(Stuck)
    case Call(argCount) => if r.HasTop(argCount + 1) then Called(fs, r.At(next), argCount) else r.Ends(Stuck)
    case Return => if r.HasTop(1) && fr.base <= |r.view.slots| then Returned(r, fr) else r.Ends(Stuck)
  }

  /** The instruction that is next, if any. */
  ghost function Next(fs: seq<Function>, r: Ref): Option<Instr> {
    if !r.status.Going? || r.frames == [] then None
    else
      var fr := r.frames[|r.frames| - 1];
      if fr.f >= |fs| || fr.pc >= |fs[fr.f].code| then None else Some(fs[fr.f].code[fr.pc])
  }

  /** The frame of the function that runs, as the machine takes it: it does not know of surplus arguments. */
  ghost function Seen(r: Ref, blind: bool): RefFrame
    requires r.frames != []
  {
    var fr := r.frames[|r.frames| - 1];
    if blind then fr.(extra := 0) else fr
  }

  /** One instruction as it is meant or, blind to surplus arguments, as the machine takes it. */
  ghost function Step(A: Arith, fs: seq<Function>, blind: bool, r: Ref): Ref {
    if !r.status.Going? then r
    else if Next(fs, r).None? then r.Ends(Stuck)
    else Meaning(A, fs, r, Seen(r, blind), Next(fs, r).value)
  }

  ghost function Run(A: Arith, fs: seq<Function>, blind: bool, r: Ref, k: nat): Ref {
    if k == 0 then r else Step(A, fs, blind, Run(A, fs, blind, r, k - 1))
  }

  // ---- The machine's state ----

  /** The machine has no use for the number of surplus arguments: they are just there. */
  datatype Frame = Frame(f: nat, pc: nat, base: nat, extra: nat, upvalues: seq<U.Upvalue>)

  datatype ObjClosure = ObjClosure(f: nat, upvalues: seq<U.Upvalue>)

  ghost function Cells(us: seq<U.Upvalue>): seq<nat> {
    seq(|us|, i requires 0 <= i < |us| => us[i].cell)
  }

  ghost function RefFrames(frames: seq<Frame>): seq<RefFrame> {
    seq(|frames|, i requires 0 <= i < |frames| =>
      RefFrame(frames[i].f, frames[i].pc, frames[i].base, frames[i].extra, Cells(frames[i].upvalues)))
  }

  ghost function RefClosures(cs: seq<ObjClosure>): seq<RefClosure> {
    seq(|cs|, i requires 0 <= i < |cs| => RefClosure(cs[i].f, Cells(cs[i].upvalues)))
  }

  /** The slots that open upvalues show. */
  ghost function Shown(all: set<U.Upvalue>): set<int>
    reads all`location
  {
    set u | u in all && u.location != U.CLOSED :: u.location
  }

  // ---- Frames on the stack ----

  ghost function NoteAt(notes: seq<seq<C.Note>>, fr: Frame): C.Note {
    if fr.f < |notes| && fr.pc < |notes[fr.f]| then notes[fr.f][fr.pc] else C.Note(0, {})
  }

  predicate InCode(fs: seq<Function>, fr: Frame) {
    fr.f < |fs| && fr.pc < |fs[fr.f].code| && |fr.upvalues| == fs[fr.f].upvalueCount
  }

  /** Each frame begins where the one below it ends: a calling function has all that is noted behind the call but the
      result, which is yet to come. */
  ghost predicate Stacked(fs: seq<Function>, notes: seq<seq<C.Note>>, frames: seq<Frame>, top: nat) {
    && frames != []
    && (forall i :: 0 <= i < |frames| ==> InCode(fs, frames[i]))
    && (forall i :: 0 <= i < |frames| - 1 ==>
          frames[i + 1].base + 1 == frames[i].base + frames[i].extra + NoteAt(notes, frames[i]).height)
    && (forall i, j :: 0 <= i < j < |frames| ==> frames[i].base <= frames[j].base)
    && top == frames[|frames| - 1].base + frames[|frames| - 1].extra + NoteAt(notes, frames[|frames| - 1]).height
  }

  /** The slot belongs to the i-th frame. */
  predicate Within(frames: seq<Frame>, i: nat, slot: int)
    requires i < |frames|
  {
    frames[i].base <= slot && (i + 1 < |frames| ==> slot < frames[i + 1].base)
  }

  /** The slot may be shown: it is noted and, where there are surplus arguments, that of a parameter. */
  ghost predicate Showable(fs: seq<Function>, fr: Frame, open: set<int>, slot: int) {
    slot - fr.base in open && (fr.extra > 0 ==> fr.f < |fs| && slot - fr.base <= fs[fr.f].arity)
  }

  /** In every frame only such slots are shown by open upvalues. */
  ghost predicate Guarded(fs: seq<Function>, notes: seq<seq<C.Note>>, frames: seq<Frame>, shown: set<int>) {
    forall i, slot :: 0 <= i < |frames| && slot in shown && Within(frames, i, slot) ==>
      Showable(fs, frames[i], NoteAt(notes, frames[i]).open, slot)
  }

  /** The function was given surplus arguments, and the instruction captures one of its own variables, or takes one of
      its parameters. */
  predicate Strays(fs: seq<Function>, fr: Frame, top: nat, i: Instr) {
    fr.extra > 0 && fr.f < |fs| &&
    ((i.Closure? && exists j :: 0 <= j < |i.captures| && i.captures[j].0 && i.captures[j].1 > fs[fr.f].arity) ||
     top < fr.base + fr.extra + fs[fr.f].arity + 1 + Pops(i))
  }

  /** Frames and closures hold upvalues that the machine knows, as many as their functions need. */
  ghost predicate Holding(fs: seq<Function>, frames: seq<Frame>, closures: seq<ObjClosure>, all: set<U.Upvalue>) {
    && (forall i, j :: 0 <= i < |frames| && 0 <= j < |frames[i].upvalues| ==> frames[i].upvalues[j] in all)
    && (forall i, j :: 0 <= i < |closures| && 0 <= j < |closures[i].upvalues| ==> closures[i].upvalues[j] in all)
    && (forall i :: 0 <= i < |closures| ==>
          closures[i].f < |fs| && |closures[i].upvalues| == fs[closures[i].f].upvalueCount)
  }

  function Moved(frames: seq<Frame>, pc: nat): seq<Frame>
    requires frames != []
  {
    frames[|frames| - 1 := frames[|frames| - 1].(pc := pc)]
  }

  /** The instruction leads to pc with the slots that may be shown behind it. */
  lemma LeadsTo(fs: seq<Function>, notes: seq<seq<C.Note>>, fr: Frame, pc: nat)
    requires WellTyped(fs, notes) && InCode(fs, fr)
    requires var i := fs[fr.f].code[fr.pc];
             (Falls(i) && pc == fr.pc + 1) || (Branches(i) && pc == i.target)
    ensures var i, n := fs[fr.f].code[fr.pc], NoteAt(notes, fr);
      && Pops(i) <= n.height && InCode(fs, fr.(pc := pc))
      && C.Leads(Behind(i, n), NoteAt(notes, fr.(pc := pc)))
  {
    hide Allowed, Behind, C.Leads;
    assert FunctionTyped(fs, fs[fr.f], notes[fr.f]);
    assert Agrees(fs, fs[fr.f], notes[fr.f], fr.pc);
    AllowedPops(fs, fs[fr.f].upvalueCount, fs[fr.f].code[fr.pc], notes[fr.f][fr.pc]);
  }

  lemma AllowedPops(fs: seq<Function>, up: nat, i: Instr, n: C.Note)
    requires Allowed(fs, up, i, n)
    ensures Pops(i) <= n.height
  {
  }

  lemma MayRun(fs: seq<Function>, notes: seq<seq<C.Note>>, fr: Frame)
    requires WellTyped(fs, notes) && InCode(fs, fr)
    ensures Allowed(fs, fs[fr.f].upvalueCount, fs[fr.f].code[fr.pc], NoteAt(notes, fr))
  {
    hide Allowed;
    assert FunctionTyped(fs, fs[fr.f], notes[fr.f]);
    assert Agrees(fs, fs[fr.f], notes[fr.f], fr.pc);
  }

  /** The instruction at the top frame leads to pc, with `top1` slots and `shown1` of them shown. */
  ghost predicate Leading(fs: seq<Function>, notes: seq<seq<C.Note>>, frames: seq<Frame>, pc: nat, top1: nat,
                          shown: set<int>, shown1: set<int>)
    requires frames != []
  {
    var fr := frames[|frames| - 1];
    InCode(fs, fr) &&
    var i, n := fs[fr.f].code[fr.pc], NoteAt(notes, fr);
    && ((Falls(i) && pc == fr.pc + 1) || (Branches(i) && pc == i.target))
    && Pops(i) <= n.height && top1 == fr.base + fr.extra + Behind(i, n).height
    && (forall slot :: slot in shown1 && slot < fr.base ==> slot in shown)
    && (forall slot :: slot in shown1 && slot >= fr.base ==> Showable(fs, fr, Behind(i, n).open, slot))
  }

  /** The top frame goes on at pc: its height and what it shows are as noted behind the instruction. */
  lemma MovedStacked(fs: seq<Function>, notes: seq<seq<C.Note>>, frames: seq<Frame>, top: nat, pc: nat, top1: nat,
                     shown: set<int>, shown1: set<int>)
    requires WellTyped(fs, notes) && Stacked(fs, notes, frames, top) && Guarded(fs, notes, frames, shown)
    requires Leading(fs, notes, frames, pc, top1, shown, shown1)
    ensures Stacked(fs, notes, Moved(frames, pc), top1) && Guarded(fs, notes, Moved(frames, pc), shown1)
  {
    hide WellTyped, NoteAt, Guarded, Behind;
    var fr := frames[|frames| - 1];
    LeadsTo(fs, notes, fr, pc);
    MovedGuarded(fs, notes, frames, pc, top1, shown, shown1);
  }

  lemma MovedGuarded(fs: seq<Function>, notes: seq<seq<C.Note>>, frames: seq<Frame>, pc: nat, top1: nat,
                     shown: set<int>, shown1: set<int>)
    requires WellTyped(fs, notes) && frames != [] && Guarded(fs, notes, frames, shown)
    requires Leading(fs, notes, frames, pc, top1, shown, shown1)
    requires forall i :: 0 <= i < |frames| ==> frames[i].base <= frames[|frames| - 1].base
    ensures Guarded(fs, notes, Moved(frames, pc), shown1)
  {
    hide Behind, WellTyped, NoteAt;
    var fr, frames1 := frames[|frames| - 1], Moved(frames, pc);
    LeadsTo(fs, notes, fr, pc);
    forall i, slot | 0 <= i < |frames1| && slot in shown1 && Within(frames1, i, slot)
      ensures Showable(fs, frames1[i], NoteAt(notes, frames1[i]).open, slot)
    {
      if i < |frames| - 1 {
        assert frames1[i] == frames[i] && frames1[i + 1].base == frames[i + 1].base <= fr.base;
        assert Within(frames, i, slot);
      }
    }
  }

  /** No open upvalue shows one of the slots that an allowed instruction, other than CLOSE_UPVALUE, takes. */
  lemma NoneTaken(fs: seq<Function>, notes: seq<seq<C.Note>>, frames: seq<Frame>, top: nat, shown: set<int>)
    requires WellTyped(fs, notes) && Stacked(fs, notes, frames, top) && Guarded(fs, notes, frames, shown)
    ensures var fr := frames[|frames| - 1]; var i := fs[fr.f].code[fr.pc];
            Pops(i) <= NoteAt(notes, fr).height &&
            (!i.CloseUpvalue? ==> forall slot :: slot in shown ==> slot < top - Pops(i))
  {
    hide WellTyped, NoteAt;
    var fr := frames[|frames| - 1];
    MayRun(fs, notes, fr);
    var i := fs[fr.f].code[fr.pc];
    if !i.CloseUpvalue? {
      forall slot | slot in shown ensures slot < top - Pops(i) {
        if slot >= fr.base { assert Within(frames, |frames| - 1, slot); }
      }
    }
  }

  /** An instruction that neither captures nor closes leaves what is shown. */
  lemma LeadingPlain(fs: seq<Function>, notes: seq<seq<C.Note>>, frames: seq<Frame>, top: nat, pc: nat, shown: set<int>)
    requires WellTyped(fs, notes) && Stacked(fs, notes, frames, top) && Guarded(fs, notes, frames, shown)
    requires var fr := frames[|frames| - 1]; var i := fs[fr.f].code[fr.pc];
      && !i.Closure? && !i.CloseUpvalue?
      && ((Falls(i) && pc == fr.pc + 1) || (Branches(i) && pc == i.target))
    ensures var fr := frames[|frames| - 1]; var i := fs[fr.f].code[fr.pc];
            Pops(i) <= top && Leading(fs, notes, frames, pc, top - Pops(i) + Pushes(i), shown, shown)
  {
    hide WellTyped, NoteAt;
    NoneTaken(fs, notes, frames, top, shown);
    var fr := frames[|frames| - 1];
    forall slot | slot in shown && slot >= fr.base ensures Showable(fs, fr, NoteAt(notes, fr).open, slot) {
      assert Within(frames, |frames| - 1, slot);
    }
  }

  /** CLOSE_UPVALUE takes the top slot, which is not shown any more. */
  lemma LeadingClose(fs: seq<Function>, notes: seq<seq<C.Note>>, frames: seq<Frame>, top: nat, shown: set<int>,
                     shown1: set<int>)
    requires WellTyped(fs, notes) && Stacked(fs, notes, frames, top) && Guarded(fs, notes, frames, shown)
    requires var fr := frames[|frames| - 1]; fs[fr.f].code[fr.pc] == CloseUpvalue
    requires !Strays(fs, frames[|frames| - 1], top, CloseUpvalue)
    requires shown1 <= shown && forall slot :: slot in shown1 ==> slot < top - 1
    ensures top > 0 && Leading(fs, notes, frames, frames[|frames| - 1].pc + 1, top - 1, shown, shown1)
  {
    hide WellTyped, NoteAt;
    NoneTaken(fs, notes, frames, top, shown);
    var fr := frames[|frames| - 1];
    forall slot | slot in shown1 && slot >= fr.base ensures Showable(fs, fr, NoteAt(notes, fr).open, slot) {
      assert Within(frames, |frames| - 1, slot);
    }
  }

  /** A closure may capture slots of the function, its own among them. */
  lemma LeadingClosure(fs: seq<Function>, notes: seq<seq<C.Note>>, frames: seq<Frame>, top: nat, shown: set<int>,
                       shown1: set<int>)
    requires WellTyped(fs, notes) && Stacked(fs, notes, frames, top) && Guarded(fs, notes, frames, shown)
    requires var fr := frames[|frames| - 1]; var i := fs[fr.f].code[fr.pc];
      && i.Closure? && !Strays(fs, fr, top, i)
      && (forall slot :: slot in shown1 ==> slot in shown || (slot >= fr.base && slot - fr.base in Captured(i.captures)))
    ensures Leading(fs, notes, frames, frames[|frames| - 1].pc + 1, top + 1, shown, shown1)
  {
    hide WellTyped, NoteAt;
    NoneTaken(fs, notes, frames, top, shown);
    var fr := frames[|frames| - 1];
    forall slot | slot in shown && slot >= fr.base ensures Showable(fs, fr, NoteAt(notes, fr).open, slot) {
      assert Within(frames, |frames| - 1, slot);
    }
  }

  lemma HoldingMore(fs: seq<Function>, frames: seq<Frame>, closures: seq<ObjClosure>, all: set<U.Upvalue>,
                    all1: set<U.Upvalue>, f: nat, upvalues: seq<U.Upvalue>)
    requires Holding(fs, frames, closures, all) && all <= all1 && f < |fs| && |upvalues| == fs[f].upvalueCount
    requires forall j :: 0 <= j < |upvalues| ==> upvalues[j] in all1
    ensures Holding(fs, frames, closures + [ObjClosure(f, upvalues)], all1)
  {
  }

  lemma RefClosuresMore(closures: seq<ObjClosure>, c: ObjClosure)
    ensures RefClosures(closures + [c]) == RefClosures(closures) + [RefClosure(c.f, Cells(c.upvalues))]
    ensures |RefClosures(closures)| == |closures|
  {
    hide Cells;
  }

  /** The upvalues of a new closure are for the cells that it captures. */
  lemma CellsCaptured(fs: seq<Function>, v: U.View, frames: seq<Frame>, cs: seq<(bool, nat)>, upvalues: seq<U.Upvalue>)
    requires frames != [] && |upvalues| == |cs|
    requires var fr := frames[|frames| - 1];
      forall j :: 0 <= j < |cs| ==>
        && (if cs[j].0 then fr.base + cs[j].1 < |v.slots| else cs[j].1 < |fr.upvalues|)
        && upvalues[j].cell == U.CellWanted(v, fr.base, cs[j], fr.upvalues)
    ensures |RefFrames(frames)| == |frames|
    ensures var fr := RefFrames(frames)[|frames| - 1].(extra := 0);
      && fr.pc == frames[|frames| - 1].pc && HasCells(fs, v, fr, cs) && CellsOf(fs, v, fr, cs) == Cells(upvalues)
  {
  }

  /** The frame of a called function begins with the function itself; none of its slots is shown. */
  lemma CalledStacked(fs: seq<Function>, notes: seq<seq<C.Note>>, frames: seq<Frame>, top: nat, shown: set<int>,
                      callee: Frame, argCount: nat)
    requires WellTyped(fs, notes) && Stacked(fs, notes, frames, top) && Guarded(fs, notes, frames, shown)
    requires var fr := frames[|frames| - 1]; fs[fr.f].code[fr.pc] == Call(argCount)
    requires callee.f < |fs| && callee.pc == 0 && |callee.upvalues| == fs[callee.f].upvalueCount
    requires callee.base + argCount + 1 == top
    ensures var frames1 := Moved(frames, frames[|frames| - 1].pc + 1) + [callee];
            Stacked(fs, notes, frames1, callee.base + callee.extra + 1 + fs[callee.f].arity) &&
            Guarded(fs, notes, frames1, shown)
  {
    hide WellTyped, NoteAt, Guarded, Leading, InCode;
    var fr := frames[|frames| - 1];
    NoneTaken(fs, notes, frames, top, shown);
    LeadingPlain(fs, notes, frames, top, fr.pc + 1, shown);
    var moved := Moved(frames, fr.pc + 1);
    MovedStacked(fs, notes, frames, top, fr.pc + 1, top - argCount, shown, shown);
    StartNote(fs, notes, callee);
    AddedStacked(fs, notes, moved, callee, top - argCount, shown);
  }

  lemma AddedStacked(fs: seq<Function>, notes: seq<seq<C.Note>>, frames: seq<Frame>, callee: Frame, top: nat,
                     shown: set<int>)
    requires Stacked(fs, notes, frames, top) && Guarded(fs, notes, frames, shown) && InCode(fs, callee)
    requires callee.base + 1 == top && frames[|frames| - 1].base <= callee.base
    requires forall slot :: slot in shown ==> slot < callee.base
    ensures Stacked(fs, notes, frames + [callee], callee.base + callee.extra + NoteAt(notes, callee).height)
    ensures Guarded(fs, notes, frames + [callee], shown)
  {
    hide NoteAt, InCode;
    var frames1 := frames + [callee];
    forall i, slot | 0 <= i < |frames1| && slot in shown && Within(frames1, i, slot)
      ensures Showable(fs, frames1[i], NoteAt(notes, frames1[i]).open, slot)
    {
      assert i < |frames| && Within(frames, i, slot);
    }
  }

  lemma StartNote(fs: seq<Function>, notes: seq<seq<C.Note>>, callee: Frame)
    requires WellTyped(fs, notes) && callee.f < |fs| && callee.pc == 0
    requires |callee.upvalues| == fs[callee.f].upvalueCount
    ensures InCode(fs, callee) && NoteAt(notes, callee).height == fs[callee.f].arity + 1
    ensures fs[callee.f].arity <= ARITY_MAX
  {
    assert FunctionTyped(fs, fs[callee.f], notes[callee.f]);
  }

  /** The calling frame gets the result that is noted there; nothing above its own slots is shown. */
  lemma ReturnedStacked(fs: seq<Function>, notes: seq<seq<C.Note>>, frames: seq<Frame>, top: nat, shown: set<int>,
                        shown1: set<int>)
    requires WellTyped(fs, notes) && Stacked(fs, notes, frames, top) && Guarded(fs, notes, frames, shown) && |frames| > 1
    requires shown1 <= shown && forall slot :: slot in shown1 ==> slot < frames[|frames| - 1].base
    ensures var frames1 := frames[..|frames| - 1];
            Stacked(fs, notes, frames1, frames[|frames| - 1].base + 1) && Guarded(fs, notes, frames1, shown1)
  {
    hide WellTyped, NoteAt;
    var frames1 := frames[..|frames| - 1];
    forall i, slot | 0 <= i < |frames1| && slot in shown1 && Within(frames1, i, slot)
      ensures Showable(fs, frames1[i], NoteAt(notes, frames1[i]).open, slot)
    {
      assert Within(frames, i, slot);
    }
    assert frames1[|frames1| - 1] == frames[|frames| - 2];
  }

  lemma RefFramesMore(frames: seq<Frame>, fr: Frame)
    ensures RefFrames(frames + [fr]) ==
            RefFrames(frames) + [RefFrame(fr.f, fr.pc, fr.base, fr.extra, Cells(fr.upvalues))]
  {
    hide Cells;
  }

  lemma RefFramesLess(frames: seq<Frame>)
    requires frames != []
    ensures |RefFrames(frames)| == |frames| && RefFrames(frames[..|frames| - 1]) == RefFrames(frames)[..|frames| - 1]
    ensures RefFrames(frames)[|frames| - 1].base == frames[|frames| - 1].base
    ensures RefFrames(frames)[|frames| - 1].pc == frames[|frames| - 1].pc
  {
    hide Cells;
  }

  lemma HoldingFrames(fs: seq<Function>, frames: seq<Frame>, closures: seq<ObjClosure>, all: set<U.Upvalue>)
    requires Holding(fs, frames, closures, all) && frames != []
    ensures forall pc :: Holding(fs, Moved(frames, pc), closures, all)
    ensures Holding(fs, frames[..|frames| - 1], closures, all)
  {
  }

  lemma HoldingCalled(fs: seq<Function>, frames: seq<Frame>, closures: seq<ObjClosure>, all: set<U.Upvalue>, pc: nat,
                      base: nat, argCount: nat, id: nat)
    requires Holding(fs, frames, closures, all) && frames != [] && id < |closures|
    ensures closures[id].f < |fs| && |closures[id].upvalues| == fs[closures[id].f].upvalueCount
    ensures var extra := Extra(argCount, fs[closures[id].f].arity);
            Holding(fs, Moved(frames, pc) + [Frame(closures[id].f, 0, base, extra, closures[id].upvalues)], closures, all)
    ensures |RefClosures(closures)| == |closures|
    ensures RefClosures(closures)[id] == RefClosure(closures[id].f, Cells(closures[id].upvalues))
  {
  }

  lemma RefFramesMoved(frames: seq<Frame>, pc: nat)
    requires frames != []
    ensures var rs := RefFrames(frames);
            rs != [] && RefFrames(Moved(frames, pc)) == rs[|rs| - 1 := rs[|rs| - 1].(pc := pc)]
  {
    hide Cells;
  }

  /** A script begins with its closure on the stack. */
  ghost function Start(): Ref {
    Ref(U.Pushed(U.View([], map[], 0), Object(0)), [RefFrame(0, 0, 0, 0, [])], [RefClosure(0, [])], [], Going)
  }

  lemma StartShows(all: set<U.Upvalue>)
    ensures all == {} ==> Shown(all) == {}
    ensures RefFrames([Frame(0, 0, 0, 0, [])]) == [RefFrame(0, 0, 0, 0, [])]
    ensures RefClosures([ObjClosure(0, [])]) == [RefClosure(0, [])]
  {
    assert Cells([]) == [];
  }

  class Runner {
    const A: Arith
    const fs: seq<Function>
    ghost const notes: seq<seq<C.Note>>
    const m: U.Machine
    var frames: seq<Frame>
    var closures: seq<ObjClosure>
    var out: seq<Value>
    var status: Status

    /** A script, whose closure is in slot 0. */
    constructor (A: Arith, fs: seq<Function>, ghost notes: seq<seq<C.Note>>, size: nat)
      requires WellTyped(fs, notes) && fs != [] && fs[0].arity == 0 == fs[0].upvalueCount && size > 0
      ensures Valid() && Now() == Start() && this.A == A && this.fs == fs
      ensures fresh(m) && fresh(m.stack) && m.all == {} && m.stack.Length == size
    {
      this.A, this.fs, this.notes := A, fs, notes;
      m := new U.Machine(size);
      frames := [Frame(0, 0, 0, 0, [])];
      closures := [ObjClosure(0, [])];
      out := [];
      status := Going;
      new;
      m.Push(Object(0));
      assert FunctionTyped(fs, fs[0], notes[0]);
      StartShows(m.all);
    }

    ghost predicate Valid()
      reads this, m, m.stack, m.all, m.open
    {
      && m.Valid() && WellTyped(fs, notes) && Holding(fs, frames, closures, m.all) && !status.Stuck?
      && (status.Going? ==> Stacked(fs, notes, frames, m.stackTop) && Guarded(fs, notes, frames, Shown(m.all)))
    }

    ghost function Now(): Ref
      reads this, m
    {
      Ref(m.view, RefFrames(frames), RefClosures(closures), out, status)
    }

    /** The instruction that is next. */
    function Current(): Instr
      reads this
      requires frames != [] && InCode(fs, frames[|frames| - 1])
    {
      fs[frames[|frames| - 1].f].code[frames[|frames| - 1].pc]
    }

    /** The top frame goes on at pc. */
    method Advance(pc: nat, ghost top: nat, ghost shown: set<int>)
      requires m.Valid() && WellTyped(fs, notes) && Holding(fs, frames, closures, m.all) && status.Going?
      requires frames != [] && Stacked(fs, notes, frames, top) && Guarded(fs, notes, frames, shown)
      requires Leading(fs, notes, frames, pc, m.stackTop, shown, Shown(m.all))
      modifies this`frames
      ensures Valid() && Now() == old(Now()).At(pc) && status.Going?
    {
      hide WellTyped, Stacked, Guarded, NoteAt, Shown, U.Machine.Valid;
      MovedStacked(fs, notes, frames, top, pc, m.stackTop, shown, Shown(m.all));
      RefFramesMoved(frames, pc);
      frames := frames[|frames| - 1 := frames[|frames| - 1].(pc := pc)];
    }

    /** What is to come of the next instruction, as the machine takes it. */
    ghost function Expected(): Ref
      reads this, m
      requires frames != [] && InCode(fs, frames[|frames| - 1])
    {
      Meaning(A, fs, Now(), RefFrames(frames)[|frames| - 1].(extra := 0), Current())
    }

    /** The machine is about to run i, and there is room for what it pushes. */
    ghost predicate Runs(i: Instr)
      reads this, m, m.stack, m.all, m.open
    {
      && Valid() && status.Going? && frames != [] && InCode(fs, frames[|frames| - 1]) && Current() == i
      && m.stackTop + ARITY_MAX < m.stack.Length && !Strays(fs, frames[|frames| - 1], m.stackTop, i)
    }

    lemma Ready(i: Instr)
      requires Runs(i)
      ensures var fr := frames[|frames| - 1];
        && Stacked(fs, notes, frames, m.stackTop) && Guarded(fs, notes, frames, Shown(m.all))
        && m.Valid() && WellTyped(fs, notes) && Holding(fs, frames, closures, m.all)
        && Allowed(fs, fs[fr.f].upvalueCount, i, NoteAt(notes, fr))
        && m.stackTop == fr.base + fr.extra + NoteAt(notes, fr).height == |m.view.slots|
        && fr.base + Pops(i) <= m.stackTop
        && (!i.CloseUpvalue? ==> forall u :: u in m.all ==> u.location < m.stackTop - Pops(i))
    {
      hide WellTyped, NoteAt, Guarded, Allowed, Holding, U.Machine.Settled;
      NoneTaken(fs, notes, frames, m.stackTop, Shown(m.all));
      MayRun(fs, notes, frames[|frames| - 1]);
      forall u | u in m.all && u.location != U.CLOSED ensures u.location in Shown(m.all) { }
    }

    /** Every slot names a cell. */
    lemma AllNamed()
      requires m.Valid()
      ensures forall i :: 0 <= i < |m.view.slots| ==> m.view.slots[i] in m.view.store
      ensures |m.view.slots| == m.stackTop
    {
    }

    method ExecConstant(v: Value)
      requires Runs(Constant(v))
      modifies this`frames, m, m.stack
      ensures Valid() && Now() == old(Expected()) && m.all == old(m.all)
    {
      hide WellTyped, Stacked, Guarded, NoteAt, Holding, Leading, Allowed, U.Machine.Settled, Shown, InCode;
      Ready(Constant(v));
      ghost var top, shown := m.stackTop, Shown(m.all);
      LeadingPlain(fs, notes, frames, top, frames[|frames| - 1].pc + 1, shown);
      m.Push(v);
      Advance(frames[|frames| - 1].pc + 1, top, shown);
    }

    method ExecGetLocal(slot: nat)
      requires Runs(GetLocal(slot))
      modifies this`frames, m, m.stack
      ensures Valid() && Now() == old(Expected()) && m.all == old(m.all)
    {
      hide WellTyped, Stacked, Guarded, NoteAt, Holding, Leading, U.Machine.Settled, Shown, InCode;
      Ready(GetLocal(slot));
      AllNamed();
      ghost var top, shown := m.stackTop, Shown(m.all);
      LeadingPlain(fs, notes, frames, top, frames[|frames| - 1].pc + 1, shown);
      var v := m.GetLocal(frames[|frames| - 1].base + slot);
      m.Push(v);
      Advance(frames[|frames| - 1].pc + 1, top, shown);
    }

    method ExecSetLocal(slot: nat)
      requires Runs(SetLocal(slot))
      modifies this`frames, m, m.stack
      ensures Valid() && Now() == old(Expected()) && m.all == old(m.all)
    {
      hide WellTyped, Stacked, Guarded, NoteAt, Holding, Leading, U.Machine.Settled, Shown, InCode;
      Ready(SetLocal(slot));
      AllNamed();
      ghost var top, shown := m.stackTop, Shown(m.all);
      LeadingPlain(fs, notes, frames, top, frames[|frames| - 1].pc + 1, shown);
      var v := m.GetLocal(m.stackTop - 1);
      m.SetLocal(frames[|frames| - 1].base + slot, v);
      Advance(frames[|frames| - 1].pc + 1, top, shown);
    }

    /** The upvalues of the function that runs. */
    lemma Known(index: nat)
      requires Holding(fs, frames, closures, m.all) && frames != [] && m.Valid()
      requires index < |frames[|frames| - 1].upvalues|
      ensures var u := frames[|frames| - 1].upvalues[index];
        && u in m.all && u.cell in m.view.store
        && |RefFrames(frames)| == |frames| && |RefFrames(frames)[|frames| - 1].cells| == |frames[|frames| - 1].upvalues|
        && RefFrames(frames)[|frames| - 1].cells[index] == u.cell
        && RefFrames(frames)[|frames| - 1].pc == frames[|frames| - 1].pc
    {
      m.UpvalueShows(frames[|frames| - 1].upvalues[index]);
    }

    lemma InCodeUpvalues()
      requires frames != [] && InCode(fs, frames[|frames| - 1])
      ensures frames[|frames| - 1].f < |fs|
      ensures |frames[|frames| - 1].upvalues| == fs[frames[|frames| - 1].f].upvalueCount
    {
    }

    method ExecGetUpvalue(index: nat)
      requires Runs(GetUpvalue(index))
      modifies this`frames, m, m.stack
      ensures Valid() && Now() == old(Expected()) && m.all == old(m.all)
    {
      hide WellTyped, Stacked, Guarded, NoteAt, Holding, Leading, U.Machine.Settled, Shown, InCode, RefFrames;
      Ready(GetUpvalue(index));
      InCodeUpvalues();
      Known(index);
      ghost var top, shown := m.stackTop, Shown(m.all);
      LeadingPlain(fs, notes, frames, top, frames[|frames| - 1].pc + 1, shown);
      var v := m.GetUpvalue(frames[|frames| - 1].upvalues[index]);
      m.Push(v);
      Advance(frames[|frames| - 1].pc + 1, top, shown);
    }

    method ExecSetUpvalue(index: nat)
      requires Runs(SetUpvalue(index))
      modifies this`frames, m, m.stack, m.all
      ensures Valid() && Now() == old(Expected()) && m.all == old(m.all)
    {
      hide WellTyped, Stacked, Guarded, NoteAt, Holding, Leading, U.Machine.Settled, Shown, InCode, RefFrames;
      Ready(SetUpvalue(index));
      InCodeUpvalues();
      Known(index);
      AllNamed();
      ghost var top, shown := m.stackTop, Shown(m.all);
      LeadingPlain(fs, notes, frames, top, frames[|frames| - 1].pc + 1, shown);
      var v := m.GetLocal(m.stackTop - 1);
      m.SetUpvalue(frames[|frames| - 1].upvalues[index], v);
      Advance(frames[|frames| - 1].pc + 1, top, shown);
    }

    /** The operands give way to the value, if there is one. */
    method Compute(i: Instr, n: nat, v: Option<Value>)
      requires Runs(i) && Pops(i) == n && Pushes(i) == 1 && (i.Bin? || i.Un?)
      modifies this`frames, this`status, m, m.stack
      ensures Valid() && m.all == old(m.all)
      ensures n <= |old(m.view).slots| && Now() == Computed(old(Now()), n, v, old(frames[|frames| - 1].pc) + 1)
    {
      hide WellTyped, Stacked, Guarded, NoteAt, Holding, Leading, Allowed, U.Machine.Settled, Shown, InCode;
      Ready(i);
      if v.None? {
        status := Failed;
        return;
      }
      ghost var top, shown := m.stackTop, Shown(m.all);
      LeadingPlain(fs, notes, frames, top, frames[|frames| - 1].pc + 1, shown);
      m.PopN(n);
      m.Push(v.value);
      Advance(frames[|frames| - 1].pc + 1, top, shown);
    }

    method ExecBin(op: BinOp)
      requires Runs(Bin(op))
      modifies this`frames, this`status, m, m.stack
      ensures Valid() && Now() == old(Expected()) && m.all == old(m.all)
    {
      hide WellTyped, Stacked, Guarded, NoteAt, Holding, Allowed, U.Machine.Settled, Shown, InCode, Computed, Apply;
      Ready(Bin(op));
      AllNamed();
      var a := m.GetLocal(m.stackTop - 2);
      var b := m.GetLocal(m.stackTop - 1);
      Compute(Bin(op), 2, Apply(A, op, a, b));
    }

    method ExecUn(op: UnOp)
      requires Runs(Un(op))
      modifies this`frames, this`status, m, m.stack
      ensures Valid() && Now() == old(Expected()) && m.all == old(m.all)
    {
      hide WellTyped, Stacked, Guarded, NoteAt, Holding, Allowed, U.Machine.Settled, Shown, InCode, Computed,
           ApplyUnary;
      Ready(Un(op));
      AllNamed();
      var a := m.GetLocal(m.stackTop - 1);
      Compute(Un(op), 1, ApplyUnary(A, op, a));
    }

    method ExecPrint()
      requires Runs(Print)
      modifies this`frames, this`out, m, m.stack
      ensures Valid() && Now() == old(Expected()) && m.all == old(m.all)
    {
      hide WellTyped, Stacked, Guarded, NoteAt, Holding, Leading, Allowed, U.Machine.Settled, Shown, InCode;
      Ready(Print);
      AllNamed();
      ghost var top, shown := m.stackTop, Shown(m.all);
      LeadingPlain(fs, notes, frames, top, frames[|frames| - 1].pc + 1, shown);
      var v := m.Pop();
      out := out + [v];
      Advance(frames[|frames| - 1].pc + 1, top, shown);
    }

    method ExecPopCount(n: nat)
      requires Runs(PopCount(n))
      modifies this`frames, m, m.stack
      ensures Valid() && Now() == old(Expected()) && m.all == old(m.all)
    {
      hide WellTyped, Stacked, Guarded, NoteAt, Holding, Leading, Allowed, U.Machine.Settled, Shown, InCode;
      Ready(PopCount(n));
      ghost var top, shown := m.stackTop, Shown(m.all);
      LeadingPlain(fs, notes, frames, top, frames[|frames| - 1].pc + 1, shown);
      m.PopN(n);
      Advance(frames[|frames| - 1].pc + 1, top, shown);
    }

    method ExecJump(target: nat)
      requires Runs(Jump(target))
      modifies this`frames
      ensures Valid() && Now() == old(Expected()) && m.all == old(m.all)
    {
      hide WellTyped, Stacked, Guarded, NoteAt, Holding, Leading, Allowed, U.Machine.Settled, Shown, InCode;
      Ready(Jump(target));
      LeadingPlain(fs, notes, frames, m.stackTop, target, Shown(m.all));
      Advance(target, m.stackTop, Shown(m.all));
    }

    method ExecJumpIfFalsePop(target: nat)
      requires Runs(JumpIfFalsePop(target))
      modifies this`frames, m, m.stack
      ensures Valid() && Now() == old(Expected()) && m.all == old(m.all)
    {
      hide WellTyped, Stacked, Guarded, NoteAt, Holding, Leading, Allowed, U.Machine.Settled, Shown, InCode;
      Ready(JumpIfFalsePop(target));
      AllNamed();
      ghost var top, shown := m.stackTop, Shown(m.all);
      var v := m.Pop();
      var pc := if Falsey(v) then target else frames[|frames| - 1].pc + 1;
      LeadingPlain(fs, notes, frames, top, pc, shown);
      Advance(pc, top, shown);
    }

    method ExecCloseUpvalue()
      requires Runs(CloseUpvalue)
      modifies this`frames, m, m.all
      ensures Valid() && Now() == old(Expected()) && m.all == old(m.all)
    {
      hide WellTyped, Stacked, Guarded, NoteAt, Holding, Leading, Allowed, U.Machine.Settled, InCode;
      Ready(CloseUpvalue);
      ghost var top, shown := m.stackTop, Shown(m.all);
      OpenKnown();
      m.CloseUpvalueAndPop();
      LeadingClose(fs, notes, frames, top, shown, Shown(m.all));
      Advance(frames[|frames| - 1].pc + 1, top, shown);
    }

    lemma OpenKnown()
      requires m.Valid()
      ensures forall u :: u in m.open ==> u in m.all
    {
    }

    /** What a closure captures is there. */
    lemma Capturable(f: nat, cs: seq<(bool, nat)>)
      requires Runs(Closure(f, cs))
      ensures var fr := frames[|frames| - 1];
        && f < |fs| && |cs| == fs[f].upvalueCount
        && (forall j :: 0 <= j < |cs| ==>
              if cs[j].0 then fr.base + cs[j].1 <= m.stackTop else cs[j].1 < |fr.upvalues|)
        && (forall j :: 0 <= j < |fr.upvalues| ==> fr.upvalues[j] in m.all)
    {
      hide WellTyped, Stacked, Guarded, NoteAt, U.Machine.Settled;
      Ready(Closure(f, cs));
    }

    /** An upvalue made for the closure shows one of the slots that it captures. */
    lemma NewShows(u: U.Upvalue, cs: seq<(bool, nat)>, upvalues: seq<U.Upvalue>, base: nat, enclosing: seq<U.Upvalue>,
                   all: set<U.Upvalue>)
      requires m.Valid() && u in m.all && u !in all && u in upvalues && |upvalues| == |cs|
      requires forall j :: 0 <= j < |enclosing| ==> enclosing[j] in all
      requires all <= m.all
      requires forall j :: 0 <= j < |cs| ==> if cs[j].0 then base + cs[j].1 < m.stackTop else cs[j].1 < |enclosing|
      requires forall j :: 0 <= j < |cs| ==> upvalues[j].cell == U.CellWanted(m.view, base, cs[j], enclosing)
      ensures u.location >= base && u.location - base in Captured(cs)
    {
      var j :| 0 <= j < |upvalues| && upvalues[j] == u;
      if cs[j].0 {
        m.SlotOf(base + cs[j].1);
        m.AtSlot(u, base + cs[j].1);
      } else {
        SameCell(u, enclosing[cs[j].1]);
      }
    }

    /** No two upvalues have the same cell. */
    lemma SameCell(u: U.Upvalue, w: U.Upvalue)
      requires m.Valid() && u in m.all && w in m.all && u.cell == w.cell
      ensures u == w
    {
    }

    /** A closure is on the stack before it captures. */
    method ExecClosure(f: nat, cs: seq<(bool, nat)>)
      requires Runs(Closure(f, cs))
      modifies this`frames, this`closures, m, m.stack, m.all
      ensures Valid() && Now() == old(Expected())
      ensures forall u :: u in m.all ==> u in old(m.all) || fresh(u)
    {
      hide WellTyped, Stacked, Guarded, NoteAt, Leading, U.Machine.Settled, InCode, Holding, Captured, RefFrames,
           RefClosures;
      Ready(Closure(f, cs));
      Capturable(f, cs);
      ghost var top, shown, all := m.stackTop, Shown(m.all), m.all;
      var fr := frames[|frames| - 1];
      m.Push(Object(|closures|));
      var upvalues := m.MakeClosure(fr.base, cs, fr.upvalues);
      forall u | u in m.all && u !in all ensures u.location >= fr.base && u.location - fr.base in Captured(cs) {
        NewShows(u, cs, upvalues, fr.base, fr.upvalues, all);
      }
      LeadingClosure(fs, notes, frames, top, shown, Shown(m.all));
      HoldingMore(fs, frames, closures, all, m.all, f, upvalues);
      CellsCaptured(fs, m.view, frames, cs, upvalues);
      RefClosuresMore(closures, ObjClosure(f, upvalues));
      closures := closures + [ObjClosure(f, upvalues)];
      Advance(fr.pc + 1, top, shown);
    }

    /** The called function's parameters that have no argument are nil. */
    method Pad(n: nat)
      requires m.Valid() && m.stackTop + n <= m.stack.Length
      modifies m, m.stack
      ensures m.Valid() && m.view == Padded(old(m.view), n) && m.all == old(m.all) && m.stackTop == old(m.stackTop) + n
    {
      hide U.Machine.Settled;
      for i := 0 to n
        invariant m.Valid() && m.all == old(m.all) && m.stackTop == old(m.stackTop) + i
        invariant Padded(m.view, n - i) == Padded(old(m.view), n)
      {
        m.Push(Nil);
      }
    }

    /** Surplus arguments become nil, and stay. */
    method Clear(n: nat)
      requires m.Valid() && n <= m.stackTop
      modifies m`view, m.stack
      ensures n <= |old(m.view).slots| && m.Valid() && m.view == Cleared(old(m.view), n)
    {
      hide U.Machine.Settled;
      AllNamed();
      for i := 0 to n
        invariant m.Valid() && m.view == Cleared(old(m.view), i)
      {
        m.SetLocal(m.stackTop - 1 - i, Nil);
      }
    }

    /** The arguments of a call, as many as there are, for the parameters of the function. */
    method Pass(argCount: nat, arity: nat)
      requires m.Valid() && argCount <= m.stackTop && m.stackTop + arity <= m.stack.Length
      modifies m, m.stack
      ensures argCount <= |old(m.view).slots| && m.Valid() && m.view == Arguments(old(m.view), argCount, arity)
      ensures m.all == old(m.all) && m.stackTop == old(m.stackTop) - argCount + arity + Extra(argCount, arity)
    {
      hide U.Machine.Settled, Padded, Cleared;
      AllNamed();
      if argCount <= arity { Pad(arity - argCount); } else { Clear(argCount - arity); }
    }

    method ExecCall(argCount: nat)
      requires Runs(Call(argCount))
      modifies this`frames, this`status, m, m.stack
      ensures Valid() && Now() == old(Expected()) && m.all == old(m.all)
    {
      hide WellTyped, Stacked, Guarded, NoteAt, Holding, Allowed, U.Machine.Settled, InCode, Shown, RefFrames,
           RefClosures,
           Arguments, Extra;
      Ready(Call(argCount));
      AllNamed();
      RefFramesLess(frames);
      ghost var top, shown, frames0 := m.stackTop, Shown(m.all), frames;
      var base := m.stackTop - argCount - 1;
      var callee := m.GetLocal(base);
      var pc := frames[|frames| - 1].pc + 1;
      RefFramesMoved(frames, pc);
      HoldingFrames(fs, frames, closures, m.all);
      frames := frames[|frames| - 1 := frames[|frames| - 1].(pc := pc)];
      assert frames == Moved(frames0, pc);
      RefClosuresMore(closures, ObjClosure(0, []));
      if !callee.Object? || callee.id >= |closures| {
        status := Failed;
        return;
      }
      var c := closures[callee.id];
      HoldingCalled(fs, frames0, closures, m.all, pc, base, argCount, callee.id);
      var arity := fs[c.f].arity;
      var called := Frame(c.f, 0, base, Extra(argCount, arity), c.upvalues);
      CalledStacked(fs, notes, frames0, top, shown, called, argCount);
      StartNote(fs, notes, called);
      Pass(argCount, arity);
      RefFramesMore(frames, called);
      frames := frames + [called];
    }

    method ExecReturn()
      requires Runs(Return)
      modifies this`frames, this`status, m, m.stack, m.all
      ensures Valid() && Now() == old(Expected()) && m.all == old(m.all)
    {
      if |frames| > 1 { LeaveFunction(); } else { LeaveScript(); }
    }

    method LeaveFunction()
      requires Runs(Return) && |frames| > 1
      modifies this`frames, m, m.stack, m.all
      ensures Valid() && Now() == old(Expected()) && m.all == old(m.all)
    {
      hide WellTyped, Stacked, Guarded, NoteAt, Holding, Allowed, U.Machine.Settled, InCode, RefFrames, RefClosures;
      Ready(Return);
      AllNamed();
      OpenKnown();
      RefFramesLess(frames);
      HoldingFrames(fs, frames, closures, m.all);
      ghost var top, shown := m.stackTop, Shown(m.all);
      m.Return(frames[|frames| - 1].base);
      ReturnedStacked(fs, notes, frames, top, shown, Shown(m.all));
      frames := frames[..|frames| - 1];
    }

    method LeaveScript()
      requires Runs(Return) && |frames| == 1
      modifies this`frames, this`status, m, m.stack, m.all
      ensures Valid() && Now() == old(Expected()) && m.all == old(m.all)
    {
      hide WellTyped, Stacked, Guarded, NoteAt, Holding, Allowed, U.Machine.Settled, InCode, RefFrames, RefClosures,
           Shown;
      Ready(Return);
      AllNamed();
      OpenKnown();
      RefFramesLess(frames);
      HoldingFrames(fs, frames, closures, m.all);
      m.Return(frames[0].base);
      frames := frames[..|frames| - 1];
      var result := m.Pop();
      status := Done;
    }

    /** The next instruction strays among surplus arguments. */
    predicate Straying()
      reads this, m
    {
      frames != [] && InCode(fs, frames[|frames| - 1]) && Strays(fs, frames[|frames| - 1], m.stackTop, Current())
    }

    lemma StrayingHas()
      ensures Straying() ==> frames != [] && frames[|frames| - 1].extra > 0
    {
    }

    /** One instruction, for which there is room. */
    method Execute()
      requires Valid() && status.Going? && m.stackTop + ARITY_MAX < m.stack.Length && !Straying()
      modifies this`frames, this`closures, this`out, this`status, m, m.stack, m.all
      ensures Valid() && Now() == Step(A, fs, true, old(Now()))
      ensures forall u :: u in m.all ==> u in old(m.all) || fresh(u)
    {
      hide WellTyped, Guarded, NoteAt, Holding, U.Machine.Settled, Shown, Meaning, Strays;
      StepIs();
      var i := Current();
      match i
      case Constant(v) => ExecConstant(v);
      case GetLocal(slot) => ExecGetLocal(slot);
      case SetLocal(slot) => ExecSetLocal(slot);
      case GetUpvalue(index) => ExecGetUpvalue(index);
      case SetUpvalue(index) => ExecSetUpvalue(index);
      case Closure(f, cs) => ExecClosure(f, cs);
      case Bin(op) => ExecBin(op);
      case Un(op) => ExecUn(op);
      case Print => ExecPrint();
      case PopCount(n) => ExecPopCount(n);
      case CloseUpvalue => ExecCloseUpvalue();
      case Jump(target) => ExecJump(target);
      case JumpIfFalsePop(target) => ExecJumpIfFalsePop(target);
      case Call(argCount) => ExecCall(argCount);
      case Return => ExecReturn();
    }

    lemma StepIs()
      requires Valid() && status.Going?
      ensures frames != [] && InCode(fs, frames[|frames| - 1]) && Step(A, fs, true, Now()) == Expected()
    {
      hide WellTyped, Guarded, NoteAt, Holding, U.Machine.Settled, Shown, Meaning;
    }

    /** Up to `steps` instructions: the machine is where its variables, each a cell, would be, with the list of open
        upvalues in order.  Only an end of the program, a full stack, too many calls, or an instruction that strays among
        surplus arguments stops it earlier. */
    method Interpret(steps: nat) returns (k: nat)
      requires Valid()
      modifies this`frames, this`closures, this`out, this`status, m, m.stack, m.all
      ensures Valid() && k <= steps && Now() == Run(A, fs, true, old(Now()), k) && !Now().status.Stuck?
      ensures k < steps ==>
                !status.Going? || m.stackTop + ARITY_MAX >= m.stack.Length || |frames| >= FRAMES_MAX
                || (Straying() && frames != [] && frames[|frames| - 1].extra > 0)
    {
      hide WellTyped, Stacked, Guarded, NoteAt, Holding, U.Machine.Settled, Shown, Step, Straying;
      k := 0;
      while k < steps && status.Going? && m.stackTop + ARITY_MAX < m.stack.Length && |frames| < FRAMES_MAX && !Straying()
        invariant Valid() && k <= steps && Now() == Run(A, fs, true, old(Now()), k)
        invariant forall u :: u in m.all ==> u in old(m.all) || fresh(u)
      {
        Execute();
        k := k + 1;
      }
      StrayingHas();
    }
  }
}
