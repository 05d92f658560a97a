/** How locals leave the stack.  POP forgets a slot; CLOSE_UPVALUE hands its value to the upvalue that shows it.  A code
    position is noted with the height of the stack and the slots that an open upvalue may show there, and code whose
    instructions agree with their notes never pops such a slot. */
module Captures {

  datatype Op =
    | Closure(captured: seq<nat>)   // pushes a value; the closures made on the way capture these slots
    | PopCount(n: nat)              // OP_POP and OP_POP_N
    | Consume                       // any instruction that takes the value on top
    | CloseUpvalue
    | Jump(target: nat)
    | JumpIfFalsePop(target: nat)
    | Return

  datatype Note = Note(height: nat, open: set<nat>)

  function Pops(op: Op): nat {
    match op
    case Closure(_) => 0
    case PopCount(n) => n
    case Jump(_) => 0
    case _ => 1
  }

  predicate IsJump(op: Op) {
    op.Jump? || op.JumpIfFalsePop?
  }

  predicate Falls(op: Op) {
    !op.Jump? && !op.Return?
  }

  predicate Below(open: set<nat>, height: nat) {
    forall s :: s in open ==> s < height
  }

  /** What an instruction relies on: only CLOSE_UPVALUE may take a slot that an open upvalue shows. */
  predicate Allowed(op: Op, n: Note) {
    && Pops(op) <= n.height
    && (op.CloseUpvalue? || Below(n.open, n.height - Pops(op)))
    && (op.Closure? ==> forall c :: c in op.captured ==> c <= n.height)
  }

  /** A closure is on the stack before it captures, so that a function can capture itself. */
  function Behind(op: Op, n: Note): Note
    requires Pops(op) <= n.height
  {
    match op
    case Closure(cs) => Note(n.height + 1, n.open + set c | c in cs)
    case CloseUpvalue => Note(n.height - 1, n.open - {n.height - 1})
    case _ => Note(n.height - Pops(op), n.open)
  }

  // ---- Runs ----

  datatype State = Running(pc: nat, n: Note) | Finished | Unsafe

  /** One instruction; `taken` decides a conditional jump. */
  function Step(code: seq<Op>, s: State, taken: bool): State {
    if !s.Running? then s
    else if s.pc >= |code| || !Allowed(code[s.pc], s.n) then Unsafe
    else
      var op, n := code[s.pc], Behind(code[s.pc], s.n);
      match op
      case Return => Finished
      case Jump(t) => Running(t, n)
      case JumpIfFalsePop(t) => Running(if taken then t else s.pc + 1, n)
      case _ => Running(s.pc + 1, n)
  }

  function Run(code: seq<Op>, s: State, choice: nat -> bool, k: nat): State {
    if k == 0 then s else Step(code, Run(code, s, choice, k - 1), choice(k - 1))
  }

  /** From the note on, no run comes to an instruction that takes a slot with an open upvalue. */
  ghost predicate Safe(code: seq<Op>, n: Note) {
    forall choice: nat -> bool, k: nat :: !Run(code, Running(0, n), choice, k).Unsafe?
  }

  predicate Leads(a: Note, b: Note) {
    a.height == b.height && a.open <= b.open
  }

  /** The instruction at p is allowed, and leads to positions with the notes it leaves. */
  predicate Agrees(code: seq<Op>, notes: seq<Note>, p: nat)
    requires p < |code| && |code| <= |notes|
  {
    var op, n := code[p], notes[p];
    && Allowed(op, n)
    && (Falls(op) ==> p + 1 < |notes| && Leads(Behind(op, n), notes[p + 1]))
    && (IsJump(op) ==> op.target < |notes| && Leads(Behind(op, n), notes[op.target]))
  }

  predicate Typed(code: seq<Op>, notes: seq<Note>) {
    |notes| == |code| && forall p :: 0 <= p < |code| ==> Agrees(code, notes, p)
  }

  lemma LeadsBehind(op: Op, a: Note, b: Note)
    requires Leads(a, b) && Allowed(op, b)
    ensures Allowed(op, a) && Leads(Behind(op, a), Behind(op, b))
  {
  }

  /** Wherever a run of typed code is, the stack has the height noted there, and the open upvalues are among those
      noted. */
  lemma {:induction false} RunsNoted(code: seq<Op>, notes: seq<Note>, n: Note, choice: nat -> bool, k: nat)
    requires Typed(code, notes) && |code| > 0 && Leads(n, notes[0])
    ensures var s := Run(code, Running(0, n), choice, k);
            !s.Unsafe? && (s.Running? ==> s.pc < |code| && Leads(s.n, notes[s.pc]))
  {
    hide Allowed, Behind, Leads;
    if k > 0 {
      RunsNoted(code, notes, n, choice, k - 1);
      var s := Run(code, Running(0, n), choice, k - 1);
      if s.Running? {
        assert Agrees(code, notes, s.pc);
        LeadsBehind(code[s.pc], s.n, notes[s.pc]);
        LeadsOn(code, notes, s.pc, Behind(code[s.pc], s.n));
      }
    }
  }

  lemma LeadsOn(code: seq<Op>, notes: seq<Note>, p: nat, n: Note)
    requires p < |code| <= |notes| && Agrees(code, notes, p) && Leads(n, Behind(code[p], notes[p]))
    ensures Falls(code[p]) ==> Leads(n, notes[p + 1])
    ensures IsJump(code[p]) ==> Leads(n, notes[code[p].target])
  {
  }

  lemma TypedSafe(code: seq<Op>, notes: seq<Note>, n: Note)
    requires Typed(code, notes) && |code| > 0 && Leads(n, notes[0])
    ensures Safe(code, n)
  {
    hide Run, Typed, Leads;
    forall choice: nat -> bool, k: nat ensures !Run(code, Running(0, n), choice, k).Unsafe? {
      RunsNoted(code, notes, n, choice, k);
    }
  }

  // ---- Code under construction ----

  /** The last note is that of the position behind the code.  The holes are jumps whose target is not known yet, or not
      yet noted with all that can be open there.  The bounds are the positions between statements, with the number of
      locals there. */
  datatype Draft = Draft(code: seq<Op>, notes: seq<Note>, holes: set<nat>, bounds: map<nat, nat>)

  predicate Fits(d: Draft, p: nat)
    requires p < |d.code| < |d.notes|
  {
    var op, n := d.code[p], d.notes[p];
    && Allowed(op, n)
    && (Falls(op) ==> Leads(Behind(op, n), d.notes[p + 1]))
    && (IsJump(op) && p !in d.holes ==> op.target <= |d.code| && Leads(Behind(op, n), d.notes[op.target]))
  }

  ghost predicate Sound(d: Draft) {
    && |d.notes| == |d.code| + 1
    && (forall p :: 0 <= p < |d.code| ==> Fits(d, p))
    && (forall p :: 0 <= p <= |d.code| ==> Below(d.notes[p].open, d.notes[p].height))
    && (forall p :: p in d.holes ==> p < |d.code| && IsJump(d.code[p]))
    && (forall p :: p in d.bounds ==> p <= |d.code| && d.notes[p].height == d.bounds[p])
  }

  function Here(d: Draft): Note
    requires |d.notes| == |d.code| + 1
  {
    d.notes[|d.code|]
  }

  function Added(d: Draft, op: Op, next: Note): Draft {
    Draft(d.code + [op], d.notes + [next], if IsJump(op) then d.holes + {|d.code|} else d.holes, d.bounds)
  }

  lemma AddedSound(d: Draft, op: Op, next: Note)
    requires Sound(d) && Allowed(op, Here(d)) && Below(next.open, next.height)
    requires Falls(op) ==> Leads(Behind(op, Here(d)), next)
    ensures Sound(Added(d, op, next)) && Here(Added(d, op, next)) == next
  {
    hide Allowed, Behind, Leads, Below;
    var d' := Added(d, op, next);
    forall p | 0 <= p < |d'.code| ensures Fits(d', p) {
      if p < |d.code| { assert Fits(d, p); }
    }
  }

  function Aimed(op: Op, t: nat): Op
    requires IsJump(op)
  {
    if op.Jump? then Jump(t) else JumpIfFalsePop(t)
  }

  /** The jump at p leads to the end of the code. */
  function Patched(d: Draft, p: nat): Draft
    requires p < |d.code| && IsJump(d.code[p])
  {
    Draft(d.code[p := Aimed(d.code[p], |d.code|)], d.notes, d.holes - {p}, d.bounds)
  }

  predicate CanPatch(d: Draft, p: nat)
    requires |d.notes| == |d.code| + 1
  {
    && p in d.holes && p < |d.code| && IsJump(d.code[p]) && Pops(d.code[p]) <= d.notes[p].height
    && Leads(Behind(d.code[p], d.notes[p]), Here(d))
  }

  lemma PatchedSound(d: Draft, p: nat)
    requires Sound(d) && CanPatch(d, p)
    ensures Sound(Patched(d, p)) && Here(Patched(d, p)) == Here(d)
  {
    hide Leads, Below;
    var d' := Patched(d, p);
    forall q | 0 <= q < |d'.code| ensures Fits(d', q) { assert Fits(d, q); }
  }

  // ---- Loops ----

  /** A loop under construction: its code starts at top, and nothing in it goes below its height.  The outs lead out of
      it, the backs to its start or its increment. */
  datatype Region = Region(top: nat, height: nat, outs: set<nat>, backs: set<nat>)

  predicate Inside(d: Draft, r: Region, p: nat)
    requires p < |d.code| < |d.notes|
  {
    && r.height <= d.notes[p].height
    && (d.code[p].Return? ==> r.height < d.notes[p].height)
    && (IsJump(d.code[p]) && p !in d.holes ==> r.top <= d.code[p].target)
  }

  predicate Leaves(d: Draft, r: Region, captured: set<nat>, j: nat)
    requires |d.code| < |d.notes|
  {
    r.top <= j < |d.code| && j in d.holes && d.code[j].Jump? && d.notes[j].height == r.height && d.notes[j].open <= captured
  }

  predicate GoesBack(d: Draft, r: Region, j: nat)
    requires |d.code| < |d.notes|
  {
    j < |d.code| && d.code[j].Jump? && r.top <= d.code[j].target <= |d.code|
    && d.notes[d.code[j].target].height == r.height
  }

  ghost predicate RegionOk(d: Draft, r: Region, captured: set<nat>)
    requires |d.notes| == |d.code| + 1
  {
    && r.top <= |d.code| && r.height <= Here(d).height
    && (forall p :: r.top <= p < |d.code| ==> Inside(d, r, p))
    && (forall j :: j in r.outs + r.backs ==> Leaves(d, r, captured, j))
    && (forall j :: j in r.backs ==> GoesBack(d, r, j))
  }

  /** The loops around the position, from the outermost on; captured are the slots that closures are known to capture. */
  ghost predicate RegionsOk(d: Draft, rs: seq<Region>, captured: set<nat>)
    requires |d.notes| == |d.code| + 1
  {
    && (forall i :: 0 <= i < |rs| ==> RegionOk(d, rs[i], captured))
    && (forall i, k :: 0 <= i < k < |rs| ==> Around(rs[i], rs[k]))
  }

  predicate Around(r: Region, inner: Region) {
    r.top <= inner.top && r.height <= inner.height && forall j :: j in r.outs + r.backs ==> j < inner.top
  }

  ghost predicate Good(d: Draft, rs: seq<Region>, captured: set<nat>) {
    Sound(d) && RegionsOk(d, rs, captured)
  }

  /** Every loop around leaves room below the height. */
  predicate Room(rs: seq<Region>, height: nat) {
    forall i :: 0 <= i < |rs| ==> rs[i].height <= height
  }

  lemma SoundSize(d: Draft)
    requires Sound(d)
    ensures |d.notes| == |d.code| + 1 && Below(Here(d).open, Here(d).height)
  {
  }

  lemma AddedGood(d: Draft, rs: seq<Region>, captured: set<nat>, op: Op, next: Note)
    requires Good(d, rs, captured) && Allowed(op, Here(d)) && Below(next.open, next.height)
    requires Falls(op) ==> Leads(Behind(op, Here(d)), next)
    requires Room(rs, next.height) && (op.Return? ==> forall i :: 0 <= i < |rs| ==> rs[i].height < Here(d).height)
    ensures Good(Added(d, op, next), rs, captured) && Here(Added(d, op, next)) == next
  {
    hide Sound, Allowed, Behind, Leads, Below, RegionOk;
    SoundSize(d);
    AddedSound(d, op, next);
    SoundSize(Added(d, op, next));
    forall i | 0 <= i < |rs| ensures RegionOk(Added(d, op, next), rs[i], captured) {
      AddedRegion(d, rs[i], captured, op, next);
    }
  }

  lemma AddedRegion(d: Draft, r: Region, captured: set<nat>, op: Op, next: Note)
    requires |d.notes| == |d.code| + 1 && RegionOk(d, r, captured) && r.height <= next.height
    requires op.Return? ==> r.height < Here(d).height
    ensures RegionOk(Added(d, op, next), r, captured)
  {
    var d' := Added(d, op, next);
    forall p | r.top <= p < |d'.code| ensures Inside(d', r, p) {
      if p < |d.code| { assert Inside(d, r, p); }
    }
    forall j | j in r.outs + r.backs ensures Leaves(d', r, captured, j) { assert Leaves(d, r, captured, j); }
    forall j | j in r.backs ensures GoesBack(d', r, j) { assert GoesBack(d, r, j); }
  }

  lemma PatchedGood(d: Draft, rs: seq<Region>, captured: set<nat>, p: nat)
    requires Good(d, rs, captured) && |d.notes| == |d.code| + 1 && CanPatch(d, p)
    requires forall i :: 0 <= i < |rs| ==> p !in rs[i].outs + rs[i].backs
    ensures Good(Patched(d, p), rs, captured) && Here(Patched(d, p)) == Here(d)
  {
    hide Sound, CanPatch, RegionOk;
    PatchedSound(d, p);
    HoleFits(d, p);
    forall i | 0 <= i < |rs| ensures RegionOk(Patched(d, p), rs[i], captured) {
      PatchedRegion(d, rs[i], captured, p);
    }
  }

  lemma HoleFits(d: Draft, p: nat)
    requires |d.notes| == |d.code| + 1 && CanPatch(d, p)
    ensures p in d.holes && p < |d.code| && IsJump(d.code[p])
  {
  }

  lemma PatchedRegion(d: Draft, r: Region, captured: set<nat>, q: nat)
    requires |d.notes| == |d.code| + 1 && RegionOk(d, r, captured) && q < |d.code| && IsJump(d.code[q])
    requires q !in r.outs + r.backs
    ensures RegionOk(Patched(d, q), r, captured)
  {
    var d' := Patched(d, q);
    forall p | r.top <= p < |d'.code| ensures Inside(d', r, p) { assert Inside(d, r, p); }
    forall j | j in r.outs + r.backs ensures Leaves(d', r, captured, j) { assert Leaves(d, r, captured, j); }
    forall j | j in r.backs ensures GoesBack(d', r, j) { assert GoesBack(d, r, j); }
  }

  /** The slots known as captured in `captured` are, as far as they are below every loop, in captured1. */
  lemma CapturedGood(d: Draft, rs: seq<Region>, captured: set<nat>, captured1: set<nat>)
    requires Good(d, rs, captured)
    requires forall i, s :: 0 <= i < |rs| && s in captured && s < rs[i].height ==> s in captured1
    ensures Good(d, rs, captured1)
  {
    forall i | 0 <= i < |rs| ensures RegionOk(d, rs[i], captured1) {
      var r := rs[i];
      assert RegionOk(d, r, captured);
      forall j | j in r.outs + r.backs ensures Leaves(d, r, captured1, j) {
        assert Leaves(d, r, captured, j) && Below(d.notes[j].open, r.height);
      }
    }
  }

  /** A loop begins. */
  lemma PushedGood(d: Draft, rs: seq<Region>, captured: set<nat>)
    requires Good(d, rs, captured) && |d.notes| == |d.code| + 1
    ensures Good(d, rs + [Region(|d.code|, Here(d).height, {}, {})], captured)
  {
    var rs' := rs + [Region(|d.code|, Here(d).height, {}, {})];
    forall i, k | 0 <= i < k < |rs'| ensures Around(rs'[i], rs'[k]) {
      assert RegionOk(d, rs[i], captured);
      if k < |rs| { assert Around(rs[i], rs[k]); }
      forall j | j in rs[i].outs + rs[i].backs ensures j < |d.code| { assert Leaves(d, rs[i], captured, j); }
    }
  }

  function WithInnermost(rs: seq<Region>, r: Region): seq<Region>
    requires rs != []
  {
    rs[|rs| - 1 := r]
  }

  /** The innermost loop is known by other jumps. */
  lemma InnermostGood(d: Draft, rs: seq<Region>, captured: set<nat>, r: Region)
    requires Good(d, rs, captured) && |d.notes| == |d.code| + 1 && rs != []
    requires r.top == rs[|rs| - 1].top && r.height == rs[|rs| - 1].height
    requires forall j :: j in r.outs + r.backs ==> Leaves(d, r, captured, j)
    requires forall j :: j in r.backs ==> GoesBack(d, r, j)
    ensures Good(d, WithInnermost(rs, r), captured)
  {
    var rs', n := WithInnermost(rs, r), |rs| - 1;
    assert RegionOk(d, rs[n], captured);
    forall p | r.top <= p < |d.code| ensures Inside(d, r, p) { assert Inside(d, rs[n], p); }
    forall i, k | 0 <= i < k < |rs'| ensures Around(rs'[i], rs'[k]) { assert Around(rs[i], rs[k]); }
  }

  // ---- The end of a loop ----

  /** From top on, the slots X may be open too. */
  function Widened(d: Draft, top: nat, X: set<nat>): Draft {
    d.(notes := seq(|d.notes|, p requires 0 <= p < |d.notes| =>
                      if p < top then d.notes[p] else Note(d.notes[p].height, d.notes[p].open + X)))
  }

  lemma WidenedSound(d: Draft, r: Region, captured: set<nat>, X: set<nat>)
    requires Sound(d) && |d.notes| == |d.code| + 1 && RegionOk(d, r, captured) && Below(X, r.height)
    ensures Sound(Widened(d, r.top, X))
  {
    var d' := Widened(d, r.top, X);
    forall p | 0 <= p < |d'.code| ensures Fits(d', p) { WidenedFits(d, r, captured, X, p); }
    forall p | 0 <= p <= |d'.code| ensures Below(d'.notes[p].open, d'.notes[p].height) {
      if r.top <= p < |d.code| { assert Inside(d, r, p); }
    }
  }

  lemma WidenedFits(d: Draft, r: Region, captured: set<nat>, X: set<nat>, p: nat)
    requires Sound(d) && |d.notes| == |d.code| + 1 && RegionOk(d, r, captured) && Below(X, r.height) && p < |d.code|
    ensures Fits(Widened(d, r.top, X), p)
  {
    assert Fits(d, p);
    if r.top <= p {
      assert Inside(d, r, p);
      assert p + 1 < |d.code| ==> Inside(d, r, p + 1);
      var op := d.code[p];
      if IsJump(op) && p !in d.holes { assert op.target < |d.code| ==> Inside(d, r, op.target); }
    }
  }

  lemma WidenedRegion(d: Draft, r: Region, captured: set<nat>, top: nat, X: set<nat>)
    requires |d.notes| == |d.code| + 1 && RegionOk(d, r, captured) && forall j :: j in r.outs + r.backs ==> j < top
    ensures RegionOk(Widened(d, top, X), r, captured)
  {
    var d' := Widened(d, top, X);
    forall p | r.top <= p < |d'.code| ensures Inside(d', r, p) { assert Inside(d, r, p); }
    forall j | j in r.outs + r.backs ensures Leaves(d', r, captured, j) { assert Leaves(d, r, captured, j); }
    forall j | j in r.backs ensures GoesBack(d', r, j) { assert GoesBack(d, r, j); }
  }

  /** The jumps back lead where all is noted that they bring. */
  lemma SettledSound(d: Draft, r: Region, captured: set<nat>)
    requires Sound(d) && |d.notes| == |d.code| + 1 && RegionOk(d, r, captured) && Below(captured, r.height)
    ensures Sound(Widened(d, r.top, captured).(holes := d.holes - r.backs))
  {
    WidenedSound(d, r, captured, captured);
    var d' := Widened(d, r.top, captured);
    var e := d'.(holes := d.holes - r.backs);
    forall p | 0 <= p < |e.code| ensures Fits(e, p) {
      assert Fits(d', p);
      if p in r.backs { assert GoesBack(d, r, p) && Leaves(d, r, captured, p); }
    }
  }

  /** The innermost loop is complete. */
  function LoopClosed(d: Draft, r: Region, captured: set<nat>): Draft {
    Widened(d, r.top, captured).(holes := d.holes - r.backs)
  }

  lemma ClosedGood(d: Draft, rs: seq<Region>, captured: set<nat>)
    requires Good(d, rs, captured) && |d.notes| == |d.code| + 1 && rs != []
    requires Here(d) == Note(rs[|rs| - 1].height, captured)
    ensures var d' := LoopClosed(d, rs[|rs| - 1], captured);
            Good(d', rs[..|rs| - 1], captured) && |d'.notes| == |d'.code| + 1 && Here(d') == Here(d)
  {
    hide Sound, RegionOk;
    var n := |rs| - 1;
    var r := rs[n];
    SoundSize(d);
    SettledSound(d, r, captured);
    forall i | 0 <= i < n ensures RegionOk(LoopClosed(d, r, captured), rs[i], captured) {
      assert Around(rs[i], r);
      WidenedRegion(d, rs[i], captured, r.top, captured);
      SettledRegion(Widened(d, r.top, captured), rs[i], captured, d, r);
    }
    TopFits(d, r, captured);
  }

  lemma TopFits(d: Draft, r: Region, captured: set<nat>)
    requires |d.notes| == |d.code| + 1 && RegionOk(d, r, captured) && Here(d).open == captured
    ensures Here(LoopClosed(d, r, captured)) == Here(d)
  {
    assert captured + captured == captured;
  }

  lemma SettledRegion(d: Draft, r: Region, captured: set<nat>, d0: Draft, inner: Region)
    requires |d.notes| == |d.code| + 1 && RegionOk(d, r, captured) && Around(r, inner)
    requires d == Widened(d0, inner.top, captured) && |d0.notes| == |d0.code| + 1 && RegionOk(d0, inner, captured)
    ensures RegionOk(d.(holes := d.holes - inner.backs), r, captured)
  {
    var e := d.(holes := d.holes - inner.backs);
    forall j | j in inner.backs ensures inner.top <= j { assert Leaves(d0, inner, captured, j); }
    forall p | r.top <= p < |e.code| ensures Inside(e, r, p) {
      assert Inside(d, r, p);
      if p in inner.backs { assert GoesBack(d0, inner, p); }
    }
    forall j | j in r.outs + r.backs ensures Leaves(e, r, captured, j) {
      assert Leaves(d, r, captured, j);
    }
    forall j | j in r.backs ensures GoesBack(e, r, j) { assert GoesBack(d, r, j); }
  }

  // ---- Whole functions ----

  /** A position between statements is recorded. */
  function Marked(d: Draft): Draft
    requires |d.notes| == |d.code| + 1
  {
    d.(bounds := d.bounds[|d.code| := Here(d).height])
  }

  lemma MarkedGood(d: Draft, rs: seq<Region>, captured: set<nat>)
    requires Good(d, rs, captured) && |d.notes| == |d.code| + 1
    ensures Good(Marked(d), rs, captured)
  {
    var d' := Marked(d);
    forall p | 0 <= p < |d'.code| ensures Fits(d', p) { assert Fits(d, p); }
    forall i | 0 <= i < |rs| ensures RegionOk(d', rs[i], captured) {
      var r := rs[i];
      assert RegionOk(d, r, captured);
      forall p | r.top <= p < |d'.code| ensures Inside(d', r, p) { assert Inside(d, r, p); }
      forall j | j in r.outs + r.backs ensures Leaves(d', r, captured, j) { assert Leaves(d, r, captured, j); }
      forall j | j in r.backs ensures GoesBack(d', r, j) { assert GoesBack(d, r, j); }
    }
  }

  /** The code ends with a return. */
  lemma {:induction false} FinishedTyped(d: Draft)
    requires Sound(d) && d.holes == {}
    ensures var n := Here(d);
            Typed(d.code + [Closure([]), Return], d.notes + [Note(n.height + 1, n.open)])
    ensures forall p :: p in d.bounds ==> p <= |d.code| && d.notes[p].height == d.bounds[p]
  {
    var n := Here(d);
    var code, notes := d.code + [Closure([]), Return], d.notes + [Note(n.height + 1, n.open)];
    forall p | 0 <= p < |code| ensures Agrees(code, notes, p) {
      if p < |d.code| { assert Fits(d, p); }
    }
  }
}
