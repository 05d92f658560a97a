/** Compiled functions on the machine: what Captures notes of code is what its runs rely on, so that no instruction of a
    compiled function forgets a variable that a closure still shows. */
module Activations {
  import opened Values
  import opened Captures
  import U = Upvalues

  /** The frame of the function begins at `base`; above it only noted slots are shown by open upvalues. */
  ghost predicate Matches(m: U.Machine, base: nat, n: Note)
    reads m, m.stack, m.all, m.open
  {
    && m.Valid() && m.stackTop == base + n.height
    && forall u :: u in m.all ==> u.location < base || u.location - base in n.open
  }

  /** What the instruction does to the variables: whether a slot is popped or closed makes no difference. */
  ghost function Seen(op: Op, v: U.View, base: nat, value: Value): U.View {
    match op
    case Closure(_) => U.Pushed(v, value)
    case Jump(_) => v
    case Return =>
      if base < |v.slots| && v.slots[|v.slots| - 1] in v.store
      then U.Pushed(U.Cut(v, base), v.store[v.slots[|v.slots| - 1]]) else v
    case _ => if Pops(op) <= |v.slots| then U.Cut(v, |v.slots| - Pops(op)) else v
  }

  /** The variables after k instructions of a run. */
  ghost function SeenAfter(code: seq<Op>, s: State, choice: nat -> bool, values: nat -> Value, v: U.View, base: nat, k: nat): U.View {
    if k == 0 then v
    else
      var v' := SeenAfter(code, s, choice, values, v, base, k - 1);
      var s' := Run(code, s, choice, k - 1);
      if s'.Running? && s'.pc < |code| then Seen(code[s'.pc], v', base, values(k - 1)) else v'
  }

  /** A closure is pushed, and its upvalues are those of the captured variables. */
  method MakeClosure(m: U.Machine, base: nat, captured: seq<nat>, value: Value, ghost n: Note)
    requires Matches(m, base, n) && m.stackTop < m.stack.Length && Allowed(Closure(captured), n)
    modifies m, m.stack, m.all
    ensures Matches(m, base, Behind(Closure(captured), n)) && m.view == U.Pushed(old(m.view), value)
    ensures forall u :: u in m.all ==> u in old(m.all) || fresh(u)
  {
    hide U.Machine.Settled;
    forall i | 0 <= i < |captured| ensures captured[i] <= n.height { assert captured[i] in captured; }
    m.Push(value);
    var wanted := seq(|captured|, i requires 0 <= i < |captured| => (true, captured[i]));
    var upvalues := m.MakeClosure(base, wanted, []);
    forall u | u in m.all && u !in old(m.all) ensures u.location >= base && u.location - base in captured {
      var i :| 0 <= i < |upvalues| && upvalues[i] == u;
      m.SlotOf(base + captured[i]);
      m.AtSlot(u, base + captured[i]);
    }
  }

  /** The values on top go, and no open upvalue shows one of them. */
  method Drop(m: U.Machine, base: nat, op: Op, ghost n: Note)
    requires Matches(m, base, n) && Allowed(op, n) && !op.Closure? && !op.CloseUpvalue?
    modifies m
    ensures Matches(m, base, Behind(op, n)) && m.view == U.Cut(old(m.view), |old(m.view).slots| - Pops(op))
    ensures m.all == old(m.all)
  {
    hide U.Machine.Settled;
    m.PopN(Pops(op));
  }

  /** The variable on top goes; its upvalue, if it has one, takes it over. */
  method Close(m: U.Machine, base: nat, ghost n: Note)
    requires Matches(m, base, n) && Allowed(CloseUpvalue, n)
    modifies m, m.all
    ensures Matches(m, base, Behind(CloseUpvalue, n)) && m.view == U.Cut(old(m.view), |old(m.view).slots| - 1)
    ensures m.all == old(m.all)
  {
    hide U.Machine.Settled;
    ListedOpen(m);
    m.CloseUpvalueAndPop();
  }

  /** The function's variables go, but for those that closures took over, and its result is left. */
  method Leave(m: U.Machine, base: nat, ghost n: Note)
    requires Matches(m, base, n) && Allowed(Return, n) && base + n.height <= m.stack.Length
    modifies m, m.stack, m.all
    ensures m.Valid() && m.stackTop == base + 1 && m.view == Seen(Return, old(m.view), base, Nil)
    ensures forall u :: u in m.all ==> u.location < base
    ensures m.all == old(m.all)
  {
    hide U.Machine.Settled;
    ListedOpen(m);
    m.TopShows(m.stackTop - 1);
    m.Return(base);
  }

  lemma ListedOpen(m: U.Machine)
    requires m.Valid()
    ensures forall u :: u in m.open ==> u in m.all
  {
  }

  /** One instruction other than a return. */
  method ExecuteOne(m: U.Machine, base: nat, op: Op, value: Value, ghost n: Note)
    requires Matches(m, base, n) && Allowed(op, n) && !op.Return? && (op.Closure? ==> m.stackTop < m.stack.Length)
    modifies m, m.stack, m.all
    ensures Matches(m, base, Behind(op, n)) && m.view == Seen(op, old(m.view), base, value)
    ensures forall u :: u in m.all ==> u in old(m.all) || fresh(u)
  {
    hide Matches, Allowed, Behind;
    SlotCount(m, base, op, n);
    if op.Closure? {
      MakeClosure(m, base, op.captured, value, n);
    } else if op.CloseUpvalue? {
      Close(m, base, n);
    } else {
      Drop(m, base, op, n);
    }
    assert op.Jump? ==> U.Cut(old(m.view), |old(m.view).slots|) == old(m.view);
  }

  lemma SlotCount(m: U.Machine, base: nat, op: Op, n: Note)
    requires Matches(m, base, n) && Allowed(op, n)
    ensures Pops(op) <= |m.view.slots|
  {
  }

  /** Where the instruction at pc leads. */
  function Next(op: Op, pc: nat, taken: bool): nat {
    if op.Jump? || (op.JumpIfFalsePop? && taken) then op.target else pc + 1
  }

  lemma SafeStep(code: seq<Op>, n0: Note, choice: nat -> bool, values: nat -> Value, v: U.View, base: nat, k: nat,
                 pc: nat, n: Note)
    requires Safe(code, n0) && Run(code, Running(0, n0), choice, k) == Running(pc, n)
    ensures pc < |code| && Allowed(code[pc], n) && Pops(code[pc]) <= n.height
    ensures Run(code, Running(0, n0), choice, k + 1) ==
            if code[pc].Return? then Finished else Running(Next(code[pc], pc, choice(k)), Behind(code[pc], n))
    ensures SeenAfter(code, Running(0, n0), choice, values, v, base, k + 1) ==
            Seen(code[pc], SeenAfter(code, Running(0, n0), choice, values, v, base, k), base, values(k))
  {
    hide Seen, Allowed, Behind;
    assert !Run(code, Running(0, n0), choice, k + 1).Unsafe?;
    AllowedPops(code[pc], n);
  }

  lemma AllowedPops(op: Op, n: Note)
    requires Allowed(op, n)
    ensures Pops(op) <= n.height
  {
  }

  /** Safe code runs on the machine: each instruction finds what it relies on, no popped slot is shown by an open upvalue,
      and the variables go through what the instructions mean.  A full stack ends the run. */
  method Execute(m: U.Machine, base: nat, code: seq<Op>, choice: nat -> bool, values: nat -> Value, steps: nat,
                 ghost n0: Note) returns (k: nat)
    requires Matches(m, base, n0) && Safe(code, n0)
    modifies m, m.stack, m.all
    ensures k <= steps && m.Valid()
    ensures var s := Run(code, Running(0, n0), choice, k);
      && (s.Running? ==> Matches(m, base, s.n)) && !s.Unsafe?
      && (s.Finished? ==> m.stackTop == base + 1 && forall u :: u in m.all ==> u.location < base)
      && (k < steps ==> s.Finished? || m.stackTop == m.stack.Length)
    ensures m.view == SeenAfter(code, Running(0, n0), choice, values, old(m.view), base, k)
  {
    hide Safe, Matches, Allowed, Behind, Seen, SeenAfter, Run, U.Machine.Settled;
    ghost var n, before := n0, m.view;
    var pc: nat, running := 0, true;
    StartOfRun(code, n0, choice, values, before, base);
    k := 0;
    MatchesValid(m, base, n0);
    while k < steps && running
      invariant k <= steps && m.Valid()
      invariant Run(code, Running(0, n0), choice, k) == if running then Running(pc, n) else Finished
      invariant running ==> Matches(m, base, n)
      invariant !running ==> m.stackTop == base + 1 && forall u :: u in m.all ==> u.location < base
      invariant m.view == SeenAfter(code, Running(0, n0), choice, values, before, base, k)
      invariant forall u :: u in m.all ==> u in old(m.all) || fresh(u)
    {
      SafeStep(code, n0, choice, values, before, base, k, pc, n);
      StackFits(m, base, n);
      var op := code[pc];
      if op.Return? {
        SameSeen(m.view, base, values(k));
        Leave(m, base, n);
        running := false;
      } else {
        if op.Closure? && m.stackTop == m.stack.Length { return; }
        ExecuteOne(m, base, op, values(k), n);
        MatchesValid(m, base, Behind(op, n));
        n := Behind(op, n);
        pc := Next(op, pc, choice(k));
      }
      k := k + 1;
    }
  }

  lemma StartOfRun(code: seq<Op>, n0: Note, choice: nat -> bool, values: nat -> Value, v: U.View, base: nat)
    ensures Run(code, Running(0, n0), choice, 0) == Running(0, n0)
    ensures SeenAfter(code, Running(0, n0), choice, values, v, base, 0) == v
  {
  }

  lemma MatchesValid(m: U.Machine, base: nat, n: Note)
    requires Matches(m, base, n)
    ensures m.Valid()
  {
  }

  lemma StackFits(m: U.Machine, base: nat, n: Note)
    requires Matches(m, base, n)
    ensures m.stackTop == base + n.height <= m.stack.Length
  {
  }

  lemma SameSeen(v: U.View, base: nat, value: Value)
    ensures Seen(Return, v, base, value) == Seen(Return, v, base, Nil)
  {
  }
}
