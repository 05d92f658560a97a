/** The bytecode machine: a transition function over instruction pointer, stack, globals and output. */
module Machine {
  import opened Types
  import opened Values
  import opened Bytecode

  /** The script frame starts at the bottom of the stack, so slot i is stack[i]. */
  datatype Machine = Machine(stack: seq<Value>, globals: map<Text, Value>, out: seq<Value>)
  {
    function Push(v: Value): Machine { this.(stack := stack + [v]) }

    function Top(): Value
      requires |stack| > 0
    {
      stack[|stack| - 1]
    }

    function Drop(n: nat): Machine
      requires n <= |stack|
    {
      this.(stack := stack[..|stack| - n])
    }
  }

  /** What one instruction does: fall through, jump forward or back, raise a runtime error, end the script.
      Bad stands for what compiled code never does: stack underflow or a bad slot, constant or jump. */
  datatype Effect = Go(m: Machine) | Hop(m: Machine, off: nat) | Back(m: Machine, off: nat) | Raise | Finish | Bad

  function Result(r: Option<Value>, m: Machine): Effect {
    if r.Some? then Go(m.Push(r.value)) else Raise
  }

  function Branch(r: Option<Value>, m: Machine, off: nat): Effect {
    if r == None then Raise else if r == Some(Bool(true)) then Go(m) else Hop(m, off)
  }

  function GlobalName(consts: seq<Value>, k: nat): Option<Text> {
    if k < |consts| && consts[k].Str? then Some(consts[k].s) else None
  }

  function EffectOf(A: Arith, consts: seq<Value>, i: Instr, m: Machine): Effect {
    var n := |m.stack|;
    match i
    case Constant(k) => if k < |consts| then Go(m.Push(consts[k])) else Bad
    case LoadNil => Go(m.Push(Nil))
    case LoadTrue => Go(m.Push(Bool(true)))
    case LoadFalse => Go(m.Push(Bool(false)))
    case GetLocal(x) => if x < n then Go(m.Push(m.stack[x])) else Bad
    case SetLocal(x) => if x < n then Go(m.(stack := m.stack[x := m.Top()])) else Bad
    case SetLocalPop(x) => if x < n then Go(m.(stack := m.stack[x := m.Top()]).Drop(1)) else Bad
    case MoveLocal(x, y) => if x < n && y < n then Go(m.(stack := m.stack[y := m.stack[x]])) else Bad
    case Bin(op) => if n >= 2 then Result(Apply(A, op, m.stack[n - 2], m.Top()), m.Drop(2)) else Bad
    case BinConst(op, k) =>
      if n >= 1 && k < |consts| then Result(Apply(A, op, m.Top(), consts[k]), m.Drop(1)) else Bad
    case BinLocal(op, x) =>
      if x < n then Result(Apply(A, op, m.Top(), m.stack[x]), m.Drop(1)) else Bad
    case Un(op) => if n >= 1 then Result(ApplyUnary(A, op, m.Top()), m.Drop(1)) else Bad
    case UnLocal(op, x) => if x < n then Result(ApplyUnary(A, op, m.stack[x]), m) else Bad
    case Pop => if n >= 1 then Go(m.Drop(1)) else Bad
    case PopN(c) => if n >= c then Go(m.Drop(c)) else Bad
    case PrintTop => if n >= 1 then Go(m.(out := m.out + [m.Top()]).Drop(1)) else Bad
    case GetGlobal(k) =>
      var name := GlobalName(consts, k);
      if name.None? then Bad
      else if name.value in m.globals then Go(m.Push(m.globals[name.value]))
      else Raise
    case SetGlobal(k) =>
      var name := GlobalName(consts, k);
      if name.None? || n == 0 then Bad
      else if name.value in m.globals then Go(m.(globals := m.globals[name.value := m.Top()]))
      else Raise
    case DefineGlobal(k) =>
      var name := GlobalName(consts, k);
      if name.None? || n == 0 then Bad
      else Go(m.(globals := m.globals[name.value := m.Top()]).Drop(1))
    case Jump(off) => Hop(m, off)
    case Loop(off) => Back(m, off)
    case JumpIfFalse(off) => if n == 0 then Bad else if Falsey(m.Top()) then Hop(m, off) else Go(m)
    case JumpIfTrue(off) => if n == 0 then Bad else if Falsey(m.Top()) then Go(m) else Hop(m, off)
    case JumpIfFalsePop(off) =>
      if n == 0 then Bad else if Falsey(m.Top()) then Hop(m.Drop(1), off) else Go(m.Drop(1))
    case JifConst(op, x, k, off) =>
      if x < n && k < |consts| then Branch(Apply(A, op, m.stack[x], consts[k]), m, off) else Bad
    case JifLocal(op, x, y, off) =>
      if x < n && y < n then Branch(Apply(A, op, m.stack[x], m.stack[y]), m, off) else Bad
    case Return => if n >= 2 then Finish else Bad
  }

  // ---- Running bytes ----

  datatype Program = Program(code: seq<byte>, consts: seq<Value>)

  /** A runtime error abandons the stack; the globals and what was printed remain. */
  datatype Config =
    | Running(ip: nat, m: Machine)
    | Faulted(globals: map<Text, Value>, out: seq<Value>)
    | Halted(globals: map<Text, Value>, out: seq<Value>)
    | Wedged

  /** The configuration after an instruction, where next is the position behind it. */
  function After(e: Effect, next: nat, m0: Machine): Config {
    match e
    case Go(m) => Running(next, m)
    case Hop(m, off) => Running(next + off, m)
    case Back(m, off) => if off <= next then Running(next - off, m) else Wedged
    case Raise => Faulted(m0.globals, m0.out)
    case Finish => Halted(m0.globals, m0.out)
    case Bad => Wedged
  }

  function Step(A: Arith, P: Program, c: Config): Config {
    if !c.Running? then c else
    match Decode(P.code, c.ip)
    case None => Wedged
    case Some(i) => After(EffectOf(A, P.consts, i, c.m), c.ip + Size(i), c.m)
  }

  function Run(A: Arith, P: Program, c: Config, n: nat): Config
    decreases n
  {
    if n == 0 then c else Run(A, P, Step(A, P, c), n - 1)
  }

  ghost predicate Reaches(A: Arith, P: Program, c: Config, d: Config) {
    exists n: nat :: Run(A, P, c, n) == d
  }

  /** The machine is still running after n steps. */
  predicate RunsFor(A: Arith, P: Program, c: Config, n: nat) {
    Run(A, P, c, n).Running?
  }

  lemma {:induction false} RunSplit(A: Arith, P: Program, c: Config, n: nat, k: nat)
    ensures Run(A, P, c, n + k) == Run(A, P, Run(A, P, c, n), k)
    decreases n
  {
    if n > 0 {
      RunSplit(A, P, Step(A, P, c), n - 1, k);
    }
  }

  lemma ReachesSelf(A: Arith, P: Program, c: Config)
    ensures Reaches(A, P, c, c)
  {
    assert Run(A, P, c, 0) == c;
  }

  lemma ReachesStep(A: Arith, P: Program, c: Config)
    ensures Reaches(A, P, c, Step(A, P, c))
  {
    assert Run(A, P, c, 1) == Run(A, P, Step(A, P, c), 0);
  }

  lemma ReachesTrans(A: Arith, P: Program, c: Config, d: Config, e: Config)
    requires Reaches(A, P, c, d) && Reaches(A, P, d, e)
    ensures Reaches(A, P, c, e)
  {
    var n: nat :| Run(A, P, c, n) == d;
    var k: nat :| Run(A, P, d, k) == e;
    RunSplit(A, P, c, n, k);
  }

  lemma {:induction false} StoppedStays(A: Arith, P: Program, c: Config, n: nat)
    requires !c.Running?
    ensures Run(A, P, c, n) == c
    decreases n
  {
    if n > 0 { StoppedStays(A, P, c, n - 1); }
  }

  lemma RunsForLess(A: Arith, P: Program, c: Config, n: nat, k: nat)
    requires RunsFor(A, P, c, n) && k <= n
    ensures RunsFor(A, P, c, k)
  {
    RunSplit(A, P, c, k, n - k);
    var d := Run(A, P, c, k);
    if !d.Running? { StoppedStays(A, P, d, n - k); }
  }

  /** A computation that goes on for n steps does so from every configuration leading to it. */
  lemma ReachesRunsFor(A: Arith, P: Program, c: Config, d: Config, n: nat)
    requires Reaches(A, P, c, d) && RunsFor(A, P, d, n)
    ensures RunsFor(A, P, c, n)
  {
    var k: nat :| Run(A, P, c, k) == d;
    RunSplit(A, P, c, k, n);
    RunsForLess(A, P, c, k + n, n);
  }

  /** Reaches d after at least one step. */
  ghost predicate ReachesPlus(A: Arith, P: Program, c: Config, d: Config) {
    Reaches(A, P, Step(A, P, c), d)
  }

  lemma PlusReaches(A: Arith, P: Program, c: Config, d: Config)
    requires ReachesPlus(A, P, c, d)
    ensures Reaches(A, P, c, d)
  {
    hide Step, Run, Reaches;
    ReachesStep(A, P, c);
    ReachesTrans(A, P, c, Step(A, P, c), d);
  }

  lemma PlusTrans(A: Arith, P: Program, c: Config, d: Config, e: Config)
    requires ReachesPlus(A, P, c, d) && Reaches(A, P, d, e)
    ensures ReachesPlus(A, P, c, e)
  {
    hide Step, Run, Reaches;
    ReachesTrans(A, P, Step(A, P, c), d, e);
  }

  lemma TransPlus(A: Arith, P: Program, c: Config, d: Config, e: Config)
    requires Reaches(A, P, c, d) && ReachesPlus(A, P, d, e)
    ensures ReachesPlus(A, P, c, e)
  {
    hide Step;
    var n: nat :| Run(A, P, c, n) == d;
    if n > 0 {
      assert Run(A, P, Step(A, P, c), n - 1) == d;
      assert Reaches(A, P, Step(A, P, c), d);
      PlusReaches(A, P, d, e);
      ReachesTrans(A, P, Step(A, P, c), d, e);
    }
  }

  /** The first step pays for one unit of fuel. */
  lemma PlusRunsFor(A: Arith, P: Program, c: Config, d: Config, n: nat)
    requires ReachesPlus(A, P, c, d) && n > 0 && RunsFor(A, P, d, n - 1)
    ensures RunsFor(A, P, c, n)
  {
    hide Step, Reaches;
    ReachesRunsFor(A, P, Step(A, P, c), d, n - 1);
  }

  // ---- Running a list of instructions ----

  datatype ListResult = Ok(m: Machine) | Fault(globals: map<Text, Value>, out: seq<Value>) | Stuck

  /** What is left of L behind a jump over `off` bytes, if the jump ends between two instructions. */
  function Skip(L: seq<Instr>, off: nat): Option<seq<Instr>>
    decreases |L|
  {
    if off == 0 then Some(L)
    else if L == [] || Size(L[0]) > off then None
    else Skip(L[1..], off - Size(L[0]))
  }

  lemma {:induction false} SkipShrinks(L: seq<Instr>, off: nat)
    ensures Skip(L, off).Some? ==>
              |Skip(L, off).value| <= |L| && SizeAll(Skip(L, off).value) + off == SizeAll(L)
    decreases |L|
  {
    if off != 0 && L != [] && Size(L[0]) <= off { SkipShrinks(L[1..], off - Size(L[0])); }
  }

  /** The meaning of straight-line code whose only jumps go forward, within the list or to its end. */
  function ExecList(A: Arith, consts: seq<Value>, L: seq<Instr>, m: Machine): ListResult
    decreases |L|
  {
    if L == [] then Ok(m) else
    match EffectOf(A, consts, L[0], m)
    case Go(m1) => ExecList(A, consts, L[1..], m1)
    case Hop(m1, off) =>
      SkipShrinks(L[1..], off);
      var rest := Skip(L[1..], off);
      if rest.None? then Stuck else ExecList(A, consts, rest.value, m1)
    case Raise => Fault(m.globals, m.out)
    case Back(_, _) => Stuck
    case Finish => Stuck
    case Bad => Stuck
  }

  lemma {:induction false} SkipAppend(L: seq<Instr>, K: seq<Instr>, off: nat)
    requires Skip(L, off).Some?
    ensures Skip(L + K, off) == Some(Skip(L, off).value + K)
    decreases |L|
  {
    if off != 0 {
      assert (L + K)[1..] == L[1..] + K;
      SkipAppend(L[1..], K, off - Size(L[0]));
    }
  }

  /** Running one list after another. */
  function Then(A: Arith, consts: seq<Value>, r: ListResult, K: seq<Instr>): ListResult {
    if r.Ok? then ExecList(A, consts, K, r.m) else r
  }

  lemma {:induction false} ExecAppend(A: Arith, consts: seq<Value>, L: seq<Instr>, K: seq<Instr>, m: Machine)
    requires !ExecList(A, consts, L, m).Stuck?
    ensures ExecList(A, consts, L + K, m) == Then(A, consts, ExecList(A, consts, L, m), K)
    decreases |L|
  {
    if L == [] {
      assert L + K == K;
    } else {
      assert (L + K)[1..] == L[1..] + K;
      match EffectOf(A, consts, L[0], m)
      case Go(m1) => ExecAppend(A, consts, L[1..], K, m1);
      case Hop(m1, off) =>
        SkipAppend(L[1..], K, off);
        SkipShrinks(L[1..], off);
        ExecAppend(A, consts, Skip(L[1..], off).value, K, m1);
      case _ =>
    }
  }

  lemma ExecOne(A: Arith, consts: seq<Value>, i: Instr, m: Machine)
    requires !EffectOf(A, consts, i, m).Hop?
    ensures ExecList(A, consts, [i], m) ==
            match EffectOf(A, consts, i, m)
            case Go(m1) => Ok(m1)
            case Raise => Fault(m.globals, m.out)
            case _ => Stuck
  {
    assert [i][1..] == [];
  }

  // ---- From lists to bytes ----

  ghost predicate ListAt(code: seq<byte>, p: nat, L: seq<Instr>) {
    AllWellFormed(L) && p + SizeAll(L) <= |code| && code[p..p + SizeAll(L)] == EncodeAll(L)
  }

  lemma StepAt(A: Arith, P: Program, p: nat, i: Instr, m: Machine)
    requires At(P.code, p, i)
    ensures Step(A, P, Running(p, m)) == After(EffectOf(A, P.consts, i, m), p + Size(i), m)
    ensures Reaches(A, P, Running(p, m), After(EffectOf(A, P.consts, i, m), p + Size(i), m))
  {
    DecodeEncode(P.code, p, i);
    ReachesStep(A, P, Running(p, m));
  }

  lemma ListAtHead(code: seq<byte>, p: nat, L: seq<Instr>)
    requires ListAt(code, p, L) && L != []
    ensures At(code, p, L[0]) && ListAt(code, p + Size(L[0]), L[1..])
  {
    hide Encode, EncodeAll, SizeAll;
    var n := Size(L[0]);
    HeadFirst(L);
    SlicedAt(code, p, n, SizeAll(L));
    var s := code[p..p + SizeAll(L)];
    assert s[..n] == Encode(L[0]) && s[n..] == EncodeAll(L[1..]);
  }

  lemma HeadFirst(L: seq<Instr>)
    requires L != [] && AllWellFormed(L)
    ensures SizeAll(L) == Size(L[0]) + SizeAll(L[1..]) && EncodeAll(L) == Encode(L[0]) + EncodeAll(L[1..])
  {
    hide Encode;
  }

  lemma SlicedAt(code: seq<byte>, p: nat, n: nat, m: nat)
    requires n <= m && p + m <= |code|
    ensures code[p..p + m][..n] == code[p..p + n] && code[p..p + m][n..] == code[p + n..p + m]
  {
  }

  lemma {:induction false} SkipAt(code: seq<byte>, p: nat, L: seq<Instr>, off: nat)
    requires ListAt(code, p, L) && Skip(L, off).Some?
    ensures ListAt(code, p + off, Skip(L, off).value)
    ensures p + off + SizeAll(Skip(L, off).value) == p + SizeAll(L)
    decreases |L|
  {
    if off != 0 {
      ListAtHead(code, p, L);
      SkipAt(code, p + Size(L[0]), L[1..], off - Size(L[0]));
    }
  }

  /** The machine, running the bytes of L, does what the list does. */
  ghost predicate RunsList(A: Arith, P: Program, p: nat, end: nat, m: Machine, r: ListResult) {
    match r
    case Ok(m1) => Reaches(A, P, Running(p, m), Running(end, m1))
    case Fault(g, out) => Reaches(A, P, Running(p, m), Faulted(g, out))
    case Stuck => true
  }

  lemma {:induction false} ListRuns(A: Arith, P: Program, p: nat, L: seq<Instr>, m: Machine)
    requires ListAt(P.code, p, L)
    ensures RunsList(A, P, p, p + SizeAll(L), m, ExecList(A, P.consts, L, m))
    decreases |L|
  {
    hide EffectOf, Step, Run, Reaches, At, ListAt, WellFormed, Size;
    var end := p + SizeAll(L);
    var r := ExecList(A, P.consts, L, m);
    if L == [] {
      ReachesSelf(A, P, Running(p, m));
    } else if !r.Stuck? {
      ListAtHead(P.code, p, L);
      var c := Running(p, m);
      StepAt(A, P, p, L[0], m);
      var next := p + Size(L[0]);
      match EffectOf(A, P.consts, L[0], m)
      case Go(m1) =>
        ListRuns(A, P, next, L[1..], m1);
        ExtendRun(A, P, c, next, end, m1, r);
      case Hop(m1, off) =>
        SkipAt(P.code, next, L[1..], off);
        SkipShrinks(L[1..], off);
        ListRuns(A, P, next + off, Skip(L[1..], off).value, m1);
        ExtendRun(A, P, c, next + off, end, m1, r);
      case Raise =>
    }
  }

  lemma ExtendRun(A: Arith, P: Program, c: Config, p: nat, end: nat, m: Machine, r: ListResult)
    requires c.Running? && Reaches(A, P, c, Running(p, m)) && RunsList(A, P, p, end, m, r)
    ensures RunsList(A, P, c.ip, end, c.m, r)
  {
    match r
    case Ok(m1) => ReachesTrans(A, P, c, Running(p, m), Running(end, m1));
    case Fault(g, out) => ReachesTrans(A, P, c, Running(p, m), Faulted(g, out));
    case Stuck =>
  }
}
