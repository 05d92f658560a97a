/** Whole programs: compiled code behaves as its source does. */
module Programs {
  import opened Types
  import opened Values
  import opened Syntax
  import opened Semantics
  import opened Bytecode
  import opened Machine
  import opened Expressions
  import opened Simulation
  import opened Layout

  /** The name of slot 0, which holds the script's closure. */
  const THIS: Text := [116, 104, 105, 115]

  function Initial(script: Value, g: Globals): Config {
    Running(0, Machine([script], g, []))
  }

  function Meaning(A: Arith, ds: Decls, script: Value, g: Globals, fuel: nat): Outcome {
    ExecDecls(A, ds, true, [Binding(THIS, script)], g, [], fuel)
  }

  /** From every initial state the machine does what the source says: it halts or fails with the same globals and
      the same output, or is still running when the source has run out of fuel. */
  ghost predicate Correct(A: Arith, P: Program, ds: Decls) {
    forall script: Value, g: Globals, fuel: nat ::
      match Meaning(A, ds, script, g, fuel)
      case Normal(_, g1, out) => Reaches(A, P, Initial(script, g), Halted(g1, out))
      case Failed(g1, out) => Reaches(A, P, Initial(script, g), Faulted(g1, out))
      case OutOfFuel => RunsFor(A, P, Initial(script, g), fuel)
      case _ => false
  }

  /** The code of the declarations, followed by the return that ends the script. */
  lemma Finished(A: Arith, code: seq<byte>, consts: seq<Value>, ds: Decls)
    requires Compiles(A, code, consts, Seg(0, [], |code|, []), OfDecls(ds, true), [THIS], Frame(0, None), NO_HOLES)
    requires !LooseDecls(ds)
    ensures Correct(A, Program(code + Encode(LoadNil) + Encode(Return), consts), ds)
  {
    hide Reaches, ExecDecls, Encode, Sim;
    var whole := code + Encode(LoadNil) + Encode(Return);
    var P := Program(whole, consts);
    var seg := Seg(0, [], |code|, []);
    var W := Targets(0, 0, 0);
    assert Fills(whole, consts, W, code, consts, seg, Frame(0, None), NO_HOLES);
    forall script: Value, g: Globals, fuel: nat
      ensures
        match Meaning(A, ds, script, g, fuel)
        case Normal(_, g1, out) => Reaches(A, P, Initial(script, g), Halted(g1, out))
        case Failed(g1, out) => Reaches(A, P, Initial(script, g), Faulted(g1, out))
        case OutOfFuel => RunsFor(A, P, Initial(script, g), fuel)
        case _ => false
    {
      FinishedRun(A, code, P, ds, W, script, g, fuel);
    }
  }

  lemma FinishedRun(A: Arith, code: seq<byte>, P: Program, ds: Decls, W: Targets, script: Value, g: Globals, fuel: nat)
    requires Sim(A, P, Seg(0, [], |code|, []), OfDecls(ds, true), [THIS], W)
    requires P.code == code + Encode(LoadNil) + Encode(Return) && !LooseDecls(ds)
    ensures var r := Meaning(A, ds, script, g, fuel);
            var c := Initial(script, g);
            && (r.Normal? ==> Reaches(A, P, c, Halted(r.g, r.out)))
            && (r.Failed? ==> Reaches(A, P, c, Faulted(r.g, r.out)))
            && (r.OutOfFuel? ==> RunsFor(A, P, c, fuel))
            && !r.Broke? && !r.Continued?
  {
    hide Reaches, RunsFor, ExecDecls, Carries, Encode;
    var env := [Binding(THIS, script)];
    var m := StateOf(env, [], g, []);
    var r := Meaning(A, ds, script, g, fuel);
    assert NamesOf(env) == [THIS];
    assert m == Machine([script], g, []);
    CarriesState(A, P.consts, env, g, [], m);
    assert Follows(A, P, Running(0, m), |code|, [], W, ExecItem(A, OfDecls(ds, true), env, g, [], fuel), fuel);
    DeclsClosed(A, ds, true, env, g, [], fuel);
    if r.Normal? {
      DeclsDeepen(A, ds, true, env, g, [], fuel);
      NormalReaches(A, P, Running(0, m), |code|, W, r, fuel);
      Returns(A, P, code, StateOf(r.env, [], r.g, r.out));
      ReachesTrans(A, P, Running(0, m), Running(|code|, StateOf(r.env, [], r.g, r.out)), Halted(r.g, r.out));
    }
  }

  lemma Returns(A: Arith, P: Program, code: seq<byte>, m: Machine)
    requires P.code == code + Encode(LoadNil) + Encode(Return) && |m.stack| >= 1
    ensures Reaches(A, P, Running(|code|, m), Halted(m.globals, m.out))
  {
    hide Reaches;
    var p := |code|;
    assert P.code[p..p + 1] == Encode(LoadNil) && P.code[p + 1..p + 2] == Encode(Return);
    StepAt(A, P, p, LoadNil, m);
    StepAt(A, P, p + 1, Return, m.Push(Nil));
    ReachesTrans(A, P, Running(p, m), Running(p + 1, m.Push(Nil)), Halted(m.globals, m.out));
  }

  // ---- Consequences ----

  lemma StoppedOnce(A: Arith, P: Program, c: Config, d: Config, e: Config)
    requires Reaches(A, P, c, d) && Reaches(A, P, c, e) && !d.Running? && !e.Running?
    ensures d == e
  {
    var n: nat :| Run(A, P, c, n) == d;
    var k: nat :| Run(A, P, c, k) == e;
    if n <= k {
      RunSplit(A, P, c, n, k - n);
      StoppedStays(A, P, d, k - n);
    } else {
      RunSplit(A, P, c, k, n - k);
      StoppedStays(A, P, e, n - k);
    }
  }

  /** Where the machine stops, the source does, given as much fuel as the machine made steps. */
  lemma StopsAsSource(A: Arith, P: Program, ds: Decls, script: Value, g: Globals, d: Config) returns (fuel: nat)
    requires Correct(A, P, ds) && Reaches(A, P, Initial(script, g), d) && !d.Running?
    ensures var r := Meaning(A, ds, script, g, fuel);
            (r.Normal? && d == Halted(r.g, r.out)) || (r.Failed? && d == Faulted(r.g, r.out))
  {
    hide Meaning;
    var c := Initial(script, g);
    var n: nat :| Run(A, P, c, n) == d;
    fuel := n;
    var r := Meaning(A, ds, script, g, fuel);
    if r.Normal? {
      StoppedOnce(A, P, c, d, Halted(r.g, r.out));
    } else if r.Failed? {
      StoppedOnce(A, P, c, d, Faulted(r.g, r.out));
    }
  }

  ghost predicate Terminates(A: Arith, ds: Decls, script: Value, g: Globals, fuel: nat, g1: Globals, out: seq<Value>) {
    var r := Meaning(A, ds, script, g, fuel);
    r.Normal? && r.g == g1 && r.out == out
  }

  ghost predicate Fails(A: Arith, ds: Decls, script: Value, g: Globals, fuel: nat, g1: Globals, out: seq<Value>) {
    var r := Meaning(A, ds, script, g, fuel);
    r.Failed? && r.g == g1 && r.out == out
  }

  /** Correct code halts, fails and runs on exactly when the source terminates, fails and diverges, and never does
      anything else. */
  lemma CorrectBothWays(A: Arith, P: Program, ds: Decls, script: Value, g: Globals, g1: Globals, out: seq<Value>)
    requires Correct(A, P, ds)
    ensures Reaches(A, P, Initial(script, g), Halted(g1, out)) <==>
            exists fuel: nat :: Terminates(A, ds, script, g, fuel, g1, out)
    ensures Reaches(A, P, Initial(script, g), Faulted(g1, out)) <==>
            exists fuel: nat :: Fails(A, ds, script, g, fuel, g1, out)
    ensures (forall n: nat :: RunsFor(A, P, Initial(script, g), n)) <==>
            (forall fuel: nat :: Meaning(A, ds, script, g, fuel).OutOfFuel?)
    ensures !Reaches(A, P, Initial(script, g), Wedged)
  {
    hide Meaning, Reaches, Run;
    var c := Initial(script, g);
    if Reaches(A, P, c, Halted(g1, out)) {
      var fuel := StopsAsSource(A, P, ds, script, g, Halted(g1, out));
      assert Terminates(A, ds, script, g, fuel, g1, out);
    }
    if Reaches(A, P, c, Faulted(g1, out)) {
      var fuel := StopsAsSource(A, P, ds, script, g, Faulted(g1, out));
      assert Fails(A, ds, script, g, fuel, g1, out);
    }
    if Reaches(A, P, c, Wedged) {
      var fuel := StopsAsSource(A, P, ds, script, g, Wedged);
    }
    RunsOn(A, P, ds, script, g);
  }

  lemma RunsOn(A: Arith, P: Program, ds: Decls, script: Value, g: Globals)
    requires Correct(A, P, ds)
    ensures (forall n: nat :: RunsFor(A, P, Initial(script, g), n)) <==>
            (forall fuel: nat :: Meaning(A, ds, script, g, fuel).OutOfFuel?)
  {
    hide Meaning;
    var c := Initial(script, g);
    if fuel: nat :| !Meaning(A, ds, script, g, fuel).OutOfFuel? {
      var r := Meaning(A, ds, script, g, fuel);
      var n: nat :| Run(A, P, c, n) == if r.Normal? then Halted(r.g, r.out) else Faulted(r.g, r.out);
      assert !RunsFor(A, P, c, n);
    }
    if forall fuel: nat :: Meaning(A, ds, script, g, fuel).OutOfFuel? {
      forall n: nat ensures RunsFor(A, P, c, n) {
        assert Meaning(A, ds, script, g, n).OutOfFuel?;
      }
    }
  }
}
