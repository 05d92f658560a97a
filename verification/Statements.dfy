/** What compiling a statement or a declaration makes of the chunk, from the stretches Layout composes. */
module Statements {
  import opened Types
  import opened Values
  import opened Syntax
  import opened Semantics
  import opened Bytecode
  import opened Machine
  import opened Peephole
  import opened Expressions
  import opened Simulation
  import opened Layout
  import opened Items
  import opened Tails
  import opened Buffer

  // ---- What has been built ----

  ghost predicate Apart(h: seq<nat>) {
    forall i, j :: 0 <= i < j < |h| ==> h[i] + 2 <= h[j] || h[j] + 2 <= h[i]
  }

  function NewNames(item: Item): seq<Text> {
    match item
    case OfStmt(_) => []
    case OfDecl(d, top) => if d.Var? && !top then [d.name] else []
    case OfDecls(ds, top) => Declared(ds, top)
  }

  predicate SafeItem(item: Item, names: seq<Text>) {
    match item
    case OfStmt(s) => StmtSafe(s, names)
    case OfDecl(d, top) => DeclSafe(d, top, names)
    case OfDecls(ds, top) => DeclsSafe(ds, top, names)
  }

  predicate TrivialItem(item: Item) {
    match item
    case OfStmt(s) => Trivial(s)
    case OfDecl(d, _) => d.Statement? && Trivial(d.s)
    case OfDecls(ds, _) => TrivialDecls(ds)
  }

  /** Where the code ends, apart from a store to a local that a pop may still merge with. */
  function Settled(c: Chunk): nat {
    if SizeAll(Pending(c.tail)) <= |c.code| then |c.code| - SizeAll(Pending(c.tail)) else 0
  }

  /** An item that emits nothing and does nothing. */
  ghost predicate Skipped(c0: Chunk, c1: Chunk, tin: seq<Instr>, item: Item, holes: Holes) {
    c1.code == c0.code && c1.tail == c0.tail && c0.consts <= c1.consts && TrivialItem(item)
    && tin == [] && holes == NO_HOLES
  }

  /** From chunk c0 to c1 the code of the item has been added, in the place of tin at the end of c0. */
  ghost predicate Built(A: Arith, c0: Chunk, c1: Chunk, tin: seq<Instr>, item: Item, names: seq<Text>, frame: Frame,
                        holes: Holes) {
    && c0.consts <= c1.consts
    && (tin == [] || tin == Pending(c0.tail)) && SizeAll(tin) <= |c0.code|
    && var p := |c0.code| - SizeAll(tin);
    && p <= Settled(c1) <= |c1.code| && c1.code[..p] == c0.code[..p]
    && Within(holes.All(), p, Settled(c1)) && Apart(holes.All())
    && (NewNames(item) == [] ==> c1.tail == [])
    && (SafeItem(item, names) ==>
          Compiles(A, c1.code, c1.consts, Seg(p, tin, Settled(c1), Pending(c1.tail)), item, names, frame, holes))
  }

  ghost predicate Processed(A: Arith, c0: Chunk, c1: Chunk, tin: seq<Instr>, item: Item, names: seq<Text>, frame: Frame,
                            holes: Holes) {
    Skipped(c0, c1, tin, item, holes) || Built(A, c0, c1, tin, item, names, frame, holes)
  }

  lemma SettledEnd(c: Chunk)
    requires EndsWith(c.code, c.tail)
    ensures SizeAll(Pending(c.tail)) <= |c.code| && Settled(c) == |c.code| - SizeAll(Pending(c.tail))
    ensures ListAt(c.code, Settled(c), Pending(c.tail))
  {
    hide EncodeAll, SizeAll, EndsWith, ListAt, Pending;
    var T := Pending(c.tail);
    assert Last(c.tail, |T|) == T;
    EndsDrop(c.code, c.tail, |T|);
  }

  lemma ClearSettled(c: Chunk)
    requires c.tail == []
    ensures Pending(c.tail) == [] && Settled(c) == |c.code|
  {
  }

  /** What is settled stays. */
  lemma SettledGrows(A: Arith, c0: Chunk, c1: Chunk, tin: seq<Instr>, item: Item, names: seq<Text>, frame: Frame,
                     holes: Holes)
    requires Processed(A, c0, c1, tin, item, names, frame, holes) && EndsWith(c0.code, c0.tail)
    ensures Settled(c0) <= Settled(c1) && c0.consts <= c1.consts
    ensures tin == [] ==> |c0.code| <= |c1.code|
  {
    hide Compiles, EndsWith, SizeAll;
    NoSize();
    SettledEnd(c0);
  }

  // ---- Trivial items ----

  lemma TrivialSim(A: Arith, P: Program, p: nat, item: Item, names: seq<Text>, W: Targets)
    requires TrivialItem(item)
    ensures Sim(A, P, Seg(p, [], p, []), item, names, W)
  {
    forall env, g, out, fuel: nat, m | NamesOf(env) == names && Carries(A, P.consts, [], m, env, g, out)
      ensures Follows(A, P, Running(p, m), p, [], W, ExecItem(A, item, env, g, out, fuel), fuel)
    {
      match item {
        case OfStmt(s) => TrivialExec(A, s, env, g, out, fuel);
        case OfDecl(d, _) => TrivialExec(A, d.s, env, g, out, fuel);
        case OfDecls(ds, top) => TrivialExecDecls(A, ds, top, env, g, out, fuel);
      }
      ReachesSelf(A, P, Running(p, m));
    }
  }

  lemma TrivialCompiles(A: Arith, code: seq<byte>, consts: seq<Value>, item: Item, names: seq<Text>, frame: Frame)
    requires TrivialItem(item) && frame.height <= |names|
    ensures Compiles(A, code, consts, Seg(|code|, [], |code|, []), item, names, frame, NO_HOLES)
  {
    hide Sim;
    var seg := Seg(|code|, [], |code|, []);
    EmptyListAt(code, |code|);
    forall code1, consts1, W | Fills(code1, consts1, W, code, consts, seg, frame, NO_HOLES)
      ensures Sim(A, Program(code1, consts1), seg, item, names, W)
    {
      TrivialSim(A, Program(code1, consts1), |code|, item, names, W);
    }
  }

  /** A processed item as a stretch with nothing pending. */
  lemma Flushed(A: Arith, c0: Chunk, c1: Chunk, tin: seq<Instr>, item: Item, names: seq<Text>, frame: Frame, holes: Holes)
    requires Processed(A, c0, c1, tin, item, names, frame, holes) && EndsWith(c1.code, c1.tail)
    requires SafeItem(item, names) && frame.height <= |names|
    ensures SizeAll(tin) <= |c0.code|
    ensures Compiles(A, c1.code, c1.consts, Seg(|c0.code| - SizeAll(tin), tin, |c1.code|, []), item, names, frame, holes)
  {
    hide Compiles, EndsWith, Settled, Pending, SizeAll, SafeItem, Within, Apart;
    NoSize();
    if Skipped(c0, c1, tin, item, holes) {
      hide TrivialItem;
      TrivialCompiles(A, c1.code, c1.consts, item, names, frame);
    } else {
      SettledEnd(c1);
      var seg := Seg(|c0.code| - SizeAll(tin), tin, Settled(c1), Pending(c1.tail));
      FlushOutCompiles(A, c1.code, c1.consts, seg, item, names, frame, holes);
      assert End(seg) == |c1.code|;
    }
  }

  // ---- Straight-line statements ----

  lemma ListBehind(base: seq<byte>, L: seq<Instr>, K: seq<Instr>)
    requires AllWellFormed(L + K)
    ensures AllWellFormed(L) && AllWellFormed(K) && SizeAll(L + K) == SizeAll(L) + SizeAll(K)
    ensures var code := base + EncodeAll(L + K);
            |code| == |base| + SizeAll(L) + SizeAll(K) && code[..|base|] == base &&
            ListAt(code, |base|, L) && ListAt(code, |base| + SizeAll(L), K)
  {
    hide EncodeAll, SizeAll;
    PartsWellFormed(L, K);
    EncodeAppend(L, K);
    var code := base + EncodeAll(L + K);
    assert code[|base|..|base| + SizeAll(L)] == EncodeAll(L);
    assert code[|base| + SizeAll(L)..|base| + SizeAll(L) + SizeAll(K)] == EncodeAll(K);
  }

  lemma PartsWellFormed(L: seq<Instr>, K: seq<Instr>)
    requires AllWellFormed(L + K)
    ensures AllWellFormed(L) && AllWellFormed(K)
  {
    hide WellFormed;
    forall j | 0 <= j < |L| ensures WellFormed(L[j]) { assert (L + K)[j] == L[j]; }
    forall j | 0 <= j < |K| ensures WellFormed(K[j]) { assert (L + K)[|L| + j] == K[j]; }
  }

  lemma BuiltItem(A: Arith, c0: Chunk, c1: Chunk, tin: seq<Instr>, item: Item, names: seq<Text>, frame: Frame,
                  holes: Holes)
    requires c0.consts <= c1.consts && (tin == [] || tin == Pending(c0.tail)) && SizeAll(tin) <= |c0.code|
    requires var p := |c0.code| - SizeAll(tin);
             && p <= Settled(c1) <= |c1.code| && c1.code[..p] == c0.code[..p]
             && Within(holes.All(), p, Settled(c1)) && Apart(holes.All())
             && (SafeItem(item, names) ==>
                   Compiles(A, c1.code, c1.consts, Seg(p, tin, Settled(c1), Pending(c1.tail)), item, names, frame, holes))
    requires NewNames(item) == [] ==> c1.tail == []
    ensures Built(A, c0, c1, tin, item, names, frame, holes)
  {
    hide Compiles, SafeItem, Within, Apart, SizeAll, Settled, Pending, NewNames;
  }

  /** A statement with nothing pending behind it. */
  lemma BuiltStmt(A: Arith, c0: Chunk, c1: Chunk, tin: seq<Instr>, s: Stmt, names: seq<Text>, frame: Frame,
                  holes: Holes)
    requires (tin == [] || tin == Pending(c0.tail)) && SizeAll(tin) <= |c0.code| && c0.consts <= c1.consts
    requires var p := |c0.code| - SizeAll(tin);
             && p <= |c1.code| && c1.code[..p] == c0.code[..p] && c1.tail == []
             && Within(holes.All(), p, |c1.code|) && Apart(holes.All())
             && (StmtSafe(s, names) ==>
                   Compiles(A, c1.code, c1.consts, Seg(p, tin, |c1.code|, []), OfStmt(s), names, frame, holes))
    ensures Built(A, c0, c1, tin, OfStmt(s), names, frame, holes)
  {
    hide Compiles, StmtSafe, Within, Apart, SizeAll, Settled, Pending;
    ClearSettled(c1);
  }

  /** A statement with nothing pending before it or behind it. */
  lemma BuiltClear(A: Arith, c0: Chunk, c1: Chunk, s: Stmt, names: seq<Text>, frame: Frame, holes: Holes)
    requires c0.consts <= c1.consts && |c0.code| <= |c1.code| && c1.code[..|c0.code|] == c0.code && c1.tail == []
    requires Within(holes.All(), |c0.code|, |c1.code|) && Apart(holes.All())
    requires StmtSafe(s, names) ==>
               Compiles(A, c1.code, c1.consts, Seg(|c0.code|, [], |c1.code|, []), OfStmt(s), names, frame, holes)
    ensures Built(A, c0, c1, [], OfStmt(s), names, frame, holes)
  {
    hide Compiles, StmtSafe, Within, Apart, SizeAll, Settled, Pending, Built;
    NoSize();
    assert c0.code[..|c0.code|] == c0.code;
    BuiltStmt(A, c0, c1, [], s, names, frame, holes);
  }

  /** A statement whose code is the list M. */
  lemma LineBuilt(A: Arith, c0: Chunk, c1: Chunk, M: seq<Instr>, item: Item, names: seq<Text>, frame: Frame)
    requires AllWellFormed(M) && c1.code == c0.code + EncodeAll(M) && c1.tail == [] && c0.consts <= c1.consts
    requires frame.height <= |names|
    requires SafeItem(item, names) ==> ListDoes(A, c1.consts, M, [], item, names)
    ensures Built(A, c0, c1, [], item, names, frame, NO_HOLES)
  {
    hide EncodeAll, SizeAll, ListDoes, Compiles, SafeItem, NewNames, Settled, Pending, AllWellFormed, ListAt, Within, Apart,
         Built;
    LineBytes(c0.code, M);
    ClearSettled(c1);
    NoSize();
    NoneOpen(|c0.code|, |c1.code|);
    if SafeItem(item, names) {
      ListCompiles(A, c1.code, c1.consts, |c0.code|, M, [], item, names, frame);
    }
    BuiltItem(A, c0, c1, [], item, names, frame, NO_HOLES);
  }

  lemma LineBytes(base: seq<byte>, M: seq<Instr>)
    requires AllWellFormed(M)
    ensures var code := base + EncodeAll(M);
            |code| == |base| + SizeAll(M) && code[..|base|] == base[..|base|] &&
            ListAt(code, |base|, M) && ListAt(code, |base| + SizeAll(M), [])
  {
    hide EncodeAll, SizeAll, ListAt;
    NoSize();
    assert M + [] == M;
    ListBehind(base, M, []);
  }

  lemma NoneOpen(a: nat, b: nat)
    ensures Within(NO_HOLES.All(), a, b) && Apart(NO_HOLES.All())
  {
  }

  lemma NoSize()
    ensures SizeAll([]) == 0
  {
  }

  lemma ExprStmtBuilt(A: Arith, c0: Chunk, cE: Chunk, c1: Chunk, L: seq<Instr>, e: Expr, names: seq<Text>, frame: Frame)
    requires ExprDone(A, c0, cE, L, e, names) && Popped(cE.code, cE.tail, c1.code) && c1.tail == [] && c1.consts == cE.consts
    requires frame.height <= |names|
    ensures Built(A, c0, c1, [], OfStmt(ExprStmt(e)), names, frame, NO_HOLES) && |c1.code| > |c0.code|
  {
    hide EncodeAll, SizeAll, ListDoes, PopSafe, Emits, Popped, Built;
    var M := ExprStmtResult(A, c0.code, c0.tail, L, e, names, cE.tail, cE.consts, c1.code);
    assert SafeItem(OfStmt(ExprStmt(e)), names) == PopSafe(e, names);
    LineBuilt(A, c0, c1, M, OfStmt(ExprStmt(e)), names, frame);
    SizeSome(M);
  }

  lemma SizeSome(M: seq<Instr>)
    requires M != []
    ensures SizeAll(M) > 0
  {
  }

  lemma PrintBuilt(A: Arith, c0: Chunk, cE: Chunk, c1: Chunk, L: seq<Instr>, e: Expr, names: seq<Text>, frame: Frame)
    requires ExprDone(A, c0, cE, L, e, names) && Appended(cE, c1, PrintTop) && c1.tail == [] && c1.consts == cE.consts
    requires frame.height <= |names|
    ensures Built(A, c0, c1, [], OfStmt(Print(e)), names, frame, NO_HOLES)
  {
    hide EncodeAll, Encode, SizeAll, ListDoes, Built, ExprCode, TailShape, AssignShape;
    EncodeOne(PrintTop);
    EncodeAppend(L, [PrintTop]);
    assert c1.code == c0.code + EncodeAll(L + [PrintTop]);
    if JoinSafe(e, names) { PrintDoes(A, c1.consts, L, e, names); }
    LineBuilt(A, c0, c1, L + [PrintTop], OfStmt(Print(e)), names, frame);
  }

  // ---- Variable declarations ----

  lemma GlobalBuilt(A: Arith, c0: Chunk, cE: Chunk, c1: Chunk, L: seq<Instr>, d: Decl, k: u16, names: seq<Text>, frame: Frame)
    requires d.Var? && ExprDone(A, c0, cE, L, InitOf(d.init), names)
    requires Appended(cE, c1, DefineGlobal(k)) && c1.tail == [] && c1.consts == cE.consts
    requires k < |c1.consts| && c1.consts[k] == Str(d.name) && frame.height <= |names|
    ensures Built(A, c0, c1, [], OfDecl(d, true), names, frame, NO_HOLES)
  {
    hide EncodeAll, Encode, SizeAll, ListDoes, Built, ExprCode, TailShape, AssignShape, JoinSafe;
    EncodeOne(DefineGlobal(k));
    EncodeAppend(L, [DefineGlobal(k)]);
    assert c1.code == c0.code + EncodeAll(L + [DefineGlobal(k)]);
    if DeclSafe(d, true, names) {
      SafeInit(d.init, names);
      GlobalDoes(A, c1.consts, L, d.name, d.isConst, d.init, k, names);
    }
    LineBuilt(A, c0, c1, L + [DefineGlobal(k)], OfDecl(d, true), names, frame);
  }

  lemma SafeInit(init: Option<Expr>, names: seq<Text>)
    requires init.Some? ==> JoinSafe(init.value, names)
    ensures JoinSafe(InitOf(init), names)
  {
  }

  /** A local variable: its initializer's value stays on the stack, and an assignment that ends the initializer
      stays pending. */
  lemma LocalBuilt(A: Arith, c0: Chunk, c1: Chunk, L: seq<Instr>, d: Decl, names: seq<Text>, frame: Frame)
    requires d.Var? && ExprDone(A, c0, c1, L, InitOf(d.init), names) && frame.height <= |names|
    ensures Built(A, c0, c1, [], OfDecl(d, false), names, frame, NO_HOLES)
    ensures |c0.code| <= Settled(c1)
  {
    hide EncodeAll, SizeAll, ListDoes, Compiles, Emits, IsSuffix, Pending, DeclSafe, WellFormed;
    var e := InitOf(d.init);
    var T := Pending(c1.tail);
    EmitsSome(A, c1.consts, L, e, names);
    PendingEnd(A, c1.consts, L, e, names, c0.tail, c1.tail);
    var K := AllBut(L, |T|);
    assert K + T == L;
    ListBehind(c0.code, K, T);
    NoSize();
    assert Settled(c1) == |c0.code| + SizeAll(K);
    if DeclSafe(d, false, names) {
      LocalPendingDoes(A, c1.consts, L, d, names, T);
      ListCompiles(A, c1.code, c1.consts, |c0.code|, K, T, OfDecl(d, false), names, frame);
    }
  }

  /** What is pending behind an expression belongs to it. */
  lemma PendingEnd(A: Arith, consts: seq<Value>, L: seq<Instr>, e: Expr, names: seq<Text>, t: seq<Instr>, tail: seq<Instr>)
    requires Emits(A, consts, L, e, names) && IsSuffix(tail, t + L)
    ensures |Pending(tail)| <= |L| && Pending(tail) == Last(L, |Pending(tail)|)
    ensures Pending(tail) != [] ==> |L| >= 2 && L[|L| - 1].SetLocal?
    ensures |Pending(tail)| <= 2 && (|Pending(tail)| == 2 ==> Pending(tail)[0].GetLocal?)
  {
    hide Emits;
    EmitsSome(A, consts, L, e, names);
    var T := Pending(tail);
    if T != [] {
      assert tail[|tail| - 1] == L[|L| - 1];
      EmitsStore(A, consts, L, e, names);
      if |T| == 2 { assert tail[|tail| - 2] == L[|L| - 2]; }
    }
  }

  lemma LocalPendingDoes(A: Arith, consts: seq<Value>, L: seq<Instr>, d: Decl, names: seq<Text>, T: seq<Instr>)
    requires d.Var? && DeclSafe(d, false, names) && Emits(A, consts, L, InitOf(d.init), names)
    requires |T| <= |L| && T == Last(L, |T|)
    requires T != [] ==> |L| >= 2 && L[|L| - 1].SetLocal?
    requires |T| <= 2 && (|T| == 2 ==> T[0].GetLocal?)
    ensures ListDoes(A, consts, AllBut(L, |T|), T, OfDecl(d, false), names)
  {
    hide ListDoes, ExprCode;
    SafeInit(d.init, names);
    if T == [] {
      assert AllBut(L, 0) == L;
      LocalDoes(A, consts, L, d.name, d.isConst, d.init, names);
    } else {
      var K := L[..|L| - 1];
      var y := L[|L| - 1].i;
      PendingLocalDoes(A, consts, K, d.name, d.isConst, d.init, y, names);
      if |T| == 1 {
        assert T == [SetLocal(y)] && AllBut(L, 1) == K;
      } else {
        assert K[|K| - 1] == T[0];
        assert T == [K[0], SetLocal(y)] && AllBut(L, 2) == [];
      }
    }
  }

  // ---- Sequences ----

  lemma StatementProcessed(A: Arith, c0: Chunk, c1: Chunk, tin: seq<Instr>, s: Stmt, top: bool, names: seq<Text>,
                           frame: Frame, holes: Holes)
    requires Processed(A, c0, c1, tin, OfStmt(s), names, frame, holes)
    ensures Processed(A, c0, c1, tin, OfDecl(Statement(s), top), names, frame, holes)
  {
    hide Compiles, Settled, Pending, SizeAll, StmtSafe, Within, Apart, Trivial;
    if !Skipped(c0, c1, tin, OfStmt(s), holes) && StmtSafe(s, names) {
      StatementCompiles(A, c1.code, c1.consts, Seg(|c0.code| - SizeAll(tin), tin, Settled(c1), Pending(c1.tail)), s, top,
                        names, frame, holes);
    }
  }

  lemma DoneProcessed(c0: Chunk, top: bool)
    ensures Skipped(c0, c0, [], OfDecls(Done, top), NO_HOLES)
  {
  }

  lemma ApartBoth(h: Holes, k: Holes, a: nat, m: nat, b: nat)
    requires Within(h.All(), a, m) && Within(k.All(), m, b) && a <= m <= b && Apart(h.All()) && Apart(k.All())
    ensures Within(h.Append(k).All(), a, b) && Apart(h.Append(k).All())
  {
    ApartParts(h.breaks, h.conts);
    ApartParts(k.breaks, k.conts);
    WithinParts(h, a, m);
    WithinParts(k, m, b);
    var H := h.Append(k).All();
    WithinBoth(h, k, a, m, b);
    forall i, j | 0 <= i < j < |H| ensures H[i] + 2 <= H[j] || H[j] + 2 <= H[i] {
      ApartPair(h, k, m, i, j);
    }
  }

  lemma WithinBoth(h: Holes, k: Holes, a: nat, m: nat, b: nat)
    requires Within(h.All(), a, m) && Within(k.All(), m, b) && a <= m <= b
    ensures Within(h.Append(k).All(), a, b)
  {
    AllOfBoth(h, k);
    forall x | x in h.Append(k).All() ensures a <= x && x + 2 <= b {
      if x in h.All() { assert x + 2 <= m; } else { assert x in k.All(); }
    }
  }

  lemma ApartParts(x: seq<nat>, y: seq<nat>)
    requires Apart(x + y)
    ensures Apart(x) && Apart(y)
    ensures forall i, j :: 0 <= i < |x| && 0 <= j < |y| ==> x[i] + 2 <= y[j] || y[j] + 2 <= x[i]
  {
    forall i, j | 0 <= i < j < |x| ensures x[i] + 2 <= x[j] || x[j] + 2 <= x[i] {
      assert (x + y)[i] == x[i] && (x + y)[j] == x[j];
    }
    forall i, j | 0 <= i < j < |y| ensures y[i] + 2 <= y[j] || y[j] + 2 <= y[i] {
      assert (x + y)[|x| + i] == y[i] && (x + y)[|x| + j] == y[j];
    }
    forall i, j | 0 <= i < |x| && 0 <= j < |y| ensures x[i] + 2 <= y[j] || y[j] + 2 <= x[i] {
      assert (x + y)[i] == x[i] && (x + y)[|x| + j] == y[j];
    }
  }

  lemma WithinParts(h: Holes, a: nat, b: nat)
    requires Within(h.All(), a, b)
    ensures forall i :: 0 <= i < |h.breaks| ==> a <= h.breaks[i] && h.breaks[i] + 2 <= b
    ensures forall i :: 0 <= i < |h.conts| ==> a <= h.conts[i] && h.conts[i] + 2 <= b
  {
    forall i | 0 <= i < |h.breaks| ensures a <= h.breaks[i] && h.breaks[i] + 2 <= b { assert h.breaks[i] in h.All(); }
    forall i | 0 <= i < |h.conts| ensures a <= h.conts[i] && h.conts[i] + 2 <= b { assert h.conts[i] in h.All(); }
  }

  /** Where the hole with index i in the combined list comes from. */
  function HoleAt(h: Holes, k: Holes, i: nat): nat
    requires i < |h.Append(k).All()|
  {
    var a, b, c := |h.breaks|, |h.breaks| + |k.breaks|, |h.breaks| + |k.breaks| + |h.conts|;
    if i < a then h.breaks[i] else if i < b then k.breaks[i - a] else if i < c then h.conts[i - b] else k.conts[i - c]
  }

  lemma ApartPair(h: Holes, k: Holes, m: nat, i: nat, j: nat)
    requires i < j < |h.Append(k).All()|
    requires Apart(h.breaks) && Apart(h.conts) && Apart(k.breaks) && Apart(k.conts)
    requires forall i, j :: 0 <= i < |h.breaks| && 0 <= j < |h.conts| ==>
               h.breaks[i] + 2 <= h.conts[j] || h.conts[j] + 2 <= h.breaks[i]
    requires forall i, j :: 0 <= i < |k.breaks| && 0 <= j < |k.conts| ==>
               k.breaks[i] + 2 <= k.conts[j] || k.conts[j] + 2 <= k.breaks[i]
    requires forall i :: 0 <= i < |h.breaks| ==> h.breaks[i] + 2 <= m
    requires forall i :: 0 <= i < |h.conts| ==> h.conts[i] + 2 <= m
    requires forall i :: 0 <= i < |k.breaks| ==> m <= k.breaks[i]
    requires forall i :: 0 <= i < |k.conts| ==> m <= k.conts[i]
    ensures var H := h.Append(k).All(); H[i] + 2 <= H[j] || H[j] + 2 <= H[i]
  {
    var H := h.Append(k).All();
    assert H[i] == HoleAt(h, k, i) && H[j] == HoleAt(h, k, j);
  }

  lemma WithinWider(h: seq<nat>, a: nat, b: nat, a1: nat, b1: nat)
    requires Within(h, a, b) && a1 <= a && b <= b1
    ensures Within(h, a1, b1)
  {
  }

  /** A declaration and the list behind it. */
  lemma MoreProcessed(A: Arith, c0: Chunk, c1: Chunk, c2: Chunk, tin: seq<Instr>, tmid: seq<Instr>, d: Decl, ds: Decls,
                      top: bool, names: seq<Text>, frame: Frame, h: Holes, k: Holes)
    requires Processed(A, c0, c1, tin, OfDecl(d, top), names, frame, h)
    requires Processed(A, c1, c2, tmid, OfDecls(ds, top), Extended(names, d, top), frame, k)
    requires EndsWith(c0.code, c0.tail) && EndsWith(c1.code, c1.tail) && EndsWith(c2.code, c2.tail)
    requires frame.height <= |names|
    ensures var t := if Skipped(c0, c1, tin, OfDecl(d, top), h) then tmid else tin;
            Processed(A, c0, c2, t, OfDecls(More(d, ds), top), names, frame, h.Append(k))
  {
    hide Compiles, EndsWith, SizeAll, Built;
    NoSize();
    NoMoreHoles(h, k);
    if Skipped(c0, c1, tin, OfDecl(d, top), h) {
      if !Skipped(c1, c2, tmid, OfDecls(ds, top), k) {
        BeforeBuilt(A, c0, c1, c2, tmid, d, ds, top, names, frame, k);
      }
    } else if Skipped(c1, c2, tmid, OfDecls(ds, top), k) {
      BehindBuilt(A, c0, c1, c2, tin, d, ds, top, names, frame, h);
    } else {
      BothBuilt(A, c0, c1, c2, tin, tmid, d, ds, top, names, frame, h, k);
    }
  }

  lemma NoMoreHoles(h: Holes, k: Holes)
    ensures NO_HOLES.Append(k) == k && h.Append(NO_HOLES) == h
  {
  }

  lemma BeforeBuilt(A: Arith, c0: Chunk, c1: Chunk, c2: Chunk, t: seq<Instr>, d: Decl, ds: Decls,
                    top: bool, names: seq<Text>, frame: Frame, k: Holes)
    requires Skipped(c0, c1, [], OfDecl(d, top), NO_HOLES)
    requires Built(A, c1, c2, t, OfDecls(ds, top), Extended(names, d, top), frame, k)
    ensures Built(A, c0, c2, t, OfDecls(More(d, ds), top), names, frame, k)
  {
    hide Compiles, EndsWith, SizeAll, Settled, Pending, DeclSafe, DeclsSafe, Declared, Within, Apart, Trivial;
    NoSize();
    SafeMore(d, ds, top, names);
    DeclaredMore(d, ds, top);
    assert Extended(names, d, top) == names;
    assert Declared(More(d, ds), top) == Declared(ds, top);
    if DeclsSafe(ds, top, names) {
      TrivialBefore(A, c2.code, c2.consts, Seg(|c0.code| - SizeAll(t), t, Settled(c2), Pending(c2.tail)), d, ds, top,
                    names, frame, k);
    }
  }

  lemma BehindBuilt(A: Arith, c0: Chunk, c1: Chunk, c2: Chunk, t: seq<Instr>, d: Decl, ds: Decls,
                    top: bool, names: seq<Text>, frame: Frame, h: Holes)
    requires Built(A, c0, c1, t, OfDecl(d, top), names, frame, h)
    requires Skipped(c1, c2, [], OfDecls(ds, top), NO_HOLES) && EndsWith(c1.code, c1.tail)
    ensures Built(A, c0, c2, t, OfDecls(More(d, ds), top), names, frame, h)
  {
    hide Compiles, EndsWith, SizeAll, Pending, DeclSafe, DeclsSafe, Declared, Within, Apart, TrivialDecls;
    TrivialNames(ds, top);
    SafeMore(d, ds, top, names);
    DeclaredMore(d, ds, top);
    SettledEnd(c1);
    if DeclSafe(d, top, names) {
      var seg := Seg(|c0.code| - SizeAll(t), t, Settled(c2), Pending(c2.tail));
      TrivialBehind(A, c1.code, c1.consts, seg, d, ds, top, names, frame, h);
      SameExtends(c1.code, seg, h);
      LaterCompiles(A, c1.code, c1.consts, c2.code, c2.consts, seg, OfDecls(More(d, ds), top), names, frame, h);
    }
  }

  lemma SameExtends(code: seq<byte>, seg: Seg, h: Holes)
    requires seg.stop <= |code|
    ensures Extends(code, code, seg.start, seg.stop, h.All())
  {
  }

  lemma TrivialNames(ds: Decls, top: bool)
    requires TrivialDecls(ds)
    ensures Declared(ds, top) == []
    decreases ds
  {
    if ds.More? { TrivialNames(ds.rest, top); }
  }

  lemma SafeMore(d: Decl, ds: Decls, top: bool, names: seq<Text>)
    ensures DeclsSafe(More(d, ds), top, names) <==> DeclSafe(d, top, names) && DeclsSafe(ds, top, Extended(names, d, top))
  {
    hide DeclSafe;
  }

  lemma DeclaredMore(d: Decl, ds: Decls, top: bool)
    ensures Declared(More(d, ds), top) == (if d.Var? && !top then [d.name] else []) + Declared(ds, top)
  {
  }

  lemma BothBuilt(A: Arith, c0: Chunk, c1: Chunk, c2: Chunk, tin: seq<Instr>, tmid: seq<Instr>, d: Decl, ds: Decls,
                  top: bool, names: seq<Text>, frame: Frame, h: Holes, k: Holes)
    requires Built(A, c0, c1, tin, OfDecl(d, top), names, frame, h)
    requires Built(A, c1, c2, tmid, OfDecls(ds, top), Extended(names, d, top), frame, k)
    requires EndsWith(c1.code, c1.tail) && frame.height <= |names|
    ensures Built(A, c0, c2, tin, OfDecls(More(d, ds), top), names, frame, h.Append(k))
  {
    hide Compiles, EndsWith, SizeAll, Within, Apart, Settled, Pending, DeclSafe, DeclsSafe, Declared, Built;
    BothLie(A, c0, c1, c2, tin, tmid, d, ds, top, names, frame, h, k);
    if DeclsSafe(More(d, ds), top, names) { BothCompile(A, c0, c1, c2, tin, tmid, d, ds, top, names, frame, h, k); }
    BuiltItem(A, c0, c2, tin, OfDecls(More(d, ds), top), names, frame, h.Append(k));
  }

  /** Where the code of a declaration and of those behind it lies. */
  lemma BothLie(A: Arith, c0: Chunk, c1: Chunk, c2: Chunk, tin: seq<Instr>, tmid: seq<Instr>, d: Decl, ds: Decls,
                top: bool, names: seq<Text>, frame: Frame, h: Holes, k: Holes)
    requires Built(A, c0, c1, tin, OfDecl(d, top), names, frame, h)
    requires Built(A, c1, c2, tmid, OfDecls(ds, top), Extended(names, d, top), frame, k)
    requires EndsWith(c1.code, c1.tail)
    ensures c0.consts <= c1.consts <= c2.consts && (tin == [] || tin == Pending(c0.tail)) && SizeAll(tin) <= |c0.code|
    ensures SizeAll(tmid) <= |c1.code|
    ensures var p, q := |c0.code| - SizeAll(tin), |c1.code| - SizeAll(tmid);
      && p <= Settled(c1) <= q <= Settled(c2) <= |c2.code| && c2.code[..p] == c0.code[..p] && c2.code[..q] == c1.code[..q]
      && Within(h.Append(k).All(), p, Settled(c2)) && Apart(h.Append(k).All())
      && (tmid == Pending(c1.tail) ==> q == Settled(c1)) && (tmid != Pending(c1.tail) ==> tmid == [] && q == |c1.code|)
    ensures NewNames(OfDecls(More(d, ds), top)) == [] ==> c2.tail == []
  {
    hide Compiles, EndsWith, SizeAll, Within, Apart, Settled, Pending, DeclSafe, DeclsSafe, Declared, Built, ListAt;
    NoSize();
    DeclaredMore(d, ds, top);
    SettledEnd(c1);
    BuiltLies(A, c0, c1, tin, OfDecl(d, top), names, frame, h);
    BuiltLies(A, c1, c2, tmid, OfDecls(ds, top), Extended(names, d, top), frame, k);
    var p, q := |c0.code| - SizeAll(tin), |c1.code| - SizeAll(tmid);
    assert Settled(c1) <= q;
    WithinWider(h.All(), p, Settled(c1), p, q);
    ApartBoth(h, k, p, q, Settled(c2));
    SamePrefix(c0.code, c1.code, c2.code, p, q);
  }

  lemma BuiltLies(A: Arith, c0: Chunk, c1: Chunk, tin: seq<Instr>, item: Item, names: seq<Text>, frame: Frame,
                  holes: Holes)
    requires Built(A, c0, c1, tin, item, names, frame, holes)
    ensures c0.consts <= c1.consts && (tin == [] || tin == Pending(c0.tail)) && SizeAll(tin) <= |c0.code|
    ensures var p := |c0.code| - SizeAll(tin);
      && p <= Settled(c1) <= |c1.code| && c1.code[..p] == c0.code[..p]
      && Within(holes.All(), p, Settled(c1)) && Apart(holes.All())
    ensures NewNames(item) == [] ==> c1.tail == []
  {
    hide Compiles, SafeItem, Within, Apart, SizeAll, Settled, Pending, NewNames;
  }

  lemma SamePrefix(c0: seq<byte>, c1: seq<byte>, c2: seq<byte>, p: nat, q: nat)
    requires p <= q && p <= |c0| && q <= |c1| && q <= |c2| && c1[..p] == c0[..p] && c2[..q] == c1[..q]
    ensures c2[..p] == c0[..p]
  {
    assert c2[..p] == c2[..q][..p] == c1[..q][..p] == c1[..p];
  }

  lemma BothCompile(A: Arith, c0: Chunk, c1: Chunk, c2: Chunk, tin: seq<Instr>, tmid: seq<Instr>, d: Decl, ds: Decls,
                    top: bool, names: seq<Text>, frame: Frame, h: Holes, k: Holes)
    requires Built(A, c0, c1, tin, OfDecl(d, top), names, frame, h)
    requires Built(A, c1, c2, tmid, OfDecls(ds, top), Extended(names, d, top), frame, k)
    requires EndsWith(c1.code, c1.tail) && frame.height <= |names| && DeclsSafe(More(d, ds), top, names)
    requires SizeAll(tin) <= |c0.code|
    ensures Compiles(A, c2.code, c2.consts, Seg(|c0.code| - SizeAll(tin), tin, Settled(c2), Pending(c2.tail)),
                     OfDecls(More(d, ds), top), names, frame, h.Append(k))
  {
    hide Compiles, EndsWith, SizeAll, Within, Apart, Settled, Pending, DeclSafe, DeclsSafe, Declared, Built;
    SafeMore(d, ds, top, names);
    BothLie(A, c0, c1, c2, tin, tmid, d, ds, top, names, frame, h, k);
    BuiltCompiles(A, c0, c1, tin, OfDecl(d, top), names, frame, h);
    BuiltCompiles(A, c1, c2, tmid, OfDecls(ds, top), Extended(names, d, top), frame, k);
    var p, q := |c0.code| - SizeAll(tin), |c1.code| - SizeAll(tmid);
    var rest := Seg(q, tmid, Settled(c2), Pending(c2.tail));
    if tmid == Pending(c1.tail) {
      var first := Seg(p, tin, Settled(c1), Pending(c1.tail));
      MoreCompiles(A, c1.code, c1.consts, c2.code, c2.consts, first, rest, d, ds, top, names, frame, h, k);
    } else {
      BuiltProcessed(A, c0, c1, tin, OfDecl(d, top), names, frame, h);
      Flushed(A, c0, c1, tin, OfDecl(d, top), names, frame, h);
      MoreCompiles(A, c1.code, c1.consts, c2.code, c2.consts, Seg(p, tin, |c1.code|, []), rest, d, ds, top,
                   names, frame, h, k);
    }
  }

  lemma BuiltProcessed(A: Arith, c0: Chunk, c1: Chunk, tin: seq<Instr>, item: Item, names: seq<Text>, frame: Frame,
                       holes: Holes)
    requires Built(A, c0, c1, tin, item, names, frame, holes)
    ensures Processed(A, c0, c1, tin, item, names, frame, holes)
  {
    hide Built;
  }

  lemma BuiltCompiles(A: Arith, c0: Chunk, c1: Chunk, tin: seq<Instr>, item: Item, names: seq<Text>, frame: Frame,
                      holes: Holes)
    requires Built(A, c0, c1, tin, item, names, frame, holes) && SafeItem(item, names)
    ensures SizeAll(tin) <= |c0.code|
    ensures Compiles(A, c1.code, c1.consts, Seg(|c0.code| - SizeAll(tin), tin, Settled(c1), Pending(c1.tail)), item, names,
                     frame, holes)
  {
    hide Compiles, SafeItem, Within, Apart, SizeAll, Settled, Pending, NewNames;
  }

  // ---- Scopes and jumps out of loops ----

  /** From c0 to c1 the n innermost locals have been dropped, by K in the place of T. */
  ghost predicate Dropped(A: Arith, c0: Chunk, c1: Chunk, n: nat, T: seq<Instr>, K: seq<Instr>) {
    && (T == [] || (T == Pending(c0.tail) && n == 1)) && SizeAll(T) <= |c0.code| && AllWellFormed(K)
    && c1.code == c0.code[..|c0.code| - SizeAll(T)] + EncodeAll(K) && c1.consts == c0.consts
    && Pops(A, c1.consts, T, K, n)
    && (if n == 0 then c1.tail == c0.tail && K == [] else c1.tail == [])
  }

  lemma DroppedList(A: Arith, c0: Chunk, c1: Chunk, n: nat, T: seq<Instr>, K: seq<Instr>)
    requires Dropped(A, c0, c1, n, T, K)
    ensures var q := |c0.code| - SizeAll(T);
            |c1.code| == q + SizeAll(K) && c1.code[..q] == c0.code[..q] && ListAt(c1.code, q, K)
  {
    hide EncodeAll, SizeAll, Pops, ListAt, AllWellFormed, Pending;
    var q := |c0.code| - SizeAll(T);
    LineBytes(c0.code[..q], K);
    assert c0.code[..q][..q] == c0.code[..q];
  }

  lemma BlockSafe(ds: Decls, names: seq<Text>)
    ensures StmtSafe(Block(ds), names) == DeclsSafe(ds, false, names)
  {
  }

  lemma BlockProcessed(A: Arith, c0: Chunk, c1: Chunk, c2: Chunk, tin: seq<Instr>, ds: Decls, T: seq<Instr>, K: seq<Instr>,
                       names: seq<Text>, frame: Frame, holes: Holes)
    requires Processed(A, c0, c1, tin, OfDecls(ds, false), names, frame, holes)
    requires Dropped(A, c1, c2, |Declared(ds, false)|, T, K)
    requires EndsWith(c1.code, c1.tail) && frame.height <= |names|
    ensures Processed(A, c0, c2, tin, OfStmt(Block(ds)), names, frame, holes)
  {
    hide Compiles, EndsWith, SizeAll, EncodeAll, Within, Apart, Pops, Settled, Pending, DeclsSafe, Declared, Built, Dropped;
    if Skipped(c0, c1, tin, OfDecls(ds, false), holes) {
      TrivialNames(ds, false);
      NothingDropped(A, c1, c2, T, K);
    } else {
      BlockBuilt(A, c0, c1, c2, tin, ds, T, K, names, frame, holes);
    }
  }

  lemma NothingDropped(A: Arith, c1: Chunk, c2: Chunk, T: seq<Instr>, K: seq<Instr>)
    requires Dropped(A, c1, c2, 0, T, K)
    ensures c2.code == c1.code && c2.tail == c1.tail && c2.consts == c1.consts
  {
    hide Pops;
    NoSize();
    assert EncodeAll([]) == [];
  }

  lemma BlockBuilt(A: Arith, c0: Chunk, c1: Chunk, c2: Chunk, tin: seq<Instr>, ds: Decls, T: seq<Instr>, K: seq<Instr>,
                   names: seq<Text>, frame: Frame, holes: Holes)
    requires Built(A, c0, c1, tin, OfDecls(ds, false), names, frame, holes)
    requires Dropped(A, c1, c2, |Declared(ds, false)|, T, K)
    requires EndsWith(c1.code, c1.tail) && frame.height <= |names|
    ensures Built(A, c0, c2, tin, OfStmt(Block(ds)), names, frame, holes)
  {
    hide Compiles, EndsWith, SizeAll, EncodeAll, Within, Apart, Pops, Settled, Pending, DeclsSafe, Declared, StmtSafe;
    NoSize();
    BlockSafe(ds, names);
    var n := |Declared(ds, false)|;
    DroppedList(A, c1, c2, n, T, K);
    SettledEnd(c1);
    ClearSettled(c2);
    var p, q := |c0.code| - SizeAll(tin), |c1.code| - SizeAll(T);
    WithinWider(holes.All(), p, Settled(c1), p, |c2.code|);
    assert c2.code[..p] == c2.code[..q][..p] == c1.code[..q][..p];
    if DeclsSafe(ds, false, names) { BlockMeans(A, c0, c1, c2, tin, ds, T, K, names, frame, holes); }
  }

  lemma BlockMeans(A: Arith, c0: Chunk, c1: Chunk, c2: Chunk, tin: seq<Instr>, ds: Decls, T: seq<Instr>, K: seq<Instr>,
                   names: seq<Text>, frame: Frame, holes: Holes)
    requires Built(A, c0, c1, tin, OfDecls(ds, false), names, frame, holes)
    requires Dropped(A, c1, c2, |Declared(ds, false)|, T, K)
    requires EndsWith(c1.code, c1.tail) && frame.height <= |names| && DeclsSafe(ds, false, names)
    requires SizeAll(tin) <= |c0.code|
    ensures Compiles(A, c2.code, c2.consts, Seg(|c0.code| - SizeAll(tin), tin, |c2.code|, []), OfStmt(Block(ds)), names,
                     frame, holes)
  {
    hide Compiles, EndsWith, SizeAll, EncodeAll, Within, Apart, Pops, Settled, Pending, DeclsSafe, Declared, StmtSafe;
    NoSize();
    var n := |Declared(ds, false)|;
    DroppedList(A, c1, c2, n, T, K);
    SettledEnd(c1);
    var p, q := |c0.code| - SizeAll(tin), |c1.code| - SizeAll(T);
    if T == Pending(c1.tail) {
      BlockCompiles(A, c1.code, c1.consts, c2.code, c2.consts, Seg(p, tin, q, T), ds, K, n, names, frame, holes);
    } else {
      Flushed(A, c0, c1, tin, OfDecls(ds, false), names, frame, holes);
      BlockCompiles(A, c1.code, c1.consts, c2.code, c2.consts, Seg(p, tin, q, []), ds, K, n, names, frame, holes);
    }
  }

  /** The three bytes of a jump behind c1, and the op stack cleared. */
  ghost predicate Jumped(c1: Chunk, c2: Chunk) {
    |c2.code| == |c1.code| + 3 && c2.code[..|c1.code|] == c1.code && c2.tail == [] && c2.consts == c1.consts
  }

  function LeaveHoles(isBreak: bool, hole: nat): Holes {
    if isBreak then Holes([hole], []) else Holes([], [hole])
  }

  lemma LeaveBuilt(A: Arith, c0: Chunk, c1: Chunk, c2: Chunk, n: nat, T: seq<Instr>, K: seq<Instr>, isBreak: bool,
                   names: seq<Text>, frame: Frame)
    requires Dropped(A, c0, c1, n, T, K) && Jumped(c1, c2) && c2.code[|c1.code|] == OP_JUMP
    requires frame.height + n == |names|
    ensures Built(A, c0, c2, T, OfStmt(if isBreak then Break else Continue), names, frame,
                  LeaveHoles(isBreak, |c1.code| + 1))
  {
    hide Compiles, SizeAll, EncodeAll, Pops;
    NoSize();
    DroppedList(A, c0, c1, n, T, K);
    ClearSettled(c2);
    var p := |c0.code| - SizeAll(T);
    assert c2.code[..p] == c2.code[..|c1.code|][..p] == c0.code[..p];
    PrefixList(c1.code, c2.code, p, K);
    LeaveCompiles(A, c2.code, c2.consts, p, T, K, n, isBreak, names, frame);
    assert LeaveHoles(isBreak, |c1.code| + 1).All() == [|c1.code| + 1];
  }

  lemma ContinueBuilt(A: Arith, c0: Chunk, c1: Chunk, c2: Chunk, n: nat, T: seq<Instr>, K: seq<Instr>,
                      names: seq<Text>, frame: Frame)
    requires Dropped(A, c0, c1, n, T, K) && Jumped(c1, c2)
    requires frame.cont.Some? && JumpAt(c2.code, |c1.code|, frame.cont.value)
    requires frame.height + n == |names|
    ensures Built(A, c0, c2, T, OfStmt(Continue), names, frame, NO_HOLES)
  {
    hide Compiles, SizeAll, EncodeAll, Pops, JumpAt;
    NoSize();
    DroppedList(A, c0, c1, n, T, K);
    ClearSettled(c2);
    var p := |c0.code| - SizeAll(T);
    assert c2.code[..p] == c2.code[..|c1.code|][..p] == c0.code[..p];
    PrefixList(c1.code, c2.code, p, K);
    ContinueCompiles(A, c2.code, c2.consts, p, T, K, n, names, frame);
  }
}
