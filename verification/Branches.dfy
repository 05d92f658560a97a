/** Back-patching: conditionals and loops, put together from the states the chunk goes through. */
module Branches {
  import opened Types
  import opened Values
  import opened Syntax
  import opened Semantics
  import opened Bytecode
  import opened Machine
  import opened Peephole
  import opened Simulation
  import opened Layout
  import opened Items
  import opened Tails
  import opened Buffer
  import opened Regions
  import opened Statements

  // ---- Patching ----

  /** whole is code with the jumps of the holes, and nothing else, made to lead to target. */
  ghost predicate PatchedTo(code: seq<byte>, whole: seq<byte>, holes: seq<nat>, target: nat) {
    |whole| == |code| && Extends(code, whole, 0, |code|, holes) && Patched(whole, holes, target)
  }

  lemma PatchOne(code: seq<byte>, h: nat, target: nat)
    requires h + 2 <= |code| && h + 2 <= target && target - h - 2 < 0x1_0000
    ensures PatchedTo(code, Patch(code, h, target - h - 2), [h], target)
  {
    var off := target - h - 2;
    var w := Patch(code, h, off);
    assert h in [h];
    assert w[h] == w[h..h + 2][0] && w[h + 1] == w[h..h + 2][1];
    forall p | 0 <= p < |code| && !IsHole(p, [h]) ensures w[p] == code[p] {
      if p < h { assert w[p] == w[..h][p]; } else { assert w[p] == w[h + 2..][p - h - 2]; }
    }
  }

  lemma PatchNone(code: seq<byte>, target: nat)
    ensures PatchedTo(code, code, [], target)
  {
  }

  /** Patching more holes, none of which overlaps the ones already patched. */
  lemma PatchMore(code: seq<byte>, mid: seq<byte>, whole: seq<byte>, h: seq<nat>, k: seq<nat>, target: nat)
    requires PatchedTo(code, mid, h, target) && PatchedTo(mid, whole, k, target)
    requires forall x, y :: x in h && y in k ==> x + 2 <= y || y + 2 <= x
    requires forall x :: x in h ==> x + 2 <= |code|
    ensures PatchedTo(code, whole, h + k, target)
  {
    forall x | x in h + k ensures JumpTo(whole, x, target) {
      if x in h {
        assert JumpTo(mid, x, target);
        assert !IsHole(x, k) && !IsHole(x + 1, k);
        KeptJumpTo(mid, whole, 0, |mid|, k, x, target);
      }
    }
    forall p | 0 <= p < |code| && !IsHole(p, h + k) ensures whole[p] == code[p] {
      assert !IsHole(p, h) && !IsHole(p, k);
    }
  }

  lemma PatchSame(code: seq<byte>, whole: seq<byte>, h: seq<nat>, k: seq<nat>, target: nat)
    requires PatchedTo(code, whole, h, target) && forall x :: x in h <==> x in k
    ensures PatchedTo(code, whole, k, target)
  {
    hide JumpTo;
    forall p | IsHole(p, h) ensures IsHole(p, k) {}
    forall p | IsHole(p, k) ensures IsHole(p, h) {}
  }

  // ---- Conditionals ----

  /** Where the bytes of a finished conditional come from. */
  lemma IfBytes(codeB: seq<byte>, codeT: seq<byte>, codeJ: seq<byte>, codeP: seq<byte>, codeF: seq<byte>, whole: seq<byte>,
                a: nat, hole: int, hT: seq<nat>, hF: seq<nat>)
    requires a <= |codeB| <= |codeT| && codeT[..|codeB|] == codeB && Within(HoleOf(hole), a, |codeB|)
    requires |codeJ| == |codeT| + 3 && codeJ[..|codeT|] == codeT && codeJ[|codeT|] == OP_JUMP
    requires PatchedTo(codeJ, codeP, HoleOf(hole), |codeJ|)
    requires |codeF| >= |codeP| && codeF[..|codeP|] == codeP
    requires PatchedTo(codeF, whole, [|codeT| + 1], |codeF|)
    ensures var b, j, end := |codeB|, |codeT|, |codeF|;
            && Extends(codeB, whole, a, b, HoleOf(hole)) && Patched(whole, HoleOf(hole), j + 3)
            && Extends(codeT, whole, b, j, hT) && JumpAt(whole, j, end) && Extends(codeF, whole, j + 3, end, hF)
            && whole[..a] == codeB[..a]
  {
    hide JumpAt;
    var b, j, end := |codeB|, |codeT|, |codeF|;
    assert j + 1 in [j + 1];
    forall p | 0 <= p < b ensures codeB[p] == codeT[p] == codeJ[p] {
      assert codeT[..b][p] == codeB[p] && codeJ[..j][p] == codeT[p];
    }
    forall p | 0 <= p < j ensures codeJ[p] == codeT[p] { assert codeJ[..j][p] == codeT[p]; }
    forall p | 0 <= p < j + 3 ensures codeF[p] == codeP[p] { assert codeF[..j + 3][p] == codeP[p]; }
    if hole >= 0 {
      assert hole in HoleOf(hole);
      KeptJumpTo(codeP, codeF, 0, j + 3, [], hole, j + 3);
      KeptJumpTo(codeF, whole, 0, end, [j + 1], hole, j + 3);
    }
    FilledJump(whole, j, end);
  }

  lemma IfBuilt(A: Arith, c0: Chunk, cC: Chunk, cB: Chunk, cT: Chunk, cJ: Chunk, cP: Chunk, cF: Chunk, c1: Chunk,
                L: seq<Instr>, c: Expr, t: Stmt, f: Stmt, hole: int, tinT: seq<Instr>, tinF: seq<Instr>,
                hT: Holes, hF: Holes, names: seq<Text>, frame: Frame)
    requires ExprDone(A, c0, cC, L, c, names) && PoolValid(cC.consts)
    requires cB == Chunk(BranchCode(c0.code, L), [], cC.consts) && hole == (if BranchOf(L).Never? then -1 else |cB.code| - 2)
    requires Processed(A, cB, cT, tinT, OfStmt(t), names, frame, hT)
    requires Jumped(cT, cJ) && cJ.code[|cT.code|] == OP_JUMP
    requires PatchedTo(cJ.code, cP.code, HoleOf(hole), |cJ.code|) && cP.tail == [] && cP.consts == cJ.consts
    requires Processed(A, cP, cF, tinF, OfStmt(f), names, frame, hF)
    requires PatchedTo(cF.code, c1.code, [|cT.code| + 1], |cF.code|) && c1.tail == cF.tail && c1.consts == cF.consts
    requires frame.height <= |names|
    ensures Built(A, c0, c1, [], OfStmt(If(c, t, f)), names, frame, hT.Append(hF))
  {
    hide Processed, Compiles, BranchCompiles, EndsWith, SizeAll, EncodeAll, Within, Apart, Settled, Pending, PoolValid, BranchOf,
         PatchedTo, Extends, Patched, JumpAt, Emits, IsSuffix, AllWellFormed, StmtSafe, JoinSafe, Built;
    var a, b, j, end := |c0.code|, |cB.code|, |cT.code|, |cF.code|;
    BranchEnd(c0.code, L);
    StmtPart(A, cB, cT, tinT, t, names, frame, hT);
    SamePatched(cJ.code, cP.code, HoleOf(hole), |cJ.code|);
    StmtPart(A, cP, cF, tinF, f, names, frame, hF);
    SamePatched(cF.code, c1.code, [j + 1], end);
    IfBytes(cB.code, cT.code, cJ.code, cP.code, cF.code, c1.code, a, hole, hT.All(), hF.All());
    WithinWider(hT.All(), b, j, a, j + 3);
    ApartBoth(hT, hF, a, j + 3, end);
    NoSize();
    IfSafe(c, t, f, names);
    if StmtSafe(If(c, t, f), names) {
      BranchDone(A, c0, cC, L, c, names);
      IfCompiles(A, c1.code, c1.consts, cB.code, cB.consts, a, b, hole, c, cT.code, cT.consts, j, t, hT,
                 end, f, cF.code, hF, names, frame);
    }
    BuiltClear(A, c0, c1, If(c, t, f), names, frame, hT.Append(hF));
  }

  lemma IfSafe(c: Expr, t: Stmt, f: Stmt, names: seq<Text>)
    ensures StmtSafe(If(c, t, f), names) <==> JoinSafe(c, names) && StmtSafe(t, names) && StmtSafe(f, names)
  {
    hide JoinSafe;
  }

  lemma SamePatched(code: seq<byte>, whole: seq<byte>, holes: seq<nat>, target: nat)
    requires PatchedTo(code, whole, holes, target)
    ensures |whole| == |code|
  {
  }

  /** Where a condition's code ends, and its hole. */
  lemma BranchEnd(base: seq<byte>, L: seq<Instr>)
    requires AllWellFormed(L)
    ensures var code := BranchCode(base, L);
            var hole := if BranchOf(L).Never? then -1 else |code| - 2;
            && |base| <= |code| && code[..|base|] == base && Within(HoleOf(hole), |base|, |code|)
  {
    hide BranchOf, BranchHead, EncodeAll;
  }

  lemma NothingPending(c: Chunk)
    ensures c.tail == [] ==> Pending(c.tail) == []
  {
  }

  /** A statement inside another, begun with a clear op stack. */
  lemma StmtPart(A: Arith, c0: Chunk, c1: Chunk, tin: seq<Instr>, s: Stmt, names: seq<Text>, frame: Frame, holes: Holes)
    requires Processed(A, c0, c1, tin, OfStmt(s), names, frame, holes) && (c0.tail == [] || tin == [])
    requires frame.height <= |names|
    ensures tin == [] && |c0.code| <= |c1.code| && c1.code[..|c0.code|] == c0.code && c0.consts <= c1.consts
    ensures (c1.tail == [] || c1.tail == c0.tail)
    ensures Within(holes.All(), |c0.code|, |c1.code|) && Apart(holes.All())
    ensures StmtSafe(s, names) ==> Compiles(A, c1.code, c1.consts, Seg(|c0.code|, [], |c1.code|, []), OfStmt(s), names, frame, holes)
  {
    hide Compiles, EncodeAll, StmtSafe, Settled, Pending, SizeAll, Trivial;
    NoSize();
    if Skipped(c0, c1, tin, OfStmt(s), holes) {
      assert c1.code[..|c0.code|] == c0.code;
      NoneOpen(|c0.code|, |c1.code|);
      if StmtSafe(s, names) { TrivialCompiles(A, c1.code, c1.consts, OfStmt(s), names, frame); }
    } else {
      ClearSettled(c1);
      NothingPending(c0);
      assert c0.code[..|c0.code|] == c0.code;
    }
  }

  // ---- Loops ----

  /** Where the bytes of a finished loop come from: what stands before its body, and the body. */
  lemma LoopBytes(codeS: seq<byte>, codeT: seq<byte>, codeJ: seq<byte>, codeP: seq<byte>, whole: seq<byte>,
                  a: nat, hole: int, breaks: seq<nat>, start: nat)
    requires a <= |codeS| <= |codeT| && codeT[..|codeS|] == codeS && Within(HoleOf(hole), a, |codeS|)
    requires |codeJ| == |codeT| + 3 && codeJ[..|codeT|] == codeT && JumpAt(codeJ, |codeT|, start)
    requires Within(breaks, |codeS|, |codeT|)
    requires PatchedTo(codeJ, codeP, HoleOf(hole), |codeJ|) && PatchedTo(codeP, whole, breaks, |codeJ|)
    ensures var b, j := |codeS|, |codeT|;
            && |whole| == j + 3 && Extends(codeS, whole, 0, b, HoleOf(hole)) && Patched(whole, HoleOf(hole), j + 3)
            && Extends(codeT, whole, b, j, breaks) && Patched(whole, breaks, j + 3) && JumpAt(whole, j, start)
            && whole[..a] == codeS[..a]
  {
    hide JumpAt;
    var b, j := |codeS|, |codeT|;
    forall p | 0 <= p < b ensures codeS[p] == codeT[p] == codeJ[p] {
      assert codeT[..b][p] == codeS[p] && codeJ[..j][p] == codeT[p];
    }
    forall p | 0 <= p < j ensures codeJ[p] == codeT[p] { assert codeJ[..j][p] == codeT[p]; }
    if hole >= 0 {
      assert hole in HoleOf(hole);
      KeptJumpTo(codeP, whole, 0, j + 3, breaks, hole, j + 3);
    }
    KeptJumpAt(codeJ, codeP, 0, j + 3, HoleOf(hole), j, start);
    KeptJumpAt(codeP, whole, 0, j + 3, breaks, j, start);
  }

  lemma SubExtends(code: seq<byte>, whole: seq<byte>, a: nat, b: nat, holes: seq<nat>)
    requires Extends(code, whole, 0, b, holes)
    ensures Extends(code, whole, a, b, holes)
  {
  }

  lemma BreaksOnly(h: Holes)
    requires h.conts == []
    ensures h.All() == h.breaks
  {
  }

  lemma WhileShape(A: Arith, c0: Chunk, cC: Chunk, cB: Chunk, cT: Chunk, cJ: Chunk, cP: Chunk, c1: Chunk,
                   L: seq<Instr>, c: Expr, body: Stmt, hole: int, tin: seq<Instr>, h: Holes, names: seq<Text>)
    requires ExprDone(A, c0, cC, L, c, names)
    requires cB == Chunk(BranchCode(c0.code, L), [], cC.consts)
    requires hole == (if BranchOf(L).Never? then -1 else |cB.code| - 2)
    requires Processed(A, cB, cT, tin, OfStmt(body), names, Frame(|names|, Some(|c0.code|)), h) && h.conts == []
    requires Jumped(cT, cJ) && JumpAt(cJ.code, |cT.code|, |c0.code|)
    requires PatchedTo(cJ.code, cP.code, HoleOf(hole), |cJ.code|) && PatchedTo(cP.code, c1.code, h.breaks, |cJ.code|)
    ensures var a, b, j := |c0.code|, |cB.code|, |cT.code|;
      && a <= b <= j && |c1.code| == j + 3 && c1.code[..a] == c0.code && c0.consts <= cC.consts <= cT.consts
      && Extends(cB.code, c1.code, a, b, HoleOf(hole)) && Patched(c1.code, HoleOf(hole), j + 3)
      && Extends(cT.code, c1.code, b, j, h.All()) && Patched(c1.code, h.breaks, j + 3) && JumpAt(c1.code, j, a)
      && (StmtSafe(body, names) ==>
            Compiles(A, cT.code, cT.consts, Seg(b, [], j, []), OfStmt(body), names, Frame(|names|, Some(a)), h))
  {
    hide Processed, Compiles, EncodeAll, SizeAll, Within, Settled, Pending, BranchOf, PatchedTo, Extends, Patched, JumpAt,
         Emits, IsSuffix, AllWellFormed, StmtSafe, JoinSafe, Apart, BranchCode, EndsWith;
    var a, b, j := |c0.code|, |cB.code|, |cT.code|;
    BranchEnd(c0.code, L);
    StmtPart(A, cB, cT, tin, body, names, Frame(|names|, Some(a)), h);
    BreaksOnly(h);
    LoopBytes(cB.code, cT.code, cJ.code, cP.code, c1.code, a, hole, h.breaks, a);
    SubExtends(cB.code, c1.code, a, b, HoleOf(hole));
  }

  lemma WhileBuilt(A: Arith, c0: Chunk, cC: Chunk, cB: Chunk, cT: Chunk, cJ: Chunk, cP: Chunk, c1: Chunk,
                   L: seq<Instr>, c: Expr, body: Stmt, hole: int, tin: seq<Instr>, h: Holes, names: seq<Text>, frame: Frame)
    requires ExprDone(A, c0, cC, L, c, names) && PoolValid(cC.consts)
    requires cB == Chunk(BranchCode(c0.code, L), [], cC.consts) && hole == (if BranchOf(L).Never? then -1 else |cB.code| - 2)
    requires Processed(A, cB, cT, tin, OfStmt(body), names, Frame(|names|, Some(|c0.code|)), h) && h.conts == []
    requires Jumped(cT, cJ) && JumpAt(cJ.code, |cT.code|, |c0.code|)
    requires PatchedTo(cJ.code, cP.code, HoleOf(hole), |cJ.code|) && PatchedTo(cP.code, c1.code, h.breaks, |cJ.code|)
    requires c1.tail == [] && c1.consts == cT.consts && frame.height <= |names|
    ensures Built(A, c0, c1, [], OfStmt(While(c, body)), names, frame, NO_HOLES)
  {
    hide Processed, Compiles, BranchCompiles, EndsWith, SizeAll, EncodeAll, Within, Settled, Pending, PoolValid, BranchOf,
         PatchedTo, Extends, Patched, JumpAt, Emits, IsSuffix, AllWellFormed, StmtSafe, JoinSafe, Apart, ExprDone, BranchCode,
         Jumped, Built;
    var a, b, j := |c0.code|, |cB.code|, |cT.code|;
    WhileShape(A, c0, cC, cB, cT, cJ, cP, c1, L, c, body, hole, tin, h, names);
    NoneOpen(a, j + 3);
    LoopSafe(c, body, names);
    if StmtSafe(While(c, body), names) {
      BranchDone(A, c0, cC, L, c, names);
      WhileCompiles(A, c1.code, c1.consts, cB.code, cB.consts, a, b, hole, c, cT.code, j, body, h, names, frame);
    }
    BuiltClear(A, c0, c1, While(c, body), names, frame, NO_HOLES);
  }

  lemma LoopSafe(c: Expr, body: Stmt, names: seq<Text>)
    ensures StmtSafe(While(c, body), names) <==> JoinSafe(c, names) && StmtSafe(body, names)
    ensures StmtSafe(DoWhile(body, c), names) <==> JoinSafe(c, names) && StmtSafe(body, names)
  {
    hide JoinSafe;
  }

  // ---- Do-while ----

  lemma DoWhileBytes(codeT: seq<byte>, codeK: seq<byte>, codeB: seq<byte>, codeJ: seq<byte>, codeP: seq<byte>,
                     whole: seq<byte>, a: nat, h: Holes, hole: int)
    requires a <= |codeT| && Within(h.All(), a, |codeT|) && Apart(h.All())
    requires PatchedTo(codeT, codeK, h.conts, |codeT|)
    requires |codeB| >= |codeT| && codeB[..|codeT|] == codeK && Within(HoleOf(hole), |codeT|, |codeB|)
    requires |codeJ| == |codeB| + 3 && codeJ[..|codeB|] == codeB && JumpAt(codeJ, |codeB|, a)
    requires PatchedTo(codeJ, codeP, HoleOf(hole), |codeJ|) && PatchedTo(codeP, whole, h.breaks, |codeJ|)
    ensures var j, k := |codeT|, |codeB|;
            && |whole| == k + 3 && Extends(codeT, whole, a, j, h.All())
            && Patched(whole, h.breaks, k + 3) && Patched(whole, h.conts, j)
            && Extends(codeB, whole, j, k, HoleOf(hole)) && Patched(whole, HoleOf(hole), k + 3)
            && JumpAt(whole, k, a) && whole[..a] == codeT[..a]
  {
    hide JumpAt, JumpTo;
    var j, k := |codeT|, |codeB|;
    ApartParts(h.breaks, h.conts);
    WithinParts(h, a, j);
    forall p | 0 <= p < j ensures codeK[p] == codeB[p] == codeJ[p] {
      assert codeB[..j][p] == codeK[p] && codeJ[..k][p] == codeB[p];
    }
    forall p | 0 <= p < k ensures codeJ[p] == codeB[p] { assert codeJ[..k][p] == codeB[p]; }
    ContsStay(codeT, codeK, codeJ, codeP, whole, a, h, hole);
    if hole >= 0 {
      assert hole in HoleOf(hole);
      KeptJumpTo(codeP, whole, 0, k + 3, h.breaks, hole, k + 3);
    }
    KeptJumpAt(codeJ, codeP, 0, k + 3, HoleOf(hole), k, a);
    KeptJumpAt(codeP, whole, 0, k + 3, h.breaks, k, a);
  }

  lemma ContsStay(codeT: seq<byte>, codeK: seq<byte>, codeJ: seq<byte>, codeP: seq<byte>,
                  whole: seq<byte>, a: nat, h: Holes, hole: int)
    requires PatchedTo(codeT, codeK, h.conts, |codeT|)
    requires |codeT| <= |codeJ| && forall p :: 0 <= p < |codeT| ==> codeJ[p] == codeK[p]
    requires Within(HoleOf(hole), |codeT|, |codeJ|)
    requires PatchedTo(codeJ, codeP, HoleOf(hole), |codeJ|) && PatchedTo(codeP, whole, h.breaks, |codeJ|)
    requires forall i :: 0 <= i < |h.conts| ==> h.conts[i] + 2 <= |codeT|
    requires forall i, j :: 0 <= i < |h.breaks| && 0 <= j < |h.conts| ==>
               h.breaks[i] + 2 <= h.conts[j] || h.conts[j] + 2 <= h.breaks[i]
    ensures Patched(whole, h.conts, |codeT|)
    ensures forall p :: 0 <= p < |codeT| && !IsHole(p, h.All()) ==> whole[p] == codeT[p]
  {
    hide JumpTo;
    var j := |codeT|;
    forall x | x in h.conts ensures JumpTo(whole, x, j) {
      var n :| 0 <= n < |h.conts| && h.conts[n] == x;
      assert Extends(codeK, codeJ, 0, j, []);
      KeptJumpTo(codeK, codeJ, 0, j, [], x, j);
      assert !IsHole(x, HoleOf(hole)) && !IsHole(x + 1, HoleOf(hole));
      KeptJumpTo(codeJ, codeP, 0, |codeJ|, HoleOf(hole), x, j);
      assert !IsHole(x, h.breaks) && !IsHole(x + 1, h.breaks);
      KeptJumpTo(codeP, whole, 0, |codeJ|, h.breaks, x, j);
    }
    forall p | 0 <= p < j && !IsHole(p, h.All()) ensures whole[p] == codeT[p] {
      assert !IsHole(p, h.conts) && !IsHole(p, h.breaks) && !IsHole(p, HoleOf(hole));
    }
  }

  lemma DoWhileBuilt(A: Arith, c0: Chunk, cT: Chunk, cK: Chunk, cC: Chunk, cB: Chunk, cJ: Chunk, cP: Chunk, c1: Chunk,
                     L: seq<Instr>, c: Expr, body: Stmt, hole: int, h: Holes, names: seq<Text>, frame: Frame)
    requires Processed(A, c0, cT, [], OfStmt(body), names, Frame(|names|, None), h)
    requires PatchedTo(cT.code, cK.code, h.conts, |cT.code|) && cK.consts == cT.consts
    requires ExprDone(A, cK, cC, L, c, names) && PoolValid(cC.consts)
    requires cB == Chunk(BranchCode(cK.code, L), [], cC.consts) && hole == (if BranchOf(L).Never? then -1 else |cB.code| - 2)
    requires Jumped(cB, cJ) && JumpAt(cJ.code, |cB.code|, |c0.code|)
    requires PatchedTo(cJ.code, cP.code, HoleOf(hole), |cJ.code|) && PatchedTo(cP.code, c1.code, h.breaks, |cJ.code|)
    requires c1.tail == [] && c1.consts == cC.consts && frame.height <= |names|
    ensures Built(A, c0, c1, [], OfStmt(DoWhile(body, c)), names, frame, NO_HOLES)
  {
    hide Processed, Compiles, BranchCompiles, EndsWith, SizeAll, EncodeAll, Settled, Pending, PoolValid, BranchOf,
         PatchedTo, Extends, Patched, JumpAt, Emits, IsSuffix, AllWellFormed, StmtSafe, JoinSafe, Within, Apart, Built;
    var a, j, k := |c0.code|, |cT.code|, |cB.code|;
    StmtPart(A, c0, cT, [], body, names, Frame(|names|, None), h);
    SamePatched(cT.code, cK.code, h.conts, j);
    BranchEnd(cK.code, L);
    DoWhileBytes(cT.code, cK.code, cB.code, cJ.code, cP.code, c1.code, a, h, hole);
    NoneOpen(a, k + 3);
    LoopSafe(c, body, names);
    if StmtSafe(DoWhile(body, c), names) {
      BranchDone(A, cK, cC, L, c, names);
      DoWhileCompiles(A, c1.code, c1.consts, cT.code, cT.consts, a, j, body, h, cB.code, k, hole, c, names, frame);
    }
    BuiltClear(A, c0, c1, DoWhile(body, c), names, frame, NO_HOLES);
  }

  // ---- For ----

  /** The condition of a for loop, if there is one, with its jump. */
  ghost predicate TestDone(A: Arith, cI: Chunk, cC: Chunk, cB: Chunk, L: seq<Instr>, test: Option<Expr>, hole: int,
                           names: seq<Text>) {
    if test.None? then cB == cI && hole == -1
    else
      && ExprDone(A, cI, cC, L, test.value, names) && PoolValid(cC.consts)
      && cB == Chunk(BranchCode(cI.code, L), [], cC.consts)
      && hole == (if BranchOf(L).Never? then -1 else |cB.code| - 2)
  }

  /** The increment, which stands before the body: a jump over it, its code L and a pop, a jump back to the test. */
  datatype StepTrace = StepTrace(jump: Chunk, value: Chunk, popped: Chunk, looped: Chunk, L: seq<Instr>)

  ghost predicate StepDone(A: Arith, cB: Chunk, cS: Chunk, tr: StepTrace, step: Option<Expr>, s: nat, names: seq<Text>) {
    if step.None? then cS == cB
    else
      && JumpedBy(cB, tr.jump, OP_JUMP)
      && ExprDone(A, tr.jump, tr.value, tr.L, step.value, names)
      && Popped(tr.value.code, tr.value.tail, tr.popped.code) && tr.popped.tail == []
      && tr.popped.consts == tr.value.consts
      && Jumped(tr.popped, tr.looped) && JumpAt(tr.looped.code, |tr.popped.code|, s)
      && PatchedTo(tr.looped.code, cS.code, [|cB.code| + 1], |tr.looped.code|)
      && cS.tail == [] && cS.consts == tr.looped.consts
  }

  ghost predicate JumpedBy(c: Chunk, c1: Chunk, op: byte) {
    Jumped(c, c1) && |c.code| < |c1.code| && c1.code[|c.code|] == op
  }

  lemma TestFacts(A: Arith, cI: Chunk, cC: Chunk, cB: Chunk, L: seq<Instr>, test: Option<Expr>, hole: int,
                  names: seq<Text>)
    requires TestDone(A, cI, cC, cB, L, test, hole, names)
    ensures |cI.code| <= |cB.code| && cB.code[..|cI.code|] == cI.code && cI.consts <= cB.consts
    ensures Within(HoleOf(hole), |cI.code|, |cB.code|)
    ensures test.None? ==> |cB.code| == |cI.code| && hole < 0
    ensures test.Some? && JoinSafe(test.value, names) ==>
              BranchCompiles(A, cB.code, cB.consts, |cI.code|, |cB.code|, hole, test.value, names)
  {
    hide BranchCompiles, EncodeAll, BranchOf, PoolValid, Emits, IsSuffix, JoinSafe;
    if test.Some? {
      BranchEnd(cI.code, L);
      if JoinSafe(test.value, names) { BranchDone(A, cI, cC, L, test.value, names); }
    }
  }

  /** The increment lies in the code up to cS, and means what it says. */
  ghost predicate StepLies(A: Arith, cB: Chunk, cS: Chunk, tr: StepTrace, step: Expr, s: nat, names: seq<Text>) {
    var t, i, u, b := |cB.code|, |tr.jump.code|, |tr.popped.code|, |cS.code|;
    && t + 3 == i <= u && u + 3 == b
    && JumpAt(cS.code, t, b) && JumpAt(cS.code, u, s) && Extends(tr.popped.code, cS.code, i, u, [])
    && tr.popped.consts <= cS.consts
    && (PopSafe(step, names) ==>
          Compiles(A, tr.popped.code, tr.popped.consts, Seg(i, [], u, []), OfStmt(ExprStmt(step)), names,
                   Frame(|names|, None), NO_HOLES))
  }

  lemma StepFacts(A: Arith, cB: Chunk, cS: Chunk, tr: StepTrace, step: Option<Expr>, s: nat, names: seq<Text>)
    requires StepDone(A, cB, cS, tr, step, s, names) && s <= |cB.code|
    ensures |cB.code| <= |cS.code| && cS.code[..|cB.code|] == cB.code && cB.consts <= cS.consts
    ensures if step.None? then cS == cB else StepLies(A, cB, cS, tr, step.value, s, names)
  {
    hide Compiles, EncodeAll, Emits, IsSuffix, Popped, PatchedTo, JumpAt, PopSafe, Built, StepDone;
    if step.Some? { StepTaken(A, cB, cS, tr, step.value, s, names); } else { StepNone(A, cB, cS, tr, s, names); }
  }

  lemma StepNone(A: Arith, cB: Chunk, cS: Chunk, tr: StepTrace, s: nat, names: seq<Text>)
    requires StepDone(A, cB, cS, tr, None, s, names)
    ensures cS == cB
  {
  }

  lemma StepTaken(A: Arith, cB: Chunk, cS: Chunk, tr: StepTrace, step: Expr, s: nat, names: seq<Text>)
    requires StepDone(A, cB, cS, tr, Some(step), s, names) && s <= |cB.code|
    ensures |cB.code| <= |cS.code| && cS.code[..|cB.code|] == cB.code && cB.consts <= cS.consts
    ensures StepLies(A, cB, cS, tr, step, s, names)
  {
    hide Compiles, EncodeAll, Emits, IsSuffix, Popped, PatchedTo, JumpAt, PopSafe, Built, ExprDone;
    StepMeans(A, tr, step, names);
    StepBytes(cB.code, tr.jump.code, tr.popped.code, tr.looped.code, cS.code, s);
  }

  lemma StepMeans(A: Arith, tr: StepTrace, step: Expr, names: seq<Text>)
    requires ExprDone(A, tr.jump, tr.value, tr.L, step, names)
    requires Popped(tr.value.code, tr.value.tail, tr.popped.code) && tr.popped.tail == []
    requires tr.popped.consts == tr.value.consts
    ensures tr.jump.consts <= tr.popped.consts && |tr.jump.code| <= |tr.popped.code|
    ensures tr.popped.code[..|tr.jump.code|] == tr.jump.code
    ensures PopSafe(step, names) ==>
              Compiles(A, tr.popped.code, tr.popped.consts, Seg(|tr.jump.code|, [], |tr.popped.code|, []),
                       OfStmt(ExprStmt(step)), names, Frame(|names|, None), NO_HOLES)
  {
    hide Compiles, ExprDone, Popped, PopSafe, Built, Settled, Pending, SizeAll;
    NoSize();
    ClearSettled(tr.popped);
    ExprStmtBuilt(A, tr.jump, tr.value, tr.popped, tr.L, step, names, Frame(|names|, None));
    BuiltLies(A, tr.jump, tr.popped, [], OfStmt(ExprStmt(step)), names, Frame(|names|, None), NO_HOLES);
    assert SafeItem(OfStmt(ExprStmt(step)), names) == PopSafe(step, names);
    if PopSafe(step, names) {
      BuiltCompiles(A, tr.jump, tr.popped, [], OfStmt(ExprStmt(step)), names, Frame(|names|, None), NO_HOLES);
    }
    assert tr.jump.code[..|tr.jump.code|] == tr.jump.code;
  }

  lemma StepBytes(codeB: seq<byte>, jump: seq<byte>, popped: seq<byte>, looped: seq<byte>, codeS: seq<byte>, s: nat)
    requires s <= |codeB| && |jump| == |codeB| + 3 && jump[..|codeB|] == codeB && jump[|codeB|] == OP_JUMP
    requires |jump| <= |popped| && popped[..|jump|] == jump
    requires |looped| == |popped| + 3 && looped[..|popped|] == popped && JumpAt(looped, |popped|, s)
    requires PatchedTo(looped, codeS, [|codeB| + 1], |looped|)
    ensures |codeS| == |looped| && codeS[..|codeB|] == codeB
    ensures JumpAt(codeS, |codeB|, |looped|) && JumpAt(codeS, |popped|, s)
    ensures Extends(popped, codeS, |jump|, |popped|, [])
  {
    hide JumpAt;
    var t := |codeB|;
    var H := [t + 1];
    assert t + 1 in H;
    forall p | 0 <= p < |popped| ensures looped[p] == popped[p] { assert looped[..|popped|][p] == popped[p]; }
    forall p | 0 <= p < |jump| ensures popped[p] == jump[p] { assert popped[..|jump|][p] == jump[p]; }
    forall p | 0 <= p < t ensures jump[p] == codeB[p] { assert jump[..t][p] == codeB[p]; }
    FilledJump(codeS, t, |looped|);
    KeptJumpAt(looped, codeS, 0, |looped|, H, |popped|, s);
  }

  /** The states of the compiler along a for loop: behind the declarations, the condition, its jump, the increment, the
      body, the jump back, and after each of the two kinds of exits is patched. */
  datatype ForTrace = ForTrace(cI: Chunk, cC: Chunk, cB: Chunk, step: StepTrace, cS: Chunk, cT: Chunk, cJ: Chunk,
                               cP: Chunk, cQ: Chunk, L: seq<Instr>, hole: int, h: Holes)

  /** Where the parts of the loop are. */
  function PartsOf(tr: ForTrace, step: Option<Expr>): ForParts {
    ForParts(|tr.cI.code|, |tr.cB.code|, if step.Some? then |tr.step.jump.code| else |tr.cI.code|,
             |tr.step.popped.code|, |tr.cS.code|, |tr.cT.code|, |tr.cT.code| + 3)
  }

  /** What the compiler emits between the declarations of a for loop and the end of its scope. */
  ghost predicate ForDone(A: Arith, tr: ForTrace, test: Option<Expr>, step: Option<Expr>, body: Stmt, names: seq<Text>) {
    var start: nat := PartsOf(tr, step).i;
    && TestDone(A, tr.cI, tr.cC, tr.cB, tr.L, test, tr.hole, names)
    && StepDone(A, tr.cB, tr.cS, tr.step, step, |tr.cI.code|, names)
    && Processed(A, tr.cS, tr.cT, [], OfStmt(body), names, Frame(|names|, Some(start)), tr.h) && tr.h.conts == []
    && Jumped(tr.cT, tr.cJ) && JumpAt(tr.cJ.code, |tr.cT.code|, start)
    && PatchedTo(tr.cJ.code, tr.cP.code, HoleOf(tr.hole), |tr.cJ.code|)
    && PatchedTo(tr.cP.code, tr.cQ.code, tr.h.breaks, |tr.cJ.code|)
    && tr.cQ.tail == [] && tr.cQ.consts == tr.cT.consts
  }

  /** Where the parts of the loop lie in its code. */
  ghost predicate ForLies(whole: seq<byte>, F: ForParts, codeI: seq<byte>, codeB: seq<byte>, codeP: seq<byte>,
                          codeT: seq<byte>, step: bool, hole: int, breaks: seq<nat>) {
    && F.s <= F.t <= F.b <= F.j && F.end == F.j + 3 <= |whole| && whole[..F.s] == codeI
    && Extends(codeB, whole, F.s, F.t, HoleOf(hole)) && Patched(whole, HoleOf(hole), F.end)
    && Extends(codeT, whole, F.b, F.j, breaks) && Patched(whole, breaks, F.end) && JumpAt(whole, F.j, F.i)
    && (if step then
          && F.t + 3 <= F.i && F.u + 3 <= F.b && JumpAt(whole, F.t, F.b) && JumpAt(whole, F.u, F.s)
          && Extends(codeP, whole, F.i, F.u, [])
        else F.b == F.t && F.i == F.s)
  }

  ghost predicate ForShaped(A: Arith, tr: ForTrace, c1: Chunk, step: Option<Expr>, body: Stmt, names: seq<Text>) {
    var F := PartsOf(tr, step);
    var start: nat := F.i;
    && ForLies(c1.code, F, tr.cI.code, tr.cB.code, tr.step.popped.code, tr.cT.code, step.Some?, tr.hole, tr.h.breaks)
    && tr.h.conts == [] && tr.h.All() == tr.h.breaks && |tr.cQ.code| == F.end
    && tr.cI.consts <= tr.cB.consts <= tr.cS.consts <= tr.cT.consts
    && (StmtSafe(body, names) ==> Compiles(A, tr.cT.code, tr.cT.consts, Seg(F.b, [], F.j, []), OfStmt(body), names,
                                    Frame(|names|, Some(start)), tr.h))
  }

  lemma ForShape(A: Arith, tr: ForTrace, c1: Chunk, test: Option<Expr>, step: Option<Expr>, body: Stmt, names: seq<Text>)
    requires |tr.cQ.code| <= |c1.code| && c1.code[..|tr.cQ.code|] == tr.cQ.code
    requires ForDone(A, tr, test, step, body, names)
    ensures ForShaped(A, tr, c1, step, body, names)
  {
    hide Processed, Compiles, BranchCompiles, SizeAll, EncodeAll, PatchedTo, Extends, Patched, JumpAt, Within, Apart,
         TestDone, StepDone, StmtSafe, PopSafe, JoinSafe;
    var F := PartsOf(tr, step);
    TestFacts(A, tr.cI, tr.cC, tr.cB, tr.L, test, tr.hole, names);
    StepFacts(A, tr.cB, tr.cS, tr.step, step, F.s, names);
    StmtPart(A, tr.cS, tr.cT, [], body, names, Frame(|names|, Some(F.i)), tr.h);
    BreaksOnly(tr.h);
    WithinWider(HoleOf(tr.hole), F.s, F.t, F.s, F.b);
    assert tr.cS.code[..F.s] == tr.cS.code[..F.t][..F.s];
    LoopBytes(tr.cS.code, tr.cT.code, tr.cJ.code, tr.cP.code, tr.cQ.code, F.s, tr.hole, tr.h.breaks, F.i);
    assert c1.code[..F.s] == c1.code[..F.end][..F.s] == tr.cI.code;
    ForBytes(tr.cB.code, tr.cS.code, tr.cT.code, tr.cQ.code, c1.code, F, tr.hole, tr.h.breaks);
    if step.Some? { ForStepBytes(tr.step.popped.code, tr.cS.code, tr.cQ.code, c1.code, F, tr.hole); }
  }

  lemma ForBuilt(A: Arith, c0: Chunk, tr: ForTrace, c1: Chunk, tin: seq<Instr>, init: Decls, h0: Holes,
                 test: Option<Expr>, step: Option<Expr>, body: Stmt, K: seq<Instr>, names: seq<Text>, frame: Frame)
    requires frame.height <= |names| && EndsWith(tr.cI.code, tr.cI.tail)
    requires Processed(A, c0, tr.cI, tin, OfDecls(init, false), names, frame, h0)
    requires ForDone(A, tr, test, step, body, names + Declared(init, false))
    requires Dropped(A, tr.cQ, c1, |Declared(init, false)|, [], K)
    ensures Built(A, c0, c1, tin, OfStmt(For(init, test, step, body)), names, frame, h0)
  {
    hide Processed, Compiles, EndsWith, SizeAll, EncodeAll, Settled, Pending, Extends, Patched, JumpAt, Within, Apart,
         Dropped, Declared, Pops, StmtSafe, Built, ForLies, ForDone, ForEnds, ListAt, ForShaped;
    var names1 := names + Declared(init, false);
    ForDoneTail(A, tr, test, step, body, names1);
    DroppedTail(A, tr.cQ, c1, |Declared(init, false)|, K);
    ForShape(A, tr, c1, test, step, body, names1);
    ForStarts(A, tr, c1, step, body, names1);
    ForOuter(A, c0, tr.cI, c1, tin, init, names, frame, h0);
    ForEnded(c0, tr.cI, c1, tin, h0);
    if StmtSafe(For(init, test, step, body), names) {
      ForMeans(A, c0, tr, c1, tin, init, h0, test, step, body, K, names, frame);
    }
    BuiltStmt(A, c0, c1, tin, For(init, test, step, body), names, frame, h0);
  }

  lemma ForDoneTail(A: Arith, tr: ForTrace, test: Option<Expr>, step: Option<Expr>, body: Stmt, names: seq<Text>)
    requires ForDone(A, tr, test, step, body, names)
    ensures tr.cQ.tail == [] && tr.cQ.consts == tr.cT.consts
  {
    hide TestDone, StepDone, Processed, Jumped, JumpAt, PatchedTo;
  }

  lemma ForStarts(A: Arith, tr: ForTrace, c1: Chunk, step: Option<Expr>, body: Stmt, names: seq<Text>)
    requires ForShaped(A, tr, c1, step, body, names)
    ensures |tr.cI.code| <= |c1.code| && c1.code[..|tr.cI.code|] == tr.cI.code
    ensures tr.cI.consts <= tr.cT.consts
  {
    hide Extends, Patched, JumpAt, Compiles, StmtSafe;
  }

  lemma ForEnded(c0: Chunk, cI: Chunk, c1: Chunk, tin: seq<Instr>, h0: Holes)
    requires ForEnds(c0, cI, c1, tin, h0)
    ensures (tin == [] || tin == Pending(c0.tail)) && SizeAll(tin) <= |c0.code| && c0.consts <= cI.consts
    ensures var p := |c0.code| - SizeAll(tin);
      p <= |c1.code| && c1.code[..p] == c0.code[..p] && Within(h0.All(), p, |c1.code|) && Apart(h0.All())
  {
    hide Settled, Pending, SizeAll, Within, Apart;
  }

  lemma ForMeans(A: Arith, c0: Chunk, tr: ForTrace, c1: Chunk, tin: seq<Instr>, init: Decls, h0: Holes,
                 test: Option<Expr>, step: Option<Expr>, body: Stmt, K: seq<Instr>, names: seq<Text>, frame: Frame)
    requires frame.height <= |names| && SizeAll(tin) <= |c0.code| && EndsWith(tr.cI.code, tr.cI.tail)
    requires c1.consts == tr.cT.consts && |c1.code| == |tr.cQ.code| + SizeAll(K) && ListAt(c1.code, |tr.cQ.code|, K)
    requires Pops(A, c1.consts, [], K, |Declared(init, false)|) && StmtSafe(For(init, test, step, body), names)
    requires Processed(A, c0, tr.cI, tin, OfDecls(init, false), names, frame, h0)
    requires ForDone(A, tr, test, step, body, names + Declared(init, false))
    requires ForShaped(A, tr, c1, step, body, names + Declared(init, false))
    ensures Compiles(A, c1.code, c1.consts, Seg(|c0.code| - SizeAll(tin), tin, |c1.code|, []),
                     OfStmt(For(init, test, step, body)), names, frame, h0)
  {
    hide Processed, Compiles, BranchCompiles, EndsWith, SizeAll, EncodeAll, Extends, Patched, JumpAt, TestDone, StepDone,
         Declared, Pops, StmtSafe, PopSafe, JoinSafe, DeclsSafe, ListAt, PatchedTo, Jumped;
    var names1 := names + Declared(init, false);
    var F := PartsOf(tr, step);
    NoSize();
    ForSafe(init, test, step, body, names);
    TestFacts(A, tr.cI, tr.cC, tr.cB, tr.L, test, tr.hole, names1);
    StepFacts(A, tr.cB, tr.cS, tr.step, step, F.s, names1);
    Flushed(A, c0, tr.cI, tin, OfDecls(init, false), names, frame, h0);
    var seg := Seg(|c0.code| - SizeAll(tin), tin, |tr.cI.code|, []);
    var at := if step.Some? then Stage(tr.step.popped.code, tr.step.popped.consts)
              else Stage(tr.cB.code, tr.cB.consts);
    ForCompiles(A, c1.code, c1.consts, Stage(tr.cI.code, tr.cI.consts), seg, init, h0, Stage(tr.cB.code, tr.cB.consts),
                tr.hole, test, at, step, Stage(tr.cT.code, tr.cT.consts), body, tr.h, F, K, |Declared(init, false)|,
                names, frame);
  }

  lemma ForSafe(init: Decls, test: Option<Expr>, step: Option<Expr>, body: Stmt, names: seq<Text>)
    ensures var inside := names + Declared(init, false);
            StmtSafe(For(init, test, step, body), names) <==>
              DeclsSafe(init, false, names) && (test.Some? ==> JoinSafe(test.value, inside))
              && (step.Some? ==> PopSafe(step.value, inside)) && StmtSafe(body, inside)
  {
    hide JoinSafe, PopSafe, DeclsSafe;
  }

  lemma DroppedTail(A: Arith, cQ: Chunk, c1: Chunk, n: nat, K: seq<Instr>)
    requires Dropped(A, cQ, c1, n, [], K) && cQ.tail == []
    ensures |c1.code| == |cQ.code| + SizeAll(K) && c1.code[..|cQ.code|] == cQ.code && ListAt(c1.code, |cQ.code|, K)
    ensures Pops(A, c1.consts, [], K, n) && c1.tail == [] && c1.consts == cQ.consts
  {
    hide EncodeAll, SizeAll, Pops;
    NoSize();
    DroppedList(A, cQ, c1, n, [], K);
    assert cQ.code[..|cQ.code|] == cQ.code;
  }

  /** The loop behind its initializer leaves what the initializer settled. */
  ghost predicate ForEnds(c0: Chunk, cI: Chunk, c1: Chunk, tin: seq<Instr>, h0: Holes) {
    && (tin == [] || tin == Pending(c0.tail)) && SizeAll(tin) <= |c0.code| && c0.consts <= cI.consts
    && var p := |c0.code| - SizeAll(tin);
    && p <= Settled(c1) == |c1.code| && c1.code[..p] == c0.code[..p] && Pending(c1.tail) == []
    && Within(h0.All(), p, |c1.code|) && Apart(h0.All())
  }

  lemma ForOuter(A: Arith, c0: Chunk, cI: Chunk, c1: Chunk, tin: seq<Instr>, init: Decls, names: seq<Text>, frame: Frame,
                 h0: Holes)
    requires Processed(A, c0, cI, tin, OfDecls(init, false), names, frame, h0) && EndsWith(cI.code, cI.tail)
    requires |c1.code| >= |cI.code| && c1.code[..|cI.code|] == cI.code && c1.tail == []
    ensures ForEnds(c0, cI, c1, tin, h0)
  {
    hide Compiles, EndsWith, SizeAll, Settled, Pending, Within, Apart, TrivialItem, SafeItem, NewNames;
    NoSize();
    ClearSettled(c1);
    var p := |c0.code| - SizeAll(tin);
    if Skipped(c0, cI, tin, OfDecls(init, false), h0) {
      NoneOpen(p, |c1.code|);
      assert c1.code[..p] == cI.code;
      assert c0.code[..p] == c0.code;
    } else {
      SettledEnd(cI);
      WithinWider(h0.All(), p, Settled(cI), p, |c1.code|);
      assert c1.code[..p] == c1.code[..|cI.code|][..p] == cI.code[..p];
    }
  }

  lemma ForBytes(codeB: seq<byte>, codeS: seq<byte>, codeT: seq<byte>, codeQ: seq<byte>, whole: seq<byte>, F: ForParts,
                 hole: int, breaks: seq<nat>)
    requires |codeB| == F.t && |codeS| == F.b && |codeT| == F.j && F.end == F.j + 3 && F.s <= F.t <= F.b <= F.j
    requires |codeQ| == F.end <= |whole| && whole[..F.end] == codeQ && codeS[..F.t] == codeB
    requires Within(HoleOf(hole), F.s, F.t)
    requires Extends(codeS, codeQ, 0, F.b, HoleOf(hole)) && Patched(codeQ, HoleOf(hole), F.end)
    requires Extends(codeT, codeQ, F.b, F.j, breaks) && Patched(codeQ, breaks, F.end) && Within(breaks, F.b, F.j)
    requires JumpAt(codeQ, F.j, F.i)
    ensures Extends(codeB, whole, F.s, F.t, HoleOf(hole)) && Patched(whole, HoleOf(hole), F.end)
    ensures Extends(codeT, whole, F.b, F.j, breaks) && Patched(whole, breaks, F.end)
    ensures JumpAt(whole, F.j, F.i)
  {
    hide JumpAt, JumpTo;
    forall p | 0 <= p < F.end ensures whole[p] == codeQ[p] { assert whole[..F.end][p] == codeQ[p]; }
    forall p | 0 <= p < F.t ensures codeS[p] == codeB[p] { assert codeS[..F.t][p] == codeB[p]; }
    assert Extends(codeQ, whole, 0, F.end, []);
    forall x | x in HoleOf(hole) ensures JumpTo(whole, x, F.end) { KeptJumpTo(codeQ, whole, 0, F.end, [], x, F.end); }
    forall x | x in breaks ensures JumpTo(whole, x, F.end) { KeptJumpTo(codeQ, whole, 0, F.end, [], x, F.end); }
    KeptJumpAt(codeQ, whole, 0, F.end, [], F.j, F.i);
  }

  lemma ForStepBytes(popped: seq<byte>, codeS: seq<byte>, codeQ: seq<byte>, whole: seq<byte>, F: ForParts, hole: int)
    requires |codeS| == F.b && F.t + 3 == F.i <= F.u && F.u + 3 == F.b <= F.end && F.s <= F.t
    requires |codeQ| == F.end <= |whole| && whole[..F.end] == codeQ
    requires Within(HoleOf(hole), F.s, F.t) && Extends(codeS, codeQ, 0, F.b, HoleOf(hole))
    requires JumpAt(codeS, F.t, F.b) && JumpAt(codeS, F.u, F.s) && Extends(popped, codeS, F.i, F.u, [])
    ensures JumpAt(whole, F.t, F.b) && JumpAt(whole, F.u, F.s) && Extends(popped, whole, F.i, F.u, [])
  {
    hide JumpAt;
    forall p | 0 <= p < F.end ensures whole[p] == codeQ[p] { assert whole[..F.end][p] == codeQ[p]; }
    assert Extends(codeS, whole, 0, F.b, HoleOf(hole));
    KeptJumpAt(codeS, whole, 0, F.b, HoleOf(hole), F.t, F.b);
    KeptJumpAt(codeS, whole, 0, F.b, HoleOf(hole), F.u, F.s);
  }
}
