/** Lox values, the arithmetic they carry, and the operators shared by the source language
    (evaluated on trees) and the virtual machine (evaluated on a stack). */
module Values {
  import opened Types

  /** Text is compared byte by byte, as memcmp does. */
  type Text = seq<byte>

  /** A number is the 64-bit pattern that a NaN-boxed double occupies; `==` on it is bit identity. */
  type Num = bits: int | 0 <= bits < 0x1_0000_0000_0000_0000

  datatype Value = Nil | Bool(b: bool) | Number(n: Num) | Str(s: Text) | Object(id: nat)

  /** The double arithmetic the interpreter is compiled with.  Every theorem quantifies over it, so it
      holds for each rounding mode, and for NaN operands in particular: `eq` need not be reflexive and
      `lt` and `le` need not be total.  "Greater" is "less" with its operands exchanged, and equality is
      symmetric, as section 5.11 of IEEE 754-2019 has it. */
  datatype Arithmetic = Arithmetic(
    add: (Num, Num) -> Num,
    sub: (Num, Num) -> Num,
    mul: (Num, Num) -> Num,
    div: (Num, Num) -> Num,
    fmod: (Num, Num) -> Num,
    neg: Num -> Num,
    eq: (Num, Num) -> bool,
    lt: (Num, Num) -> bool,
    le: (Num, Num) -> bool)

  ghost predicate SymmetricEq(A: Arithmetic) {
    forall x: Num, y: Num :: A.eq(x, y) == A.eq(y, x)
  }

  type Arith = A: Arithmetic | SymmetricEq(A)
    witness Arithmetic((x, y) => x, (x, y) => x, (x, y) => x, (x, y) => x, (x, y) => x, x => x,
                       (x, y) => false, (x, y) => false, (x, y) => false)

  datatype BinOp = Add | Sub | Mul | Div | Mod | Eq | Gt | Lt | Ne | Le | Ge

  datatype UnOp = Not | Negate

  predicate Falsey(v: Value) {
    v == Nil || v == Bool(false)
  }

  predicate ValuesEqual(A: Arith, a: Value, b: Value) {
    if a.Number? && b.Number? then A.eq(a.n, b.n) else a == b
  }

  /** memcmp over the first n bytes: the difference at the first position where the texts differ. */
  function MemCmp(a: Text, b: Text, n: nat): int
    requires n <= |a| && n <= |b|
    decreases n
  {
    if n == 0 then 0
    else if a[0] != b[0] then a[0] - b[0]
    else MemCmp(a[1..], b[1..], n - 1)
  }

  function CompareTexts(a: Text, b: Text): int {
    var common := if |a| < |b| then |a| else |b|;
    var c := MemCmp(a, b, common);
    if c != 0 then c
    else if |a| < |b| then -1
    else if |a| > |b| then 1
    else 0
  }

  /** At position i the texts differ for the first time. */
  predicate FirstDifference(a: Text, b: Text, i: nat) {
    i < |a| && i < |b| && a[i] != b[i] && forall j :: 0 <= j < i ==> a[j] == b[j]
  }

  predicate ProperPrefix(a: Text, b: Text) {
    |a| < |b| && b[..|a|] == a
  }

  /** The text a comes before b: it is a proper prefix, or has the smaller byte where they first differ. */
  ghost predicate Precedes(a: Text, b: Text) {
    ProperPrefix(a, b) || exists i: nat :: FirstDifference(a, b, i) && a[i] < b[i]
  }

  lemma {:induction false} MemCmpFirst(a: Text, b: Text, n: nat)
    requires n <= |a| && n <= |b|
    ensures MemCmp(a, b, n) == 0 ==> a[..n] == b[..n]
    ensures MemCmp(a, b, n) != 0 ==>
              exists i: nat :: i < n && FirstDifference(a, b, i) && MemCmp(a, b, n) == a[i] as int - b[i] as int
    decreases n
  {
    if n > 0 {
      if a[0] != b[0] {
        assert FirstDifference(a, b, 0);
      } else {
        MemCmpFirst(a[1..], b[1..], n - 1);
        if MemCmp(a, b, n) == 0 {
          assert a[..n] == [a[0]] + a[1..][..n - 1] && b[..n] == [b[0]] + b[1..][..n - 1];
        } else {
          var i: nat :| i < n - 1 && FirstDifference(a[1..], b[1..], i) &&
                        MemCmp(a[1..], b[1..], n - 1) == a[1..][i] as int - b[1..][i] as int;
          forall j | 0 <= j < i + 1 ensures a[j] == b[j] {
            if j > 0 { assert a[1..][j - 1] == b[1..][j - 1]; }
          }
          assert FirstDifference(a, b, i + 1);
        }
      }
    }
  }

  lemma NoPrefix(a: Text, b: Text, i: nat)
    requires FirstDifference(a, b, i)
    ensures !ProperPrefix(a, b) && !ProperPrefix(b, a) && a != b
    ensures forall j: nat :: FirstDifference(a, b, j) || FirstDifference(b, a, j) ==> j == i
  {
    assert |a| < |b| ==> b[..|a|][i] == b[i];
    assert |b| < |a| ==> a[..|b|][i] == a[i];
  }

  lemma NoDifference(a: Text, b: Text, n: nat)
    requires n <= |a| && n <= |b| && (n == |a| || n == |b|) && a[..n] == b[..n]
    ensures forall j: nat :: !FirstDifference(a, b, j) && !FirstDifference(b, a, j)
    ensures a == b <==> |a| == |b|
  {
    forall j | 0 <= j < n ensures a[j] == b[j] { assert a[..n][j] == b[..n][j]; }
  }

  /** Texts are compared in dictionary order of their bytes. */
  lemma TextOrder(a: Text, b: Text)
    ensures CompareTexts(a, b) < 0 <==> Precedes(a, b)
    ensures CompareTexts(a, b) > 0 <==> Precedes(b, a)
    ensures CompareTexts(a, b) == 0 <==> a == b
  {
    var n := if |a| < |b| then |a| else |b|;
    MemCmpFirst(a, b, n);
    if MemCmp(a, b, n) != 0 {
      var i: nat :| i < n && FirstDifference(a, b, i) && MemCmp(a, b, n) == a[i] as int - b[i] as int;
      assert FirstDifference(b, a, i);
      NoPrefix(a, b, i);
    } else {
      NoDifference(a, b, n);
      assert a[..|a|] == a && b[..|b|] == b;
    }
  }

  function Ordered(A: Arith, op: BinOp, x: Num, y: Num): bool
    requires op.Lt? || op.Le? || op.Gt? || op.Ge?
  {
    match op
    case Lt => A.lt(x, y)
    case Le => A.le(x, y)
    case Gt => A.lt(y, x)
    case Ge => A.le(y, x)
  }

  function OrderedSign(op: BinOp, c: int): bool
    requires op.Lt? || op.Le? || op.Gt? || op.Ge?
  {
    match op
    case Lt => c < 0
    case Le => c <= 0
    case Gt => c > 0
    case Ge => c >= 0
  }

  function Calc(A: Arith, op: BinOp, x: Num, y: Num): Num
    requires op.Add? || op.Sub? || op.Mul? || op.Div? || op.Mod?
  {
    match op
    case Add => A.add(x, y)
    case Sub => A.sub(x, y)
    case Mul => A.mul(x, y)
    case Div => A.div(x, y)
    case Mod => A.fmod(x, y)
  }

  predicate IsComparison(op: BinOp) {
    op.Eq? || op.Ne? || op.Lt? || op.Le? || op.Gt? || op.Ge?
  }

  /** The value of a binary operator, or None where the machine raises a runtime error. */
  function Apply(A: Arith, op: BinOp, a: Value, b: Value): Option<Value> {
    match op
    case Eq => Some(Bool(ValuesEqual(A, a, b)))
    case Ne => Some(Bool(!ValuesEqual(A, a, b)))
    case Lt | Le | Gt | Ge =>
      if a.Number? && b.Number? then Some(Bool(Ordered(A, op, a.n, b.n)))
      else if a.Str? && b.Str? then Some(Bool(OrderedSign(op, CompareTexts(a.s, b.s))))
      else None
    case Add =>
      if a.Number? && b.Number? then Some(Number(A.add(a.n, b.n)))
      else if a.Str? && b.Str? then Some(Str(a.s + b.s))
      else None
    case Sub | Mul | Div | Mod =>
      if a.Number? && b.Number? then Some(Number(Calc(A, op, a.n, b.n))) else None
  }

  function ApplyUnary(A: Arith, op: UnOp, a: Value): Option<Value> {
    match op
    case Not => Some(Bool(Falsey(a)))
    case Negate => if a.Number? then Some(Number(A.neg(a.n))) else None
  }

  // ---- What the operators mean ----

  /** Numbers stand for reals; on these two the arithmetic is exact. */
  predicate Exact(A: Arith, val: Num -> real, x: Num, y: Num) {
    && val(A.add(x, y)) == val(x) + val(y) && val(A.sub(x, y)) == val(x) - val(y)
    && val(A.mul(x, y)) == val(x) * val(y) && (val(y) != 0.0 ==> val(A.div(x, y)) == val(x) / val(y))
    && val(A.neg(x)) == -val(x)
  }

  /** And they are compared as these reals are. */
  predicate Ranked(A: Arith, val: Num -> real, x: Num, y: Num) {
    && (A.lt(x, y) <==> val(x) < val(y)) && (A.lt(y, x) <==> val(y) < val(x))
    && (A.le(x, y) <==> val(x) <= val(y)) && (A.le(y, x) <==> val(y) <= val(x)) && (A.eq(x, y) <==> val(x) == val(y))
  }

  predicate Gives(r: Option<Value>, val: Num -> real, x: real) {
    r.Some? && r.value.Number? && val(r.value.n) == x
  }

  predicate Tells(r: Option<Value>, b: bool) {
    r == Some(Bool(b))
  }

  /** Operators on numbers, where the arithmetic is exact. */
  lemma NumbersMean(A: Arith, val: Num -> real, x: Num, y: Num)
    requires Exact(A, val, x, y)
    ensures Gives(Apply(A, Add, Number(x), Number(y)), val, val(x) + val(y))
    ensures Gives(Apply(A, Sub, Number(x), Number(y)), val, val(x) - val(y))
    ensures Gives(Apply(A, Mul, Number(x), Number(y)), val, val(x) * val(y))
    ensures val(y) != 0.0 ==> Gives(Apply(A, Div, Number(x), Number(y)), val, val(x) / val(y))
    ensures Gives(ApplyUnary(A, Negate, Number(x)), val, -val(x))
    ensures Apply(A, Mod, Number(x), Number(y)) == Some(Number(A.fmod(x, y)))
  {
  }

  lemma OrderMeans(A: Arith, val: Num -> real, x: Num, y: Num)
    requires Ranked(A, val, x, y)
    ensures Tells(Apply(A, Lt, Number(x), Number(y)), val(x) < val(y))
    ensures Tells(Apply(A, Le, Number(x), Number(y)), val(x) <= val(y))
    ensures Tells(Apply(A, Gt, Number(x), Number(y)), val(x) > val(y))
    ensures Tells(Apply(A, Ge, Number(x), Number(y)), val(x) >= val(y))
    ensures Tells(Apply(A, Eq, Number(x), Number(y)), val(x) == val(y))
    ensures Tells(Apply(A, Ne, Number(x), Number(y)), val(x) != val(y))
  {
  }

  /** Operators on texts: + joins them, and comparisons go by dictionary order. */
  lemma TextsMean(A: Arith, a: Text, b: Text)
    ensures Apply(A, Add, Str(a), Str(b)) == Some(Str(a + b))
    ensures Tells(Apply(A, Lt, Str(a), Str(b)), Precedes(a, b)) && Tells(Apply(A, Gt, Str(a), Str(b)), Precedes(b, a))
    ensures Tells(Apply(A, Le, Str(a), Str(b)), Precedes(a, b) || a == b)
    ensures Tells(Apply(A, Ge, Str(a), Str(b)), Precedes(b, a) || a == b)
    ensures Tells(Apply(A, Eq, Str(a), Str(b)), a == b) && Tells(Apply(A, Ne, Str(a), Str(b)), a != b)
  {
    hide CompareTexts, Precedes;
    TextOrder(a, b);
  }

  /** On other operands all operators but equality fail; values of two kinds are different. */
  lemma OthersMean(A: Arith, op: BinOp, a: Value, b: Value)
    requires !(a.Number? && b.Number?) && !(a.Str? && b.Str?)
    ensures op.Eq? || op.Ne? <==> Apply(A, op, a, b).Some?
    ensures op.Eq? ==> Tells(Apply(A, op, a, b), a == b)
    ensures op.Ne? ==> Tells(Apply(A, op, a, b), a != b)
  {
  }

  /** Nil and false are false, everything else is true. */
  lemma TruthMeans(A: Arith, v: Value)
    ensures ApplyUnary(A, Not, v) == Some(Bool(match v case Nil => true case Bool(b) => !b case _ => false))
  {
  }

  /** Which operators give truth values. */
  lemma BinaryKind(A: Arith, op: BinOp, a: Value, b: Value)
    requires Apply(A, op, a, b).Some?
    ensures var v := Apply(A, op, a, b).value; if IsComparison(op) then v.Bool? else v.Number? || v.Str?
  {
  }

  lemma UnaryKind(A: Arith, op: UnOp, a: Value)
    requires ApplyUnary(A, op, a).Some?
    ensures var v := ApplyUnary(A, op, a).value; if op.Not? then v.Bool? else v.Number?
  {
  }

  // ---- Exchanging the operands of a comparison ----

  /** The comparison that holds of (b, a) exactly when op holds of (a, b). */
  function Mirror(op: BinOp): BinOp
    requires IsComparison(op)
  {
    match op
    case Lt => Gt
    case Le => Ge
    case Gt => Lt
    case Ge => Le
    case Eq => Eq
    case Ne => Ne
  }

  lemma {:induction false} MemCmpMirror(a: Text, b: Text, n: nat)
    requires n <= |a| && n <= |b|
    ensures MemCmp(a, b, n) == -MemCmp(b, a, n)
    ensures MemCmp(a, b, n) == 0 <==> a[..n] == b[..n]
    decreases n
  {
    if n > 0 {
      var c, d := a[1..][..n - 1], b[1..][..n - 1];
      assert a[..n] == [a[0]] + c && b[..n] == [b[0]] + d;
      if a[0] == b[0] {
        MemCmpMirror(a[1..], b[1..], n - 1);
        assert a[..n][1..] == c && b[..n][1..] == d;
      } else {
        assert a[..n][0] != b[..n][0];
      }
    }
  }

  lemma CompareTextsMirror(a: Text, b: Text)
    ensures CompareTexts(a, b) == -CompareTexts(b, a)
    ensures CompareTexts(a, b) == 0 <==> a == b
  {
    var common := if |a| < |b| then |a| else |b|;
    MemCmpMirror(a, b, common);
    if |a| == |b| {
      assert a[..common] == a && b[..common] == b;
    }
  }

  /** Comparing with exchanged operands gives the same answer, for numbers (NaN included) and for text,
      and raises the same errors. */
  lemma ApplyMirror(A: Arith, op: BinOp, a: Value, b: Value)
    requires IsComparison(op)
    ensures Apply(A, op, a, b) == Apply(A, Mirror(op), b, a)
  {
    if a.Str? && b.Str? {
      CompareTextsMirror(a.s, b.s);
    } else if a.Number? && b.Number? {
      assert SymmetricEq(A);
    }
  }
}
