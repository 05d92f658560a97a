/** How the 64-bit hash mixes: every step can be undone, so nothing that is fed in is lost. */
module Mixing {
  import opened Values
  import opened Hashing

  // ---- Words ----

  lemma {:induction false} ShiftLeftIs(x: Word, n: nat)
    ensures ShiftLeft(x, n) == x * Pow2(n)
  {
    if n > 0 {
      ShiftLeftIs(x, n - 1);
      assert 2 * (x * Pow2(n - 1)) == x * (2 * Pow2(n - 1));
    }
  }

  lemma {:induction false} ShiftRightIs(x: Word, n: nat)
    ensures ShiftRight(x, n) == x / Pow2(n)
    decreases n
  {
    if n > 0 {
      ShiftRightIs(x / 2, n - 1);
      HalfThen(x, Pow2(n - 1));
    }
  }

  lemma HalfThen(x: nat, p: nat)
    requires p > 0
    ensures x / 2 / p == x / (2 * p)
  {
    var q, r := x / (2 * p), x % (2 * p);
    assert x == 2 * p * q + r;
    assert x / 2 == p * q + r / 2 by { assert 2 * p * q == 2 * (p * q); }
    Divided(x / 2, p, q, r / 2);
  }

  lemma Divided(x: nat, p: nat, q: nat, r: nat)
    requires p > 0 && x == p * q + r && r < p
    ensures x / p == q && x % p == r
  {
    var d: int := (x / p) as int - q as int;
    assert p * d == r - x % p by { assert p * (x / p) + x % p == x; }
    Multiple(p, d);
  }

  lemma Multiple(p: int, d: int)
    requires p > 0
    ensures d != 0 ==> p * d >= p || p * d <= -p
  {
    if d > 0 { assert p * (d - 1) >= 0; } else if d < 0 { assert p * (-d - 1) >= 0; }
  }

  lemma TimesMore(p: nat, a: nat, b: nat)
    ensures a >= b ==> p * a >= p * b
  {
  }

  lemma {:induction false} PowAdds(m: nat, n: nat)
    ensures Pow2(m + n) == Pow2(m) * Pow2(n)
    decreases n
  {
    if n > 0 { PowAdds(m, n - 1); }
  }

  lemma Pow64()
    ensures Pow2(64) == TWO_TO_THE_64
  {
    assert Pow2(8) == 0x100;
    PowAdds(8, 8);
    PowAdds(16, 16);
    PowAdds(32, 32);
  }

  lemma {:induction false} XorFits(x: Word, y: Word, n: nat)
    requires x < Pow2(n) && y < Pow2(n)
    ensures Xor(x, y) < Pow2(n)
    decreases n
  {
    if n > 0 && x > 0 && y > 0 { XorFits(x / 2, y / 2, n - 1); }
  }

  lemma XorWord(x: Word, y: Word)
    requires x < TWO_TO_THE_64 && y < TWO_TO_THE_64
    ensures Xor(x, y) < TWO_TO_THE_64
  {
    hide Xor, Pow2;
    Pow64();
    XorFits(x, y, 64);
  }

  lemma {:induction false} XorSelf(x: Word)
    ensures Xor(x, x) == 0
    decreases x
  {
    if x > 0 { XorSelf(x / 2); }
  }

  /** Exclusive or is its own inverse. */
  lemma XorUndone(x: Word, y: Word)
    ensures Xor(x, Xor(x, y)) == y && Xor(Xor(y, x), x) == y
  {
    hide Xor;
    XorSelf(x);
    XorAssociates(x, x, y);
    XorAssociates(y, x, x);
    XorZero(y);
  }

  lemma {:induction false} ShiftXor(x: Word, y: Word, n: nat)
    ensures ShiftRight(Xor(x, y), n) == Xor(ShiftRight(x, n), ShiftRight(y, n))
    decreases n
  {
    hide Xor;
    if n > 0 {
      XorParts(x, y);
      ShiftXor(x / 2, y / 2, n - 1);
    }
  }

  // ---- The steps of the hash ----

  /** The word xor its upper 31 bits: the same step takes it back. */
  function Fold(k: Word): Word {
    Xor(k, ShiftRight(k, 33))
  }

  lemma FoldUndone(k: Word)
    requires k < TWO_TO_THE_64
    ensures Fold(Fold(k)) == k && Fold(k) < TWO_TO_THE_64
  {
    hide Xor, ShiftRight, Pow2;
    var h := ShiftRight(k, 33);
    ShiftRightIs(k, 33);
    ShiftRightIs(h, 33);
    Pow64();
    PowAdds(33, 31);
    PowMore(31, 2);
    assert Pow2(33) * Pow2(31) == Pow2(64);
    Below(k, Pow2(33), Pow2(31));
    assert ShiftRight(h, 33) == 0 by { assert h < Pow2(33); SmallDivided(h, Pow2(33)); }
    ShiftXor(k, h, 33);
    XorZero(h);
    XorUndone(h, k);
    PowMore(31, 33);
    XorWord(k, h);
  }

  lemma PowMore(m: nat, n: nat)
    ensures Pow2(m) <= Pow2(m + n)
  {
    PowAdds(m, n);
    assert Pow2(n) >= 1;
    assert Pow2(m) * Pow2(n) >= Pow2(m) * 1;
  }

  lemma Below(x: nat, p: nat, q: nat)
    requires p > 0 && x < p * q
    ensures x / p < q
  {
    TimesMore(p, x / p, q);
  }

  lemma SmallDivided(x: nat, p: nat)
    requires x < p
    ensures x / p == 0
  {
  }

  lemma ModTimes(x: nat, m: nat, w: nat)
    requires w > 0
    ensures (x % w) * m % w == x * m % w
  {
    var q := x / w;
    assert x == w * q + x % w;
    assert x * m == w * (q * m) + (x % w) * m by {
      assert (w * q + x % w) * m == w * q * m + (x % w) * m;
      assert w * q * m == w * (q * m);
    }
    AddMultiple((x % w) * m, q * m, w);
  }

  lemma {:induction false} AddMultiple(a: nat, n: nat, w: nat)
    requires w > 0
    ensures (w * n + a) % w == a % w
    decreases n
  {
    var q, r := a / w, a % w;
    assert w * n + a == w * (n + q) + r by { assert w * (n + q) == w * n + w * q; }
    Divided(w * n + a, w, n + q, r);
  }

  /** Multiplication by m is undone by multiplication by its inverse. */
  lemma TimesUndone(k: Word, m: nat, inverse: nat)
    requires k < TWO_TO_THE_64 && m * inverse % TWO_TO_THE_64 == 1
    ensures Wrap(Wrap(k * m) * inverse) == k
  {
    ModTimes(k * m, inverse, TWO_TO_THE_64);
    assert k * m * inverse == m * inverse * k;
    ModTimes(m * inverse, k, TWO_TO_THE_64);
    assert 1 * k % TWO_TO_THE_64 == k;
  }

  /** The rotation by r bits: the upper r bits become the lower ones. */
  lemma RotateIs(x: Word, r: nat)
    requires x < TWO_TO_THE_64 && 0 < r < 64
    ensures RotateLeft(x, r) == x % Pow2(64 - r) * Pow2(r) + x / Pow2(64 - r)
    ensures x / Pow2(64 - r) < Pow2(r)
  {
    hide Or, Xor, Pow2, ShiftLeft, ShiftRight;
    var p, q := Pow2(64 - r), Pow2(r);
    var high, low := x / p, x % p;
    Pow64();
    PowAdds(64 - r, r);
    Below(x, p, q);
    ShiftLeftIs(x, r);
    ShiftRightIs(x, 64 - r);
    RotatedOut(x, p, q);
    ShiftLeftIs(low, r);
    ApartAdds(high, low, r);
    OrCommutes(high, ShiftLeft(low, r));
  }

  lemma RotatedOut(x: nat, p: nat, q: nat)
    requires p > 0 && q > 0 && p * q == TWO_TO_THE_64
    ensures Wrap(x * q) == x % p * q
  {
    var high, low := x / p, x % p;
    assert x == p * high + low;
    assert x * q == TWO_TO_THE_64 * high + low * q by {
      assert (p * high + low) * q == p * high * q + low * q;
      assert p * high * q == p * q * high;
    }
    AddMultiple(low * q, high, TWO_TO_THE_64);
    assert low * q < p * q by { assert (p - low) * q >= 1 * q; }
  }

  lemma {:induction false} OrCommutes(x: Word, y: Word)
    ensures Or(x, y) == Or(y, x)
    decreases x + y
  {
    if x > 0 && y > 0 { OrCommutes(x / 2, y / 2); }
  }

  lemma RotateApart(x: Word, y: Word, r: nat)
    requires x < TWO_TO_THE_64 && y < TWO_TO_THE_64 && 0 < r < 64 && RotateLeft(x, r) == RotateLeft(y, r)
    ensures x == y
  {
    hide RotateLeft, Pow2;
    RotateIs(x, r);
    RotateIs(y, r);
    var p := Pow2(64 - r);
    PartsApart(x / p, x % p, y / p, y % p, Pow2(r));
    Rejoined(x, y, p);
  }

  lemma PartsApart(a: nat, b: nat, c: nat, d: nat, q: nat)
    requires a < q && c < q && b * q + a == d * q + c
    ensures a == c && b == d
  {
    Divided(b * q + a, q, b, a);
    Divided(b * q + a, q, d, c);
  }

  lemma Rejoined(x: nat, y: nat, p: nat)
    requires p > 0 && x / p == y / p && x % p == y % p
    ensures x == y
  {
    assert x == p * (x / p) + x % p && y == p * (y / p) + y % p;
  }

  lemma RotateFits(x: Word, r: nat)
    requires x < TWO_TO_THE_64 && 0 < r < 64
    ensures RotateLeft(x, r) < TWO_TO_THE_64
  {
    hide RotateLeft, Pow2;
    var p, q := Pow2(64 - r), Pow2(r);
    RotateIs(x, r);
    Pow64();
    PowAdds(64 - r, r);
    assert x % p * q + q <= p * q by { assert (x % p + 1) * q <= p * q; }
  }

  // ---- Nothing is lost ----

  /** The finish is a permutation of the words: no two come to the same. */
  lemma FmixApart(x: Word, y: Word)
    requires x < TWO_TO_THE_64 && y < TWO_TO_THE_64 && Fmix(x) == Fmix(y)
    ensures x == y
  {
    hide Xor, ShiftRight, Wrap;
    FmixUndone(x);
    FmixUndone(y);
  }

  /** What takes it back. */
  function Unfmix(k: Word): Word {
    Fold(Wrap(Fold(Wrap(Fold(k) * 0x9cb4b2f8129337db)) * 0x4f74430c22a54005))
  }

  lemma FmixUndone(k: Word)
    requires k < TWO_TO_THE_64
    ensures Unfmix(Fmix(k)) == k
  {
    hide Xor, ShiftRight, Fold;
    FmixFolds(k);
    var a := Fold(k);
    FoldUndone(k);
    var k1 := Wrap(a * 0xff51afd7ed558ccd);
    FoldUndone(k1);
    var b := Fold(k1);
    var k2 := Wrap(b * 0xc4ceb9fe1a85ec53);
    FoldUndone(k2);
    TimesUndone(b, 0xc4ceb9fe1a85ec53, 0x9cb4b2f8129337db);
    TimesUndone(a, 0xff51afd7ed558ccd, 0x4f74430c22a54005);
  }

  lemma FmixFolds(k: Word)
    ensures Fmix(k) == Fold(Wrap(Fold(Wrap(Fold(k) * 0xff51afd7ed558ccd)) * 0xc4ceb9fe1a85ec53))
  {
    hide Xor, ShiftRight, Wrap;
  }

  lemma MixIs(k: Word)
    ensures Mix(k) == Wrap(RotateLeft(Wrap(k * 0x87c37b91114253d5), 31) * 0x4cf5ad432745937f)
    ensures Wrap(k * 0x87c37b91114253d5) < TWO_TO_THE_64
  {
    hide RotateLeft;
  }

  /** So is the mixing of a block. */
  lemma MixApart(x: Word, y: Word)
    requires x < TWO_TO_THE_64 && y < TWO_TO_THE_64 && Mix(x) == Mix(y)
    ensures x == y
  {
    hide RotateLeft, Wrap, Mix;
    MixIs(x);
    MixIs(y);
    var a, b := Wrap(x * 0x87c37b91114253d5), Wrap(y * 0x87c37b91114253d5);
    RotateFits(a, 31);
    RotateFits(b, 31);
    TimesUndone(RotateLeft(a, 31), 0x4cf5ad432745937f, 0xa81e14edd9de2c7f);
    TimesUndone(RotateLeft(b, 31), 0x4cf5ad432745937f, 0xa81e14edd9de2c7f);
    RotateApart(a, b, 31);
    TimesUndone(x, 0x87c37b91114253d5, 0xa98409e882ce4d7d);
    TimesUndone(y, 0x87c37b91114253d5, 0xa98409e882ce4d7d);
  }

  lemma MixFits(k: Word)
    ensures Mix(k) < TWO_TO_THE_64
  {
    hide RotateLeft;
  }

  lemma StepApart(a: Word, b: Word)
    requires a < TWO_TO_THE_64 && b < TWO_TO_THE_64 && Wrap(a * 5 + 0x52dce729) == Wrap(b * 5 + 0x52dce729)
    ensures a == b
  {
  }

  /** A round keeps apart different states, and different blocks. */
  lemma RoundApart(h: Word, k: Word, g: Word, j: Word)
    requires h < TWO_TO_THE_64 && k < TWO_TO_THE_64 && g < TWO_TO_THE_64 && j < TWO_TO_THE_64
    requires Round(h, k) == Round(g, j) && (h == g || k == j)
    ensures h == g && k == j
  {
    hide RotateLeft, Xor, Mix, Wrap;
    MixFits(k);
    MixFits(j);
    XorWord(h, Mix(k));
    XorWord(g, Mix(j));
    RotateFits(Xor(h, Mix(k)), 27);
    RotateFits(Xor(g, Mix(j)), 27);
    StepApart(RotateLeft(Xor(h, Mix(k)), 27), RotateLeft(Xor(g, Mix(j)), 27));
    RotateApart(Xor(h, Mix(k)), Xor(g, Mix(j)), 27);
    if k == j {
      XorUndone(Mix(k), h);
      XorUndone(Mix(k), g);
    } else {
      XorUndone(h, Mix(k));
      XorUndone(h, Mix(j));
      MixApart(k, j);
    }
  }

  lemma RoundFits(h: Word, k: Word)
    ensures Round(h, k) < TWO_TO_THE_64
  {
    hide RotateLeft, Xor, Mix;
  }

  // ---- Texts ----

  lemma LastAdds(s: Text)
    requires 0 < |s| <= 8
    ensures var n := |s| - 1;
      && LittleEndian(s) == LittleEndian(s[..n]) + s[n] * Pow2(8 * n) && LittleEndian(s[..n]) < Pow2(8 * n)
      && LittleEndian(s) < Pow2(8 * |s|)
  {
    hide Or, Xor, Pow2, ShiftLeft;
    var n := |s| - 1;
    LittleEndianFits(s[..n]);
    PlaceAdds(LittleEndian(s[..n]), s[n], n);
    ApartAdds(LittleEndian(s[..n]), s[n], 8 * n);
    ShiftLeftIs(s[n], 8 * n);
  }

  /** Different bytes make a different word. */
  lemma {:induction false} WordsApart(s: Text, t: Text)
    requires |s| == |t| <= 8 && LittleEndian(s) == LittleEndian(t)
    ensures s == t
  {
    hide LittleEndian, Pow2;
    if s != [] {
      var n := |s| - 1;
      LastAdds(s);
      LastAdds(t);
      var p := Pow2(8 * n);
      Divided(LittleEndian(s), p, s[n] as nat, LittleEndian(s[..n]));
      Divided(LittleEndian(t), p, t[n] as nat, LittleEndian(t[..n]));
      WordsApart(s[..n], t[..n]);
      assert s == s[..n] + [s[n]] && t == t[..n] + [t[n]];
    }
  }

  lemma WordFits(s: Text)
    requires |s| <= 8
    ensures LittleEndian(s) < TWO_TO_THE_64
  {
    hide Pow2, LittleEndian;
    Pow64();
    if s == [] { EmptyWord(); } else {
      LastAdds(s);
      PowMore(8 * |s|, 64 - 8 * |s|);
    }
  }

  lemma EmptyWord()
    ensures LittleEndian([]) == 0
  {
  }

  lemma {:induction false} RolledFits(total: Word, key: Text, n: nat)
    requires 8 * n <= |key| && total < TWO_TO_THE_64
    ensures Rolled(total, key, n) < TWO_TO_THE_64
  {
    hide Round, Xor, LittleEndian;
    if n == 0 { XorWord(SEED, total); } else { RoundFits(Rolled(total, key, n - 1), Block(key, n - 1)); }
  }

  /** Once the states differ, equal blocks keep them different. */
  lemma {:induction false} RolledApart(total: Word, a: Text, b: Text, i: nat, n: nat)
    requires total < TWO_TO_THE_64 && |a| == |b| && i <= n && 8 * n <= |a| && a[8 * i..] == b[8 * i..]
    requires Rolled(total, a, i) != Rolled(total, b, i)
    ensures Rolled(total, a, n) != Rolled(total, b, n)
    decreases n
  {
    hide Round, LittleEndian, Xor;
    if i < n {
      RolledApart(total, a, b, i, n - 1);
      var m := n - 1;
      assert a[8 * m..8 * m + 8] == a[8 * i..][8 * (m - i)..8 * (m - i) + 8] == b[8 * m..8 * m + 8];
      RolledFits(total, a, m);
      RolledFits(total, b, m);
      WordFits(a[8 * m..8 * m + 8]);
      if Rolled(total, a, n) == Rolled(total, b, n) {
        RoundApart(Rolled(total, a, m), Block(a, m), Rolled(total, b, m), Block(b, m));
      }
    }
  }

  lemma {:induction false} RolledSame(total: Word, a: Text, b: Text, n: nat)
    requires 8 * n <= |a| && 8 * n <= |b| && a[..8 * n] == b[..8 * n]
    ensures Rolled(total, a, n) == Rolled(total, b, n)
  {
    hide Round, LittleEndian, Xor;
    if n > 0 {
      assert a[..8 * n][..8 * (n - 1)] == a[..8 * (n - 1)] && b[..8 * n][..8 * (n - 1)] == b[..8 * (n - 1)];
      assert a[8 * (n - 1)..8 * n] == a[..8 * n][8 * (n - 1)..] == b[8 * (n - 1)..8 * n];
      RolledSame(total, a, b, n - 1);
    }
  }

  /** What is mixed in last. */
  function Ended(h: Word, tail: Text, total: Word): Word
    requires |tail| <= 7
  {
    Xor(if tail == [] then h else Xor(h, Mix(LittleEndian(tail))), total)
  }

  lemma EndedApart(h: Word, s: Text, g: Word, t: Text, total: Word)
    requires h < TWO_TO_THE_64 && g < TWO_TO_THE_64 && total < TWO_TO_THE_64 && |s| == |t| <= 7
    requires (h == g && s != t) || (h != g && s == t)
    ensures Fmix(Ended(h, s, total)) != Fmix(Ended(g, t, total))
  {
    hide Xor, Mix, Fmix, LittleEndian;
    var a := if s == [] then h else Xor(h, Mix(LittleEndian(s)));
    var b := if t == [] then g else Xor(g, Mix(LittleEndian(t)));
    WordFits(s);
    WordFits(t);
    MixFits(LittleEndian(s));
    MixFits(LittleEndian(t));
    XorWord(h, Mix(LittleEndian(s)));
    XorWord(g, Mix(LittleEndian(t)));
    XorWord(a, total);
    XorWord(b, total);
    XorUndone(total, a);
    XorUndone(total, b);
    XorUndone(Mix(LittleEndian(s)), h);
    XorUndone(Mix(LittleEndian(t)), g);
    XorUndone(h, Mix(LittleEndian(s)));
    XorUndone(g, Mix(LittleEndian(t)));
    if a == b && s != [] {
      if h == g {
        MixApart(LittleEndian(s), LittleEndian(t));
        WordsApart(s, t);
      }
    }
    if Fmix(Xor(a, total)) == Fmix(Xor(b, total)) { FmixApart(Xor(a, total), Xor(b, total)); }
  }

  lemma MurmurEnds(key: Text)
    ensures Murmur(key) == Fmix(Ended(Rolled(Wrap(|key|), key, |key| / 8), Tail(key), Wrap(|key|)))
  {
    hide Xor, Mix, Fmix, LittleEndian, Rolled;
  }

  /** Two texts of one length that differ in one block of eight bytes, or only behind the last block, never share a hash. */
  lemma OneBlockApart(a: Text, b: Text, i: nat)
    requires |a| == |b| && i <= |a| / 8 && a != b && a[..8 * i] == b[..8 * i]
    requires i < |a| / 8 ==> a[8 * i + 8..] == b[8 * i + 8..]
    ensures Murmur(a) != Murmur(b)
  {
    hide Murmur, Rolled, Fmix, Ended, LittleEndian;
    var n, total := |a| / 8, Wrap(|a|);
    MurmurEnds(a);
    MurmurEnds(b);
    RolledFits(total, a, n);
    RolledFits(total, b, n);
    if i < n {
      BlockApart(total, a, b, i);
      RolledApart(total, a, b, i + 1, n);
      assert Tail(a) == a[8 * i + 8..][8 * (n - i - 1)..] && Tail(b) == b[8 * i + 8..][8 * (n - i - 1)..];
    } else {
      RolledSame(total, a, b, n);
      assert a == a[..8 * n] + Tail(a) && b == b[..8 * n] + Tail(b);
    }
    EndedApart(Rolled(total, a, n), Tail(a), Rolled(total, b, n), Tail(b), total);
  }

  lemma BlockApart(total: Word, a: Text, b: Text, i: nat)
    requires total < TWO_TO_THE_64 && |a| == |b| && i < |a| / 8 && a != b && a[..8 * i] == b[..8 * i]
    requires a[8 * i + 8..] == b[8 * i + 8..]
    ensures Rolled(total, a, i + 1) != Rolled(total, b, i + 1)
  {
    hide Round, LittleEndian, Xor;
    RolledSame(total, a, b, i);
    RolledFits(total, a, i);
    var s, t := a[8 * i..8 * i + 8], b[8 * i..8 * i + 8];
    assert a == a[..8 * i] + s + a[8 * i + 8..] && b == b[..8 * i] + t + b[8 * i + 8..];
    WordFits(s);
    WordFits(t);
    if LittleEndian(s) == LittleEndian(t) { WordsApart(s, t); }
    if Rolled(total, a, i + 1) == Rolled(total, b, i + 1) {
      RoundApart(Rolled(total, a, i), LittleEndian(s), Rolled(total, b, i), LittleEndian(t));
    }
  }
}
