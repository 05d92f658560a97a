/** The 64-bit Murmur hash of a byte string: all at once, and fed in pieces. */
module Hashing {
  import opened Types
  import opened Values

  /** A 64-bit machine word. */
  type Word = nat

  const TWO_TO_THE_64: nat := 0x1_0000_0000_0000_0000
  const SEED: Word := 0x9368e53c2f6af274

  // ---- Bits ----

  function Pow2(n: nat): (p: nat)
    ensures p > 0
  {
    if n == 0 then 1 else 2 * Pow2(n - 1)
  }

  /** What is left of a result in 64 bits. */
  function Wrap(x: nat): Word {
    x % TWO_TO_THE_64
  }

  /** Bitwise exclusive or. */
  function Xor(x: Word, y: Word): Word
    decreases x + y
  {
    if x == 0 then y else if y == 0 then x else 2 * Xor(x / 2, y / 2) + (x % 2 + y % 2) % 2
  }

  /** Bitwise or. */
  function Or(x: Word, y: Word): Word
    decreases x + y
  {
    if x == 0 then y else if y == 0 then x
    else 2 * Or(x / 2, y / 2) + if x % 2 == 1 || y % 2 == 1 then 1 else 0
  }

  /** Bitwise and. */
  function And(x: Word, y: Word): (z: Word)
    ensures z <= y
    decreases x + y
  {
    if x == 0 || y == 0 then 0 else 2 * And(x / 2, y / 2) + if x % 2 == 1 && y % 2 == 1 then 1 else 0
  }

  function ShiftLeft(x: Word, n: nat): nat {
    if n == 0 then x else 2 * ShiftLeft(x, n - 1)
  }

  function ShiftRight(x: Word, n: nat): Word {
    if n == 0 then x else ShiftRight(x / 2, n - 1)
  }

  function RotateLeft(x: Word, r: nat): Word
    requires r <= 64
  {
    Or(Wrap(ShiftLeft(x, r)), ShiftRight(x, 64 - r))
  }

  function Fmix(k: Word): Word {
    var k1 := Wrap(Xor(k, ShiftRight(k, 33)) * 0xff51afd7ed558ccd);
    var k2 := Wrap(Xor(k1, ShiftRight(k1, 33)) * 0xc4ceb9fe1a85ec53);
    Xor(k2, ShiftRight(k2, 33))
  }

  function Mix(k: Word): Word {
    Wrap(RotateLeft(Wrap(k * 0x87c37b91114253d5), 31) * 0x4cf5ad432745937f)
  }

  /** One full block into the rolling state. */
  function Round(h: Word, k: Word): Word {
    Wrap(RotateLeft(Xor(h, Mix(k)), 27) * 5 + 0x52dce729)
  }

  /** The byte b at byte position i of a word: b << 8i. */
  function Place(b: byte, i: nat): Word
    requires i < 8
  {
    ShiftLeft(b, 8 * i)
  }

  /** What a 64-bit read of at most eight bytes sees, low byte first. */
  function LittleEndian(s: Text): Word
    requires |s| <= 8
  {
    if s == [] then 0 else Or(LittleEndian(s[..|s| - 1]), Place(s[|s| - 1], |s| - 1))
  }

  function Block(key: Text, i: nat): Word
    requires 8 * i + 8 <= |key|
  {
    LittleEndian(key[8 * i..8 * i + 8])
  }

  /** The rolling state of a hash of `total` bytes, after the first n blocks of key. */
  function Rolled(total: Word, key: Text, n: nat): Word
    requires 8 * n <= |key|
  {
    if n == 0 then Xor(SEED, total) else Round(Rolled(total, key, n - 1), Block(key, n - 1))
  }

  function Tail(key: Text): (t: Text)
    ensures |t| == |key| % 8
  {
    key[|key| / 8 * 8..]
  }

  /** The hash: the blocks, then what is left mixed in if there is any, then the length and the finish. */
  function Murmur(key: Text): Word {
    var h := Rolled(Wrap(|key|), key, |key| / 8);
    Fmix(Xor(if Tail(key) == [] then h else Xor(h, Mix(LittleEndian(Tail(key)))), Wrap(|key|)))
  }

  lemma XorZero(x: Word)
    ensures Xor(0, x) == x && Xor(x, 0) == x && Or(0, x) == x
  {
  }

  lemma {:induction false} ShiftZero(n: nat)
    ensures ShiftLeft(0, n) == 0 == ShiftRight(0, n)
  {
    if n > 0 { ShiftZero(n - 1); }
  }

  lemma MixZero()
    ensures Mix(0) == 0
  {
    ShiftZero(31);
    ShiftZero(33);
  }

  /** Xor on the lowest bit and on the others. */
  lemma XorParts(x: Word, y: Word)
    ensures Xor(x, y) / 2 == Xor(x / 2, y / 2) && Xor(x, y) % 2 == (x % 2 + y % 2) % 2
  {
  }

  lemma {:induction false} XorAssociates(x: Word, y: Word, z: Word)
    ensures Xor(Xor(x, y), z) == Xor(x, Xor(y, z))
    decreases x + y + z
  {
    hide Xor;
    if x + y + z == 0 {
      XorZero(0);
    } else {
      XorParts(x, y);
      XorParts(y, z);
      XorParts(Xor(x, y), z);
      XorParts(x, Xor(y, z));
      XorAssociates(x / 2, y / 2, z / 2);
      Halves(Xor(Xor(x, y), z), Xor(x, Xor(y, z)));
    }
  }

  lemma Halves(a: nat, b: nat)
    requires a / 2 == b / 2 && a % 2 == b % 2
    ensures a == b
  {
  }

  /** Where no bits meet, both operations are addition. */
  lemma {:induction false} ApartAdds(x: Word, high: nat, k: nat)
    requires x < Pow2(k)
    ensures Or(x, ShiftLeft(high, k)) == Xor(ShiftLeft(high, k), x) == x + ShiftLeft(high, k)
    decreases k
  {
    if k > 0 && x > 0 { ApartAdds(x / 2, high, k - 1); }
  }

  /** A shifted byte stays below the next byte position. */
  lemma {:induction false} ShiftFits(b: byte, m: nat)
    ensures ShiftLeft(b, m) + Pow2(m) <= Pow2(m + 8)
  {
    if m == 0 {
      assert Pow2(2) == 4 && Pow2(4) == 4 * Pow2(2) && Pow2(6) == 4 * Pow2(4) && Pow2(8) == 4 * Pow2(6);
    } else {
      ShiftFits(b, m - 1);
    }
  }

  lemma PlaceAdds(x: Word, b: byte, i: nat)
    requires i < 8 && x < Pow2(8 * i)
    ensures Or(x, Place(b, i)) == Xor(Place(b, i), x) < Pow2(8 * (i + 1))
  {
    hide Or, Xor, ShiftLeft, Pow2;
    ApartAdds(x, b, 8 * i);
    ShiftFits(b, 8 * i);
  }

  // ---- The switch over the tail ----

  /** The bytes of a tail from the n-th on, gathered by exclusive-or from the last one down. */
  function Gathered(s: Text, n: nat): Word
    requires |s| <= 7
    decreases |s| - n
  {
    if n >= |s| then 0 else Xor(Gathered(s, n + 1), Place(s[n], n))
  }

  lemma {:induction false} LittleEndianFits(s: Text)
    requires |s| <= 7
    ensures LittleEndian(s) < Pow2(8 * |s|)
  {
    hide Place, Or, Xor, Pow2;
    PowZero();
    if s != [] {
      LittleEndianFits(s[..|s| - 1]);
      PlaceAdds(LittleEndian(s[..|s| - 1]), s[|s| - 1], |s| - 1);
    }
  }

  lemma PowZero()
    ensures Pow2(0) == 1
  {
  }

  lemma {:induction false} GatheredIsLittleEndian(s: Text, n: nat)
    requires n <= |s| <= 7
    ensures Xor(Gathered(s, n), LittleEndian(s[..n])) == LittleEndian(s)
    decreases |s| - n
  {
    hide Place, Or, Xor, Pow2;
    if n == |s| {
      assert s[..n] == s;
      XorZero(LittleEndian(s));
    } else {
      GatheredIsLittleEndian(s, n + 1);
      assert s[..n + 1][..n] == s[..n] && s[..n + 1][n] == s[n];
      LittleEndianFits(s[..n]);
      PlaceAdds(LittleEndian(s[..n]), s[n], n);
      XorAssociates(Gathered(s, n + 1), Place(s[n], n), LittleEndian(s[..n]));
    }
  }

  /** All at once: whole blocks in a loop, then a switch whose cases fall through from the last tail byte to the
      first. */
  method MurmurHash64Bits(key: Text) returns (h: Word)
    ensures h == Murmur(key)
  {
    hide Mix, Round, Fmix, LittleEndian, Wrap, Place, Xor;
    h := Xor(SEED, Wrap(|key|));
    for i := 0 to |key| / 8
      invariant h == Rolled(Wrap(|key|), key, i)
    {
      h := Round(h, Block(key, i));
    }
    var tail := Tail(key);
    if |key| % 8 >= 1 {
      var k := GatherTail(tail);
      h := Xor(h, Mix(k));
    }
    h := Xor(h, Wrap(|key|));
    h := Fmix(h);
  }

  method GatherTail(tail: Text) returns (k: Word)
    requires 1 <= |tail| <= 7
    ensures k == LittleEndian(tail)
  {
    hide Place, Xor;
    k := 0;
    if |tail| >= 7 { k := Xor(k, Place(tail[6], 6)); }
    assert k == Gathered(tail, 6);
    if |tail| >= 6 { k := Xor(k, Place(tail[5], 5)); }
    assert k == Gathered(tail, 5);
    if |tail| >= 5 { k := Xor(k, Place(tail[4], 4)); }
    assert k == Gathered(tail, 4);
    if |tail| >= 4 { k := Xor(k, Place(tail[3], 3)); }
    assert k == Gathered(tail, 3);
    if |tail| >= 3 { k := Xor(k, Place(tail[2], 2)); }
    assert k == Gathered(tail, 2);
    if |tail| >= 2 { k := Xor(k, Place(tail[1], 1)); }
    assert k == Gathered(tail, 1);
    k := Xor(k, Place(tail[0], 0));
    assert k == Gathered(tail, 0);
    GatheredIsLittleEndian(tail, 0);
    assert tail[..0] == [];
    XorZero(k);
  }

  // ---- In pieces ----

  lemma {:induction false} RolledPrefix(total: Word, key: Text, more: Text, n: nat)
    requires 8 * n <= |key|
    ensures Rolled(total, key + more, n) == Rolled(total, key, n)
  {
    hide Round, LittleEndian, Xor;
    if n > 0 {
      RolledPrefix(total, key, more, n - 1);
      assert (key + more)[8 * (n - 1)..8 * (n - 1) + 8] == key[8 * (n - 1)..8 * (n - 1) + 8];
    }
  }

  /** One more byte: it joins the tail, or completes a block. */
  lemma ByteFed(total: Word, fed: Text, b: byte)
    ensures var all := fed + [b];
      var word := Or(LittleEndian(Tail(fed)), Place(b, |fed| % 8));
      if |fed| % 8 < 7
      then Rolled(total, all, |all| / 8) == Rolled(total, fed, |fed| / 8) && LittleEndian(Tail(all)) == word
      else Rolled(total, all, |all| / 8) == Round(Rolled(total, fed, |fed| / 8), word) && Tail(all) == []
  {
    hide Round, Place, Or, Xor;
    var n, all := |fed| / 8, fed + [b];
    var tail := Tail(fed) + [b];
    RolledPrefix(total, fed, [b], n);
    assert all[8 * n..] == tail && tail[..|tail| - 1] == Tail(fed);
    if |fed| % 8 == 7 {
      assert |all| / 8 == n + 1 && all[8 * n..8 * n + 8] == tail;
    } else {
      assert |all| / 8 == n;
    }
  }

  /** The stream's fields are the state of the one-shot hash after the bytes fed so far. */
  ghost predicate After(h: Word, total: Word, block: Word, buffered: nat, fed: Text) {
    h == Rolled(total, fed, |fed| / 8) && buffered == |fed| % 8 && block == LittleEndian(Tail(fed))
  }

  lemma AfterByte(h: Word, total: Word, block: Word, buffered: nat, fed: Text, b: byte)
    requires After(h, total, block, buffered, fed)
    ensures buffered < 8
    ensures var word := Or(block, Place(b, buffered));
      if buffered + 1 == 8 then After(Round(h, word), total, 0, 0, fed + [b])
      else After(h, total, word, buffered + 1, fed + [b])
  {
    hide Round, Place, Or, Rolled;
    ByteFed(total, fed, b);
  }

  class HashStream {
    var h: Word
    var totalLen: Word
    var block: Word
    var buffered: nat
    ghost var fed: Text

    ghost predicate Valid()
      reads this
    {
      After(h, totalLen, block, buffered, fed)
    }

    constructor Begin(totalLength: nat)
      ensures Valid() && fed == [] && totalLen == Wrap(totalLength)
    {
      h := Xor(SEED, Wrap(totalLength));
      totalLen := Wrap(totalLength);
      block := 0;
      buffered := 0;
      fed := [];
    }

    method Update(data: Text)
      requires Valid()
      modifies this
      ensures Valid() && fed == old(fed) + data && totalLen == old(totalLen)
    {
      hide Round, Place, Or, After;
      for i := 0 to |data|
        invariant Valid() && fed == old(fed) + data[..i] && totalLen == old(totalLen)
      {
        AfterByte(h, totalLen, block, buffered, fed, data[i]);
        assert data[..i + 1] == data[..i] + [data[i]];
        block := Or(block, Place(data[i], buffered));
        buffered := buffered + 1;
        if buffered == 8 {
          h := Round(h, block);
          block := 0;
          buffered := 0;
        }
        fed := fed + [data[i]];
      }
      assert data[..|data|] == data;
    }

    /** When as many bytes were fed as announced, the hash is that of all of them. */
    method Finalize() returns (hash: Word)
      requires Valid() && totalLen == Wrap(|fed|)
      ensures hash == Murmur(fed)
    {
      hide Mix, Fmix, Wrap, Rolled, Xor;
      MixZero();
      XorZero(h);
      hash := Fmix(Xor(Xor(h, Mix(block)), totalLen));
    }
  }

  function Concat(pieces: seq<Text>): Text {
    if pieces == [] then [] else Concat(pieces[..|pieces| - 1]) + pieces[|pieces| - 1]
  }

  /** Feeding a byte string in any pieces gives the hash of the whole. */
  method HashPieces(pieces: seq<Text>) returns (hash: Word)
    ensures hash == Murmur(Concat(pieces))
  {
    hide Murmur, Wrap, After;
    var stream := new HashStream.Begin(|Concat(pieces)|);
    for i := 0 to |pieces|
      invariant fresh(stream) && stream.Valid()
      invariant stream.fed == Concat(pieces[..i]) && stream.totalLen == Wrap(|Concat(pieces)|)
    {
      assert pieces[..i + 1][..i] == pieces[..i];
      stream.Update(pieces[i]);
    }
    assert pieces[..|pieces|] == pieces;
    hash := stream.Finalize();
  }
}
