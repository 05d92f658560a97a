/** Open addressing: what linear probing over a circular array of cells relies on, whatever the cells hold. */
module Probing {
  import opened Hashing

  datatype Cell<+K, +V> = Hole | Grave | Live(key: K, hash: Word, value: V)

  /** Where a probe for the hash begins: hash & (capacity - 1). */
  function Home(hash: Word, n: nat): (h: nat)
    requires n > 0
    ensures h < n
  {
    And(hash, n - 1)
  }

  /** Where a probe goes on. */
  function Next(i: nat, n: nat): nat {
    if i + 1 == n then 0 else i + 1
  }

  /** How many steps a probe makes from h to i. */
  function Steps(h: nat, i: nat, n: nat): int {
    if h <= i then i - h else i + n - h
  }

  /** A probe for the hash meets j before it meets i. */
  ghost predicate Before(hash: Word, j: nat, i: nat, n: nat)
    requires n > 0
  {
    Steps(Home(hash, n), j, n) < Steps(Home(hash, n), i, n)
  }

  lemma OneBefore(hash: Word, i: nat, j: nat, n: nat)
    requires i < n && j < n
    ensures Before(hash, j, i, n) || Before(hash, i, j, n) || j == i
  {
  }

  /** Each key is found by probing from its home: no hole lies before it. */
  ghost predicate WellPlaced<K, V>(cells: seq<Cell<K, V>>) {
    forall i, j :: 0 <= i < |cells| && 0 <= j < |cells| && cells[i].Live? && Before(cells[i].hash, j, i, |cells|) ==>
      cells[j] != Hole
  }

  ghost predicate Unique<K, V>(cells: seq<Cell<K, V>>) {
    forall i, j :: 0 <= i < j < |cells| && cells[i].Live? && cells[j].Live? ==> cells[i].key != cells[j].key
  }

  predicate Has<K(==), V>(c: Cell<K, V>, key: K) {
    c.Live? && c.key == key
  }

  ghost predicate Absent<K, V>(cells: seq<Cell<K, V>>, key: K) {
    forall i :: 0 <= i < |cells| ==> !Has(cells[i], key)
  }

  /** Where a search for key would stop. */
  ghost function Hits<K, V>(cells: seq<Cell<K, V>>, key: K): set<nat> {
    set j: nat | j < |cells| && Has(cells[j], key)
  }

  /** i is the first cell, from the home of the hash, that holds no key. */
  ghost predicate FirstFree<K, V>(cells: seq<Cell<K, V>>, hash: Word, i: nat) {
    i < |cells| && !cells[i].Live? &&
    forall j :: 0 <= j < |cells| && Before(hash, j, i, |cells|) ==> cells[j].Live?
  }

  /** What a search ends with: the cell of the key, or, if it has none, the first cell free for it. */
  ghost predicate Located<K, V>(cells: seq<Cell<K, V>>, key: K, hash: Word, i: nat) {
    i < |cells| && (Has(cells[i], key) || (Absent(cells, key) && FirstFree(cells, hash, i)))
  }

  /** A probe has come to cell i without meeting a hit or a hole; the first tombstone it met, if any, was at grave. */
  ghost predicate Searching<K, V>(cells: seq<Cell<K, V>>, hits: set<nat>, hash: Word, i: nat, grave: int) {
    && i < |cells| && -1 <= grave < |cells|
    && (forall j :: 0 <= j < |cells| && Before(hash, j, i, |cells|) ==> cells[j] != Hole && j !in hits)
    && (if grave >= 0 then FirstFree(cells, hash, grave)
        else forall j :: 0 <= j < |cells| && Before(hash, j, i, |cells|) ==> cells[j].Live?)
  }

  ghost function Remaining<K, V>(cells: seq<Cell<K, V>>, hash: Word, i: nat): int
    requires |cells| > 0
  {
    |cells| - Steps(Home(hash, |cells|), i, |cells|)
  }

  lemma SearchStart<K, V>(cells: seq<Cell<K, V>>, hits: set<nat>, hash: Word)
    requires |cells| > 0
    ensures Searching(cells, hits, hash, Home(hash, |cells|), -1)
  {
  }

  /** As long as there is a hole somewhere, a probe does not come back to where it began. */
  lemma SearchStep<K, V>(cells: seq<Cell<K, V>>, hits: set<nat>, hash: Word, i: nat, grave: int, hole: nat)
    requires Searching(cells, hits, hash, i, grave) && cells[i] != Hole && i !in hits
    requires hole < |cells| && cells[hole] == Hole
    ensures Searching(cells, hits, hash, Next(i, |cells|), if grave < 0 && cells[i].Grave? then i else grave)
    ensures 0 <= Remaining(cells, hash, Next(i, |cells|)) < Remaining(cells, hash, i)
  {
    assert Next(i, |cells|) != Home(hash, |cells|);
    forall j | 0 <= j < |cells| && Before(hash, j, Next(i, |cells|), |cells|) && j != i
      ensures Before(hash, j, i, |cells|)
    {
    }
  }

  /** A probe that met a hole before any hit shows that there is no hit. */
  lemma SearchEnd<K, V>(cells: seq<Cell<K, V>>, hits: set<nat>, hash: Word, i: nat, grave: int)
    requires WellPlaced(cells) && Searching(cells, hits, hash, i, grave) && cells[i] == Hole
    requires forall j :: j in hits ==> j < |cells| && cells[j].Live? && cells[j].hash == hash
    ensures hits == {}
    ensures var at := if grave >= 0 then grave else i; FirstFree(cells, hash, at)
  {
    forall j | 0 <= j < |cells| && cells[j].Live? && cells[j].hash == hash ensures j !in hits {
      OneBefore(hash, i, j, |cells|);
    }
    assert forall j :: j !in hits;
  }

  lemma LocatedFree<K, V>(cells: seq<Cell<K, V>>, key: K, hash: Word, i: nat)
    requires Hits(cells, key) == {} && FirstFree(cells, hash, i)
    ensures Located(cells, key, hash, i) && i < |cells| && !cells[i].Live?
  {
    forall j | 0 <= j < |cells| ensures !Has(cells[j], key) { assert j !in Hits(cells, key); }
  }

  lemma LocatedAt<K, V>(cells: seq<Cell<K, V>>, key: K, hash: Word, i: nat)
    requires i < |cells| && Has(cells[i], key)
    ensures Located(cells, key, hash, i)
  {
  }

  lemma PutKeeps<K, V>(cells: seq<Cell<K, V>>, key: K, hash: Word, value: V, i: nat)
    requires WellPlaced(cells) && Unique(cells) && Located(cells, key, hash, i)
    requires Has(cells[i], key) ==> cells[i].hash == hash
    ensures WellPlaced(cells[i := Live(key, hash, value)]) && Unique(cells[i := Live(key, hash, value)])
  {
  }

  lemma BuryKeeps<K, V>(cells: seq<Cell<K, V>>, i: nat)
    requires WellPlaced(cells) && Unique(cells) && i < |cells|
    ensures WellPlaced(cells[i := Grave]) && Unique(cells[i := Grave])
  {
  }

  // ---- Counting ----

  /** The cells that are not holes: keys and graves. */
  function Used<K, V>(cells: seq<Cell<K, V>>): nat {
    if cells == [] then 0 else Used(cells[..|cells| - 1]) + if cells[|cells| - 1].Hole? then 0 else 1
  }

  function Lives<K, V>(cells: seq<Cell<K, V>>): nat {
    if cells == [] then 0 else Lives(cells[..|cells| - 1]) + if cells[|cells| - 1].Live? then 1 else 0
  }

  lemma {:induction false} LivesUsed<K, V>(cells: seq<Cell<K, V>>)
    ensures Lives(cells) <= Used(cells) <= |cells|
  {
    if cells != [] { LivesUsed(cells[..|cells| - 1]); }
  }

  lemma {:induction false} UsedPut<K, V>(cells: seq<Cell<K, V>>, i: nat, c: Cell<K, V>)
    requires i < |cells|
    ensures Used(cells[i := c]) ==
      Used(cells) - (if cells[i].Hole? then 0 else 1) + (if c.Hole? then 0 else 1)
  {
    var n := |cells| - 1;
    if i == n {
      assert cells[i := c][..n] == cells[..n];
    } else {
      assert cells[i := c][..n] == cells[..n][i := c];
      UsedPut(cells[..n], i, c);
    }
  }

  lemma {:induction false} UsedPrefix<K, V>(cells: seq<Cell<K, V>>, i: nat)
    requires i <= |cells|
    ensures Used(cells[..i]) <= Used(cells)
  {
    if i == |cells| {
      assert cells[..i] == cells;
    } else {
      assert cells[..|cells| - 1][..i] == cells[..i];
      UsedPrefix(cells[..|cells| - 1], i);
    }
  }

  lemma {:induction false} HoleExists<K, V>(cells: seq<Cell<K, V>>) returns (hole: nat)
    requires Used(cells) < |cells|
    ensures hole < |cells| && cells[hole] == Hole
  {
    var n := |cells| - 1;
    if cells[n].Hole? {
      hole := n;
    } else {
      hole := HoleExists(cells[..n]);
    }
  }

  lemma {:induction false} NoneAt<K, V>(cells: seq<Cell<K, V>>, i: nat)
    requires Used(cells) == 0 && i < |cells|
    ensures cells[i] == Hole
  {
    if i < |cells| - 1 { NoneAt(cells[..|cells| - 1], i); }
  }

  lemma {:induction false} NoneUsed<K, V>(cells: seq<Cell<K, V>>)
    requires forall i :: 0 <= i < |cells| ==> cells[i] == Hole
    ensures Used(cells) == 0 && WellPlaced(cells) && Unique(cells)
  {
    if cells != [] { NoneUsed(cells[..|cells| - 1]); }
  }

  // ---- What the cells hold ----

  ghost predicate Holds<K, V>(cells: seq<Cell<K, V>>, m: map<K, V>) {
    && (forall i :: 0 <= i < |cells| && cells[i].Live? ==> cells[i].key in m && m[cells[i].key] == cells[i].value)
    && (forall k :: k in m ==> exists i :: 0 <= i < |cells| && Has(cells[i], k))
  }

  /** The cells are probed rightly and hold m. */
  ghost predicate Probed<K, V>(cells: seq<Cell<K, V>>, m: map<K, V>) {
    WellPlaced(cells) && Unique(cells) && Holds(cells, m)
  }

  lemma HoldsPut<K, V>(cells: seq<Cell<K, V>>, m: map<K, V>, key: K, hash: Word, value: V, i: nat)
    requires Holds(cells, m) && Unique(cells) && Located(cells, key, hash, i)
    ensures Holds(cells[i := Live(key, hash, value)], m[key := value])
    ensures key in m <==> Has(cells[i], key)
  {
    var cells', m' := cells[i := Live(key, hash, value)], m[key := value];
    forall k | k in m' ensures exists j :: 0 <= j < |cells'| && Has(cells'[j], k) {
      if k == key {
        assert Has(cells'[i], k);
      } else {
        var j :| 0 <= j < |cells| && Has(cells[j], k);
        assert Has(cells'[j], k);
      }
    }
    forall j | 0 <= j < |cells'| && cells'[j].Live? && j != i
      ensures cells'[j].key in m' && m'[cells'[j].key] == cells'[j].value
    {
      assert !Has(cells[j], key);
    }
    if key in m {
      var j :| 0 <= j < |cells| && Has(cells[j], key);
    }
  }

  /** Entering a key where a search for it ended. */
  lemma Entered<K, V>(cells: seq<Cell<K, V>>, m: map<K, V>, key: K, hash: Word, value: V, i: nat)
    requires Probed(cells, m) && Located(cells, key, hash, i) && (Has(cells[i], key) ==> cells[i].hash == hash)
    ensures Probed(cells[i := Live(key, hash, value)], m[key := value])
    ensures Used(cells[i := Live(key, hash, value)]) == Used(cells) + if cells[i].Hole? then 1 else 0
    ensures key in m <==> Has(cells[i], key)
    ensures key in m ==> m[key] == cells[i].value
  {
    PutKeeps(cells, key, hash, value, i);
    UsedPut(cells, i, Live(key, hash, value));
    HoldsPut(cells, m, key, hash, value, i);
  }

  /** A tombstone in the place of a key. */
  lemma Buried<K, V>(cells: seq<Cell<K, V>>, m: map<K, V>, key: K, i: nat)
    requires Probed(cells, m) && i < |cells| && Has(cells[i], key)
    ensures Probed(cells[i := Grave], m - {key}) && Used(cells[i := Grave]) == Used(cells)
  {
    BuryKeeps(cells, i);
    UsedPut(cells, i, Grave);
    var cells' := cells[i := Grave];
    forall k | k in m - {key} ensures exists j :: 0 <= j < |cells'| && Has(cells'[j], k) {
      var j :| 0 <= j < |cells| && Has(cells[j], k);
      assert Has(cells'[j], k);
    }
  }

  lemma CellHeld<K, V>(cells: seq<Cell<K, V>>, m: map<K, V>, i: nat)
    requires Probed(cells, m) && i < |cells| && cells[i].Live?
    ensures Unique(cells) && cells[i].key in m && m[cells[i].key] == cells[i].value
  {
  }

  lemma NothingHeld<K, V>(cells: seq<Cell<K, V>>, m: map<K, V>)
    requires Holds(cells, m) && Used(cells) == 0
    ensures m == map[]
  {
    forall k | k in m ensures false {
      var i :| 0 <= i < |cells| && Has(cells[i], k);
      NoneAt(cells, i);
    }
  }

  // ---- Rebuilding ----

  /** sub is what the first i cells hold. */
  ghost predicate Copied<K, V>(cells: seq<Cell<K, V>>, i: nat, sub: map<K, V>) {
    && i <= |cells|
    && (forall j :: 0 <= j < i && cells[j].Live? ==> cells[j].key in sub && sub[cells[j].key] == cells[j].value)
    && (forall k :: k in sub ==> exists j :: 0 <= j < i && Has(cells[j], k))
  }

  lemma CopiedStep<K, V>(cells: seq<Cell<K, V>>, i: nat, sub: map<K, V>)
    requires i < |cells| && Unique(cells) && Copied(cells, i, sub)
    ensures !cells[i].Live? ==> Copied(cells, i + 1, sub)
    ensures cells[i].Live? ==> cells[i].key !in sub && Copied(cells, i + 1, sub[cells[i].key := cells[i].value])
    ensures Used(cells[..i + 1]) == Used(cells[..i]) + if cells[i].Hole? then 0 else 1
  {
    assert cells[..i + 1][..i] == cells[..i];
    if cells[i].Live? {
      var sub' := sub[cells[i].key := cells[i].value];
      forall j | 0 <= j < i ensures !Has(cells[j], cells[i].key) {}
      forall k | k in sub' ensures exists j :: 0 <= j < i + 1 && Has(cells[j], k) {
        if k == cells[i].key {
          assert Has(cells[i], k);
        } else {
          var j :| 0 <= j < i && Has(cells[j], k);
        }
      }
    }
  }

  lemma CopiedAll<K, V>(cells: seq<Cell<K, V>>, m: map<K, V>, sub: map<K, V>)
    requires Holds(cells, m) && Copied(cells, |cells|, sub)
    ensures sub == m
  {
    forall k | k in m ensures k in sub && sub[k] == m[k] {
      var j :| 0 <= j < |cells| && Has(cells[j], k);
    }
    forall k | k in sub ensures k in m {
      var j :| 0 <= j < |cells| && Has(cells[j], k);
    }
  }

  /** Rebuilding has moved the keys of the first i cells, n of them, and no tombstone. */
  ghost predicate Moving<K, V>(cells: seq<Cell<K, V>>, i: nat, moved: seq<Cell<K, V>>, n: nat, sub: map<K, V>) {
    && Copied(cells, i, sub) && Probed(moved, sub)
    && n == Used(moved) <= Used(cells[..i])
    && forall j :: 0 <= j < |moved| ==> !moved[j].Grave?
  }

  lemma MovingStart<K, V>(cells: seq<Cell<K, V>>, moved: seq<Cell<K, V>>)
    requires forall i :: 0 <= i < |moved| ==> moved[i] == Hole
    ensures Moving(cells, 0, moved, 0, map[])
  {
    NoneUsed(moved);
  }

  lemma MovingRoom<K, V>(cells: seq<Cell<K, V>>, i: nat, moved: seq<Cell<K, V>>, n: nat, sub: map<K, V>)
    requires Moving(cells, i, moved, n, sub) && Used(cells) < |moved|
    ensures WellPlaced(moved) && Used(moved) < |moved|
  {
    UsedPrefix(cells, i);
  }

  lemma MovingSkip<K, V>(cells: seq<Cell<K, V>>, i: nat, moved: seq<Cell<K, V>>, n: nat, sub: map<K, V>)
    requires i < |cells| && Unique(cells) && Moving(cells, i, moved, n, sub) && !cells[i].Live?
    ensures Moving(cells, i + 1, moved, n, sub)
  {
    CopiedStep(cells, i, sub);
  }

  lemma MovingPut<K, V>(cells: seq<Cell<K, V>>, i: nat, moved: seq<Cell<K, V>>, n: nat, sub: map<K, V>, dest: nat)
    requires i < |cells| && Unique(cells) && Moving(cells, i, moved, n, sub) && cells[i].Live?
    requires Located(moved, cells[i].key, cells[i].hash, dest)
    ensures Moving(cells, i + 1, moved[dest := cells[i]], n + 1, sub[cells[i].key := cells[i].value])
  {
    CopiedStep(cells, i, sub);
    assert !Has(moved[dest], cells[i].key) by {
      HoldsPut(moved, sub, cells[i].key, cells[i].hash, cells[i].value, dest);
    }
    Entered(moved, sub, cells[i].key, cells[i].hash, cells[i].value, dest);
    hide Probed, Copied, Used;
  }

  lemma MovingDone<K, V>(cells: seq<Cell<K, V>>, moved: seq<Cell<K, V>>, n: nat, m: map<K, V>, sub: map<K, V>)
    requires Moving(cells, |cells|, moved, n, sub) && Holds(cells, m)
    ensures sub == m && Probed(moved, m) && n == Used(moved) <= Used(cells)
  {
    CopiedAll(cells, m, sub);
    assert cells[..|cells|] == cells;
  }

  // ---- Capacities ----

  function Grow(capacity: nat): nat {
    if capacity < 8 then 8 else capacity * 2
  }

  predicate PowerOfTwo(n: nat) {
    n == 1 || (n > 1 && n % 2 == 0 && PowerOfTwo(n / 2))
  }

  /** A table has no cells yet, or a power of two of at least eight. */
  predicate Capacity(n: nat) {
    n == 0 || (n >= 8 && n % 8 == 0 && PowerOfTwo(n))
  }

  lemma CapacityPower(n: nat)
    requires Capacity(n) && n > 0
    ensures PowerOfTwo(n)
  {
  }

  lemma GrowCapacity(n: nat)
    requires Capacity(n)
    ensures Capacity(Grow(n)) && Grow(n) > n
  {
    if n == 0 {
      assert PowerOfTwo(1) && PowerOfTwo(2) && PowerOfTwo(4);
    } else {
      assert Grow(n) / 2 == n;
    }
  }

  lemma AndParts(x: nat, m: nat)
    requires m > 0
    ensures And(x, 2 * m - 1) == 2 * And(x / 2, m - 1) + x % 2
  {
  }

  lemma RemainderParts(x: nat, m: nat)
    requires m > 0
    ensures x % (2 * m) == 2 * (x / 2 % m) + x % 2
  {
    var q := x / 2 / m;
    assert x / 2 == m * q + x / 2 % m;
    assert 2 * (m * q) == (2 * m) * q;
    RemainderIs(x, 2 * m, q, 2 * (x / 2 % m) + x % 2);
  }

  /** A mask of a power of two, less one, takes the remainder. */
  lemma {:induction false} MaskIsRemainder(x: nat, n: nat)
    requires PowerOfTwo(n)
    ensures And(x, n - 1) == x % n
    decreases n
  {
    hide And;
    if n > 1 {
      MaskIsRemainder(x / 2, n / 2);
      AndParts(x, n / 2);
      RemainderParts(x, n / 2);
    } else {
      AndZero(x);
    }
  }

  lemma AndZero(x: nat)
    ensures And(x, 0) == 0
  {
  }

  lemma {:induction false} MulStep(d: nat, a: nat, b: nat)
    ensures a < b ==> d * a + d <= d * b
    decreases b
  {
    if a < b {
      assert d * b == d * (b - 1) + d;
      MulStep(d, a, b - 1);
    }
  }

  lemma RemainderIs(x: nat, d: nat, q: nat, r: nat)
    requires x == d * q + r && r < d
    ensures x % d == r
  {
    var q', r' := x / d, x % d;
    assert x == d * q' + r';
    MulStep(d, q, q');
    MulStep(d, q', q);
  }

  lemma MaskedStep(i: nat, n: nat)
    requires PowerOfTwo(n) && i < n
    ensures And(i + 1, n - 1) == Next(i, n)
  {
    MaskIsRemainder(i + 1, n);
    RemainderIs(i + 1, n, if i + 1 == n then 1 else 0, Next(i, n));
  }

  /** The step as the tables take it, by a mask: (i + 1) & (capacity - 1). */
  function Advance(i: nat, n: nat): (r: nat)
    requires PowerOfTwo(n) && i < n
    ensures r == Next(i, n) < n
  {
    MaskedStep(i, n);
    And(i + 1, n - 1)
  }
}
