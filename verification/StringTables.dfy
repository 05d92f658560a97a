/** The pool of interned strings: a hash table of string objects, each with its index among the constants. */
module StringTables {
  import opened Hashing
  import opened Values
  import opened Probing
  import opened Strings

  const UINT32_MAX: nat := 0xFFFF_FFFF   // "not among the constants"

  datatype StringEntry = StringEntry(key: ObjString?, index: nat)

  type StringCell = Cell<ObjString, nat>

  function CellOf(e: StringEntry): StringCell {
    if e.key != null then Live(e.key, e.key.hash, e.index) else Hole
  }

  function Cells(es: seq<StringEntry>): (cells: seq<StringCell>)
    ensures |cells| == |es|
  {
    seq(|es|, i requires 0 <= i < |es| => CellOf(es[i]))
  }

  lemma CellsAt(es: seq<StringEntry>, i: nat)
    requires i < |es|
    ensures Cells(es)[i] == CellOf(es[i])
  {
  }

  lemma HashesAgree(es: seq<StringEntry>, key: ObjString)
    ensures forall j :: j in Hits(Cells(es), key) ==>
              j < |Cells(es)| && Cells(es)[j].Live? && Cells(es)[j].hash == key.hash
  {
  }

  method FindStringEntry(entries: array<StringEntry>, key: ObjString) returns (index: nat)
    requires WellPlaced(Cells(entries[..])) && Used(Cells(entries[..])) < entries.Length && PowerOfTwo(entries.Length)
    ensures Located(Cells(entries[..]), key, key.hash, index) && index < entries.Length
  {
    hide WellPlaced, Searching, Remaining, Located, FirstFree, Used, Cells;
    ghost var cells := Cells(entries[..]);
    ghost var hits := Hits(cells, key);
    ghost var hole := HoleExists(cells);
    index := Home(key.hash, entries.Length);
    SearchStart(cells, hits, key.hash);
    while true
      invariant index < entries.Length && Searching(cells, hits, key.hash, index, -1)
      decreases Remaining(cells, key.hash, index)
    {
      var entry := entries[index];
      CellsAt(entries[..], index);
      if entry.key == null {
        HashesAgree(entries[..], key);
        SearchEnd(cells, hits, key.hash, index, -1);
        LocatedFree(cells, key, key.hash, index);
        return;
      } else if entry.key == key {
        LocatedAt(cells, key, key.hash, index);
        return;
      }
      SearchStep(cells, hits, key.hash, index, -1, hole);
      index := Advance(index, entries.Length);
    }
  }

  method PutAt(entries: array<StringEntry>, i: nat, e: StringEntry)
    requires i < entries.Length
    modifies entries
    ensures Cells(entries[..]) == old(Cells(entries[..]))[i := CellOf(e)]
  {
    entries[i] := e;
  }

  method MoveEntry(moved: array<StringEntry>, entry: StringEntry, ghost cells: seq<StringCell>, ghost i: nat,
                   ghost n: nat, ghost sub: map<ObjString, nat>)
    requires i < |cells| && cells[i] == CellOf(entry) && entry.key != null
    requires Unique(cells) && Used(cells) < moved.Length && Moving(cells, i, Cells(moved[..]), n, sub)
    requires PowerOfTwo(moved.Length)
    modifies moved
    ensures Moving(cells, i + 1, Cells(moved[..]), n + 1, sub[entry.key := entry.index])
  {
    hide Moving, Unique, Used, Located, WellPlaced, Cells;
    MovingRoom(cells, i, Cells(moved[..]), n, sub);
    var dest := FindStringEntry(moved, entry.key);
    MovingPut(cells, i, Cells(moved[..]), n, sub, dest);
    PutAt(moved, dest, StringEntry(entry.key, entry.index));
  }

  method Rebuild(entries: array<StringEntry>, capacity: nat, ghost m: map<ObjString, nat>)
    returns (moved: array<StringEntry>, count: nat)
    requires Probed(Cells(entries[..]), m) && Used(Cells(entries[..])) < capacity && PowerOfTwo(capacity)
    ensures fresh(moved) && moved.Length == capacity && Probed(Cells(moved[..]), m)
    ensures count == Used(Cells(moved[..])) <= Used(Cells(entries[..]))
  {
    moved := new StringEntry[capacity](_ => StringEntry(null, UINT32_MAX));
    count := 0;
    ghost var cells, sub: map<ObjString, nat> := Cells(entries[..]), map[];
    MovingStart(cells, Cells(moved[..]));
    hide Moving, Used, Holds, Unique, WellPlaced, Cells;
    for i := 0 to entries.Length
      invariant Cells(entries[..]) == cells && Moving(cells, i, Cells(moved[..]), count, sub)
    {
      var entry := entries[i];
      CellsAt(entries[..], i);
      if entry.key == null {
        MovingSkip(cells, i, Cells(moved[..]), count, sub);
      } else {
        CellHeld(cells, m, i);
        MoveEntry(moved, entry, cells, i, count, sub);
        count := count + 1;
        sub := sub[entry.key := entry.index];
      }
    }
    MovingDone(cells, Cells(moved[..]), count, m, sub);
  }

  /** No two strings have the same content, and each has the hash of its content. */
  ghost predicate Interned(strings: set<ObjString>) {
    && (forall s :: s in strings ==> s.hash == Murmur(s.chars))
    && (forall s, t :: s in strings && t in strings && s.chars == t.chars ==> s == t)
  }

  lemma InternedAdd(m: map<ObjString, nat>, key: ObjString, index: nat)
    requires Interned(m.Keys) && key.hash == Murmur(key.chars)
    requires forall s :: s in m && s.chars == key.chars ==> s == key
    ensures Interned(m[key := index].Keys)
  {
    hide Murmur;
  }

  class StringTable {
    var count: nat
    var capacity: nat
    var entries: array<StringEntry>
    ghost var contents: map<ObjString, nat>

    ghost predicate Valid()
      reads this, entries
    {
      && entries.Length == capacity && Capacity(capacity)
      && Probed(Cells(entries[..]), contents) && Interned(contents.Keys)
      && count == Used(Cells(entries[..])) && count <= capacity * 3 / 4
    }

    constructor ()
      ensures Valid() && contents == map[] && fresh(entries)
    {
      count := 0;
      capacity := 0;
      entries := new StringEntry[0];
      contents := map[];
    }

    method Reserve()
      requires Valid()
      modifies this`count, this`capacity, this`entries
      ensures Valid() && count + 1 <= capacity * 3 / 4
      ensures (entries == old(entries) && unchanged(entries)) || fresh(entries)
    {
      if count + 1 > capacity * 3 / 4 {
        GrowCapacity(capacity);
        var moved, newCount := Rebuild(entries, Grow(capacity), contents);
        entries, capacity, count := moved, Grow(capacity), newCount;
      }
    }

    /** What the cell shows where a search for key ended. */
    lemma At(key: ObjString, i: nat)
      requires Valid() && Located(Cells(entries[..]), key, key.hash, i)
      ensures i < capacity && Cells(entries[..])[i] == CellOf(entries[i])
      ensures if key in contents then entries[i].key == key && contents[key] == entries[i].index
              else entries[i].key == null
    {
      HoldsPut(Cells(entries[..]), contents, key, key.hash, 0, i);
    }

    lemma Room()
      requires Valid() && capacity > 0
      ensures WellPlaced(Cells(entries[..])) && Used(Cells(entries[..])) < capacity
    {
    }

    lemma AfterEntry(key: ObjString, i: nat, constant: nat)
      requires Valid() && Located(Cells(entries[..]), key, key.hash, i)
      ensures var cells := Cells(entries[..])[i := CellOf(StringEntry(key, constant))];
        && Probed(cells, contents[key := constant])
        && Used(cells) == Used(Cells(entries[..])) + if entries[i].key == null then 1 else 0
      ensures contents[key := constant].Keys == contents.Keys + {key}
    {
      At(key, i);
      Entered(Cells(entries[..]), contents, key, key.hash, constant, i);
    }

    /** Fills the cell that a search for key ended at. */
    method Enter(key: ObjString, index: nat, constant: nat)
      requires Valid() && Located(Cells(entries[..]), key, key.hash, index) && index < capacity
      requires count + 1 <= capacity * 3 / 4 && Interned(contents.Keys + {key})
      modifies this`count, this`contents, entries
      ensures Valid() && contents == old(contents)[key := constant]
    {
      hide Probed, Used, Capacity, Located, Cells, Interned;
      AfterEntry(key, index, constant);
      if entries[index].key == null { count := count + 1; }
      PutAt(entries, index, StringEntry(key, constant));
      contents := contents[key := constant];
    }

    /** Adds a string whose content the pool lacks. */
    method SetString(key: ObjString) returns (isNewKey: bool)
      requires Valid() && key.hash == Murmur(key.chars)
      requires forall s :: s in contents && s.chars == key.chars ==> s == key
      modifies this, entries
      ensures Valid() && (entries == old(entries) || fresh(entries))
      ensures isNewKey == (key !in old(contents))
      ensures contents == if isNewKey then old(contents)[key := UINT32_MAX] else old(contents)
    {
      InternedAdd(contents, key, UINT32_MAX);
      assert contents[key := UINT32_MAX].Keys == contents.Keys + {key};
      hide Probed, Used, Capacity, Located, Cells, Murmur, Interned;
      Reserve();
      Room();
      var index := FindStringEntry(entries, key);
      At(key, index);
      isNewKey := entries[index].key == null;
      if isNewKey { Enter(key, index, UINT32_MAX); }
    }

    /** The cells whose strings have this content. */
    ghost function Alike(chars: Text): set<nat>
      reads this, entries
    {
      set j: nat | j < entries.Length && entries[j].key != null && entries[j].key.chars == chars
    }

    lemma AlikeAt(chars: Text, j: nat)
      requires j < entries.Length
      ensures j in Alike(chars) <==> entries[j].key != null && entries[j].key.chars == chars
    {
    }

    /** An empty pool has no string with this content. */
    lemma Empty()
      requires Valid() && count == 0
      ensures contents == map[]
    {
      NothingHeld(Cells(entries[..]), contents);
    }

    lemma AlikeHash(chars: Text)
      requires Valid()
      ensures forall j :: j in Alike(chars) ==>
                j < |Cells(entries[..])| && Cells(entries[..])[j].Live? && Cells(entries[..])[j].hash == Murmur(chars)
    {
      forall j | j in Alike(chars) ensures Cells(entries[..])[j].Live? && entries[j].key.hash == Murmur(chars) {
        CellsAt(entries[..], j);
        CellHeld(Cells(entries[..]), contents, j);
      }
    }

    lemma NoneAlike(chars: Text)
      requires Valid() && Alike(chars) == {}
      ensures forall s :: s in contents ==> s.chars != chars
    {
      hide Interned, WellPlaced, Unique, Used;
      forall s | s in contents ensures s.chars != chars {
        var j :| 0 <= j < |Cells(entries[..])| && Has(Cells(entries[..])[j], s);
        assert j !in Alike(chars);
      }
    }

    lemma Met(i: nat)
      requires Valid() && i < capacity && entries[i].key != null
      ensures entries[i].key in contents && contents[entries[i].key] == entries[i].index
      ensures entries[i].key.hash == Murmur(entries[i].key.chars)
    {
      CellHeld(Cells(entries[..]), contents, i);
    }

    /** The interned string with this content, if there is one. */
    method FindString(chars: Text, hash: Word) returns (found: ObjString?)
      requires Valid() && hash == Murmur(chars)
      ensures found != null ==> found in contents && found.chars == chars
      ensures found == null ==> forall s :: s in contents ==> s.chars != chars
    {
      hide Alike, WellPlaced, Probed, Interned, Searching, Remaining, FirstFree, Used, Cells, Murmur;
      if count == 0 {
        Empty();
        return null;
      }
      Room();
      ghost var cells, hits := Cells(entries[..]), Alike(chars);
      ghost var hole := HoleExists(cells);
      var index: nat := Home(hash, capacity);
      SearchStart(cells, hits, hash);
      AlikeHash(chars);
      while true
        invariant index < capacity && Searching(cells, hits, hash, index, -1)
        decreases Remaining(cells, hash, index)
      {
        var entry := entries[index];
        CellsAt(entries[..], index);
        if entry.key == null {
          SearchEnd(cells, hits, hash, index, -1);
          NoneAlike(chars);
          return null;
        }
        Met(index);
        AlikeAt(chars, index);
        if |entry.key.chars| == |chars| && entry.key.hash == hash && entry.key.chars == chars { return entry.key; }
        SearchStep(cells, hits, hash, index, -1, hole);
        index := Advance(index, capacity);
      }
    }

    /** The interned string whose content is one segment after the other, if there is one: the search for the whole. */
    method FindConcatString(charsA: Text, charsB: Text, hash: Word) returns (found: ObjString?)
      requires Valid() && hash == Murmur(charsA + charsB)
      ensures found != null ==> found in contents && found.chars == charsA + charsB
      ensures found == null ==> forall s :: s in contents ==> s.chars != charsA + charsB
    {
      hide Alike, WellPlaced, Probed, Interned, Searching, Remaining, FirstFree, Used, Cells, Murmur;
      if count == 0 {
        Empty();
        return null;
      }
      Room();
      ghost var cells, hits := Cells(entries[..]), Alike(charsA + charsB);
      ghost var hole := HoleExists(cells);
      var index: nat := Home(hash, capacity);
      var length := |charsA| + |charsB|;
      SearchStart(cells, hits, hash);
      AlikeHash(charsA + charsB);
      while true
        invariant index < capacity && Searching(cells, hits, hash, index, -1)
        decreases Remaining(cells, hash, index)
      {
        var entry := entries[index];
        CellsAt(entries[..], index);
        if entry.key == null {
          SearchEnd(cells, hits, hash, index, -1);
          NoneAlike(charsA + charsB);
          return null;
        }
        Met(index);
        AlikeAt(charsA + charsB, index);
        assert entry.key.chars == charsA + charsB ==>
            entry.key.chars[..|charsA|] == charsA && entry.key.chars[|charsA|..] == charsB;
        if |entry.key.chars| == length && entry.key.hash == hash &&
           entry.key.chars[..|charsA|] == charsA && entry.key.chars[|charsA|..] == charsB {
          assert entry.key.chars == entry.key.chars[..|charsA|] + entry.key.chars[|charsA|..];
          return entry.key;
        }
        SearchStep(cells, hits, hash, index, -1, hole);
        index := Advance(index, capacity);
      }
    }

    lemma SomeCell(key: ObjString)
      requires Valid() && key in contents
      ensures capacity > 0
    {
      var i :| 0 <= i < |Cells(entries[..])| && Has(Cells(entries[..])[i], key);
    }

    /** The cell of an interned string. */
    method GetStringEntry(key: ObjString) returns (index: nat)
      requires Valid() && key in contents
      ensures index < capacity == entries.Length && entries[index].key == key && entries[index].index == contents[key]
    {
      SomeCell(key);
      Room();
      hide WellPlaced, Searching, Remaining, FirstFree, Located, Used, Cells, Murmur, Holds, Unique, Interned;
      ghost var cells := Cells(entries[..]);
      ghost var hits := Hits(cells, key);
      ghost var hole := HoleExists(cells);
      index := Home(key.hash, capacity);
      SearchStart(cells, hits, key.hash);
      while true
        invariant index < capacity && Searching(cells, hits, key.hash, index, -1)
        decreases Remaining(cells, key.hash, index)
      {
        var entry := entries[index];
        CellsAt(entries[..], index);
        if entry.key == key {
          Met(index);
          return;
        }
        if entry.key == null {
          HashesAgree(entries[..], key);
          SearchEnd(cells, hits, key.hash, index, -1);
          LocatedFree(cells, key, key.hash, index);
          At(key, index);
          assert false;
        }
        SearchStep(cells, hits, key.hash, index, -1, hole);
        index := Advance(index, capacity);
      }
    }

    method SetIndex(index: nat, constant: nat)
      requires Valid() && index < capacity && entries[index].key != null
      modifies this`contents, entries
      ensures Valid() && contents == old(contents)[old(entries[index].key) := constant]
    {
      hide Probed, Used, Capacity, Located, Cells, Interned;
      var key: ObjString := entries[index].key;
      CellsAt(entries[..], index);
      Met(index);
      LocatedAt(Cells(entries[..]), key, key.hash, index);
      assert contents.Keys + {key} == contents.Keys;
      AfterEntry(key, index, constant);
      PutAt(entries, index, StringEntry(key, constant));
      contents := contents[key := constant];
    }
  }
}
