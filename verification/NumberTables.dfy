/** The pool of numbers: a hash table of bit patterns, each with its index among the constants. */
module NumberTables {
  import opened Hashing
  import opened Probing

  const UINT32_MAX: nat := 0xFFFF_FFFF   // "not among the constants"

  /** The hash of a number: that of the eight bytes of its bits, low byte first. */
  function HashNumber(binary: Word): Word {
    Murmur(seq(8, i requires 0 <= i < 8 => And(ShiftRight(binary, 8 * i), 0xFF)))
  }

  datatype NumberEntry = NumberEntry(binary: Word, hash: Word, isValid: bool, index: nat)

  type NumberCell = Cell<Word, nat>

  function NumberCellOf(e: NumberEntry): NumberCell {
    if e.isValid then Live(e.binary, e.hash, e.index) else Hole
  }

  function NumberCells(es: seq<NumberEntry>): (cells: seq<NumberCell>)
    ensures |cells| == |es|
  {
    seq(|es|, i requires 0 <= i < |es| => NumberCellOf(es[i]))
  }

  lemma NumberCellsAt(es: seq<NumberEntry>, i: nat)
    requires i < |es|
    ensures NumberCells(es)[i] == NumberCellOf(es[i])
  {
  }

  /** Each cell has the hash of its number, and an entry not in use has no index. */
  ghost predicate Hashed(es: seq<NumberEntry>) {
    forall i :: 0 <= i < |es| ==>
      if es[i].isValid then es[i].hash == HashNumber(es[i].binary) else es[i].index == UINT32_MAX
  }

  lemma NumberHashesAgree(es: seq<NumberEntry>, n: Word)
    requires Hashed(es)
    ensures forall j :: j in Hits(NumberCells(es), n) ==>
              j < |NumberCells(es)| && NumberCells(es)[j].Live? && NumberCells(es)[j].hash == HashNumber(n)
  {
    hide HashNumber;
  }

  method FindNumberEntry(entries: array<NumberEntry>, binary: Word, hash: Word) returns (index: nat)
    requires WellPlaced(NumberCells(entries[..])) && Used(NumberCells(entries[..])) < entries.Length
    requires PowerOfTwo(entries.Length)
    requires Hashed(entries[..]) && hash == HashNumber(binary)
    ensures Located(NumberCells(entries[..]), binary, hash, index) && index < entries.Length
  {
    hide WellPlaced, Searching, Remaining, Located, FirstFree, Used, NumberCells, HashNumber, Hashed;
    ghost var cells := NumberCells(entries[..]);
    ghost var hits := Hits(cells, binary);
    ghost var hole := HoleExists(cells);
    index := Home(hash, entries.Length);
    SearchStart(cells, hits, hash);
    while true
      invariant index < entries.Length && Searching(cells, hits, hash, index, -1)
      decreases Remaining(cells, hash, index)
    {
      var entry := entries[index];
      NumberCellsAt(entries[..], index);
      if !entry.isValid {
        NumberHashesAgree(entries[..], binary);
        SearchEnd(cells, hits, hash, index, -1);
        LocatedFree(cells, binary, hash, index);
        return;
      } else if entry.binary == binary {
        LocatedAt(cells, binary, hash, index);
        return;
      }
      SearchStep(cells, hits, hash, index, -1, hole);
      index := Advance(index, entries.Length);
    }
  }

  method PutNumber(entries: array<NumberEntry>, i: nat, e: NumberEntry)
    requires i < entries.Length && Hashed(entries[..]) && e.isValid && e.hash == HashNumber(e.binary)
    modifies entries
    ensures NumberCells(entries[..]) == old(NumberCells(entries[..]))[i := NumberCellOf(e)] && Hashed(entries[..])
  {
    hide HashNumber;
    entries[i] := e;
  }

  method MoveNumber(moved: array<NumberEntry>, entry: NumberEntry, ghost cells: seq<NumberCell>, ghost i: nat,
                    ghost n: nat, ghost sub: map<Word, nat>)
    requires i < |cells| && cells[i] == NumberCellOf(entry) && entry.isValid && entry.hash == HashNumber(entry.binary)
    requires Unique(cells) && Used(cells) < moved.Length && Moving(cells, i, NumberCells(moved[..]), n, sub)
    requires Hashed(moved[..]) && PowerOfTwo(moved.Length)
    modifies moved
    ensures Moving(cells, i + 1, NumberCells(moved[..]), n + 1, sub[entry.binary := entry.index])
    ensures Hashed(moved[..])
  {
    hide Moving, Unique, Used, Located, WellPlaced, NumberCells, Hashed, HashNumber;
    MovingRoom(cells, i, NumberCells(moved[..]), n, sub);
    var dest := FindNumberEntry(moved, entry.binary, entry.hash);
    MovingPut(cells, i, NumberCells(moved[..]), n, sub, dest);
    PutNumber(moved, dest, entry);
  }

  lemma HashedAt(es: seq<NumberEntry>, i: nat)
    requires Hashed(es) && i < |es|
    ensures if es[i].isValid then es[i].hash == HashNumber(es[i].binary) else es[i].index == UINT32_MAX
  {
  }

  method RebuildNumbers(entries: array<NumberEntry>, capacity: nat, ghost m: map<Word, nat>)
    returns (moved: array<NumberEntry>, count: nat)
    requires Probed(NumberCells(entries[..]), m) && Used(NumberCells(entries[..])) < capacity && Hashed(entries[..])
    requires PowerOfTwo(capacity)
    ensures fresh(moved) && moved.Length == capacity && Probed(NumberCells(moved[..]), m) && Hashed(moved[..])
    ensures count == Used(NumberCells(moved[..])) <= Used(NumberCells(entries[..]))
  {
    moved := new NumberEntry[capacity](_ => NumberEntry(0, 0xFFFF_FFFF_FFFF_FFFF, false, UINT32_MAX));
    count := 0;
    ghost var cells, sub: map<Word, nat> := NumberCells(entries[..]), map[];
    MovingStart(cells, NumberCells(moved[..]));
    assert Hashed(moved[..]);
    hide Moving, Used, Holds, Unique, WellPlaced, NumberCells, Hashed, HashNumber;
    for i := 0 to entries.Length
      invariant NumberCells(entries[..]) == cells && Moving(cells, i, NumberCells(moved[..]), count, sub)
      invariant Hashed(moved[..])
    {
      var entry := entries[i];
      NumberCellsAt(entries[..], i);
      HashedAt(entries[..], i);
      if !entry.isValid {
        MovingSkip(cells, i, NumberCells(moved[..]), count, sub);
      } else {
        CellHeld(cells, m, i);
        MoveNumber(moved, entry, cells, i, count, sub);
        count := count + 1;
        sub := sub[entry.binary := entry.index];
      }
    }
    MovingDone(cells, NumberCells(moved[..]), count, m, sub);
  }

  class NumberTable {
    var count: nat
    var capacity: nat
    var entries: array<NumberEntry>
    ghost var contents: map<Word, nat>

    ghost predicate Valid()
      reads this, entries
    {
      && entries.Length == capacity && Capacity(capacity)
      && Probed(NumberCells(entries[..]), contents) && Hashed(entries[..])
      && count == Used(NumberCells(entries[..])) && count <= capacity * 3 / 4
    }

    constructor ()
      ensures Valid() && contents == map[] && fresh(entries)
    {
      count := 0;
      capacity := 0;
      entries := new NumberEntry[0];
      contents := map[];
    }

    method Reserve()
      requires Valid()
      modifies this`count, this`capacity, this`entries
      ensures Valid() && count + 1 <= capacity * 3 / 4
      ensures (entries == old(entries) && unchanged(entries)) || fresh(entries)
    {
      if count + 1 > capacity * 3 / 4 {
        GrowCapacity(capacity);
        var moved, newCount := RebuildNumbers(entries, Grow(capacity), contents);
        entries, capacity, count := moved, Grow(capacity), newCount;
      }
    }

    lemma Room()
      requires Valid() && capacity > 0
      ensures WellPlaced(NumberCells(entries[..])) && Used(NumberCells(entries[..])) < capacity && Hashed(entries[..])
      ensures PowerOfTwo(capacity)
    {
      hide HashNumber;
    }

    /** Where a search for n ended, and what filling that cell does. */
    lemma At(n: Word, i: nat, constant: nat)
      requires Valid() && Located(NumberCells(entries[..]), n, HashNumber(n), i)
      ensures i < capacity
      ensures if n in contents then entries[i].isValid && entries[i].binary == n && contents[n] == entries[i].index
              else !entries[i].isValid && entries[i].index == UINT32_MAX
      ensures var cells := NumberCells(entries[..])[i := Live(n, HashNumber(n), constant)];
        && Probed(cells, contents[n := constant])
        && Used(cells) == Used(NumberCells(entries[..])) + if entries[i].isValid then 0 else 1
    {
      hide HashNumber;
      NumberHashesAgree(entries[..], n);
      assert Has(NumberCells(entries[..])[i], n) ==> i in Hits(NumberCells(entries[..]), n);
      Entered(NumberCells(entries[..]), contents, n, HashNumber(n), constant, i);
      NumberCellsAt(entries[..], i);
    }

    /** The cell of a number, which it takes now if it had none. */
    method GetNumberEntry(n: Word) returns (index: nat)
      requires Valid()
      modifies this, entries
      ensures Valid() && (entries == old(entries) || fresh(entries))
      ensures contents == if n in old(contents) then old(contents) else old(contents)[n := UINT32_MAX]
      ensures index < capacity == entries.Length && entries[index].isValid && entries[index].binary == n
      ensures entries[index].index == contents[n]
    {
      hide Probed, Used, Capacity, Located, NumberCells, HashNumber, Hashed, WellPlaced;
      Reserve();
      Room();
      var hash := HashNumber(n);
      index := FindNumberEntry(entries, n, hash);
      At(n, index, UINT32_MAX);
      if !entries[index].isValid {
        count := count + 1;
        PutNumber(entries, index, NumberEntry(n, hash, true, entries[index].index));
        contents := contents[n := UINT32_MAX];
        Filled(n, index);
      }
    }

    lemma Filled(n: Word, i: nat)
      requires i < entries.Length && NumberCells(entries[..])[i] == Live(n, HashNumber(n), UINT32_MAX)
      ensures entries[i].isValid && entries[i].binary == n && entries[i].index == UINT32_MAX
    {
      NumberCellsAt(entries[..], i);
    }

    method SetIndex(index: nat, constant: nat)
      requires Valid() && index < capacity && entries[index].isValid
      modifies this`contents, entries
      ensures Valid() && contents == old(contents)[old(entries[index].binary) := constant]
    {
      hide Probed, Used, Capacity, Located, NumberCells, HashNumber, Hashed;
      var entry := entries[index];
      NumberCellsAt(entries[..], index);
      HashedAt(entries[..], index);
      LocatedAt(NumberCells(entries[..]), entry.binary, entry.hash, index);
      At(entry.binary, index, constant);
      PutNumber(entries, index, entry.(index := constant));
      contents := contents[entry.binary := constant];
    }
  }
}
