/** The hash table of names that classes, instances and the globals use: linear probing, with tombstones. */
module Tables {
  import opened Types
  import opened Values
  import opened Probing
  import opened Strings

  /** A hole has no key and the value nil; a tombstone has no key and another value. */
  datatype Entry = Entry(key: ObjString?, value: Value)

  type TableCell = Cell<ObjString, Value>

  function CellOf(e: Entry): TableCell {
    if e.key != null then Live(e.key, e.key.hash, e.value) else if e.value.Nil? then Hole else Grave
  }

  function Cells(es: seq<Entry>): (cells: seq<TableCell>)
    ensures |cells| == |es|
  {
    seq(|es|, i requires 0 <= i < |es| => CellOf(es[i]))
  }

  lemma CellsAt(es: seq<Entry>, i: nat)
    requires i < |es|
    ensures Cells(es)[i] == CellOf(es[i])
  {
  }

  /** Searches change no more than the symbols of these keys, and those only to cells of the globals' table. */
  twostate predicate Cached(keys: set<ObjString>, isGlobal: bool, capacity: nat)
    reads keys`symbol
  {
    forall k :: k in keys ==> k.symbol == old(k.symbol) || (isGlobal && k.symbol < capacity)
  }

  /** A search: where the key is, or else the first cell free for it.  A search of the globals leaves in the key where
      the probe stopped: at the key, or at the hole. */
  method FindEntry(entries: array<Entry>, key: ObjString, isGlobal: bool) returns (index: nat)
    requires WellPlaced(Cells(entries[..])) && Used(Cells(entries[..])) < entries.Length && PowerOfTwo(entries.Length)
    modifies key`symbol
    ensures Located(Cells(entries[..]), key, key.hash, index)
    ensures if isGlobal then key.symbol < entries.Length else key.symbol == old(key.symbol)
    ensures index < entries.Length && (entries[index].key == null || entries[index].key == key)
    ensures (isGlobal && entries[index].key == key ==> key.symbol == index)
  {
    hide WellPlaced, Searching, Remaining, Located, FirstFree, Used, Cells;
    ghost var cells := Cells(entries[..]);
    ghost var hole := HoleExists(cells);
    index := Home(key.hash, entries.Length);
    var tombstone: int := -1;
    ghost var hits := Hits(cells, key);
    SearchStart(cells, hits, key.hash);
    while true
      invariant index < entries.Length && tombstone < entries.Length
      invariant Searching(cells, hits, key.hash, index, tombstone)
      invariant Cells(entries[..]) == cells && key.symbol == old(key.symbol)
      decreases Remaining(cells, key.hash, index)
    {
      var entry := entries[index];
      CellsAt(entries[..], index);
      if entry.key == null && entry.value.Nil? {
        HashesAgree(entries[..], key);
        SearchEnd(cells, hits, key.hash, index, tombstone);
        if isGlobal { key.symbol := index; }
        if tombstone >= 0 { index := tombstone; }
        LocatedFree(cells, key, key.hash, index);
        CellsAt(entries[..], index);
        return;
      }
      if entry.key == key {
        LocatedAt(cells, key, key.hash, index);
        if isGlobal { key.symbol := index; }
        return;
      }
      SearchStep(cells, hits, key.hash, index, tombstone, hole);
      if entry.key == null && tombstone < 0 { tombstone := index; }
      index := Advance(index, entries.Length);
    }
  }

  lemma HashesAgree(es: seq<Entry>, key: ObjString)
    ensures forall j :: j in Hits(Cells(es), key) ==>
              j < |Cells(es)| && Cells(es)[j].Live? && Cells(es)[j].hash == key.hash
  {
  }

  method PutAt(entries: array<Entry>, i: nat, e: Entry)
    requires i < entries.Length
    modifies entries
    ensures Cells(entries[..]) == old(Cells(entries[..]))[i := CellOf(e)]
  {
    entries[i] := e;
  }

  method MoveEntry(moved: array<Entry>, entry: Entry, isGlobal: bool, ghost cells: seq<TableCell>, ghost i: nat,
                   ghost n: nat, ghost sub: map<ObjString, Value>)
    requires i < |cells| && cells[i] == CellOf(entry) && entry.key != null
    requires Unique(cells) && Used(cells) < moved.Length && Moving(cells, i, Cells(moved[..]), n, sub)
    requires PowerOfTwo(moved.Length)
    modifies moved, entry.key`symbol
    ensures Moving(cells, i + 1, Cells(moved[..]), n + 1, sub[entry.key := entry.value])
    ensures if isGlobal then entry.key.symbol < moved.Length else entry.key.symbol == old(entry.key.symbol)
  {
    hide Moving, Unique, Used, Located, WellPlaced, Cells;
    MovingRoom(cells, i, Cells(moved[..]), n, sub);
    var dest := FindEntry(moved, entry.key, isGlobal);
    MovingPut(cells, i, Cells(moved[..]), n, sub, dest);
    PutAt(moved, dest, Entry(entry.key, entry.value));
  }

  method Rebuild(entries: array<Entry>, capacity: nat, isGlobal: bool, ghost m: map<ObjString, Value>)
    returns (moved: array<Entry>, count: nat)
    requires Probed(Cells(entries[..]), m) && Used(Cells(entries[..])) < capacity && PowerOfTwo(capacity)
    modifies m.Keys`symbol
    ensures fresh(moved) && moved.Length == capacity && Probed(Cells(moved[..]), m)
    ensures count == Used(Cells(moved[..])) <= Used(Cells(entries[..]))
    ensures Cached(m.Keys, isGlobal, capacity)
  {
    moved := new Entry[capacity](_ => Entry(null, Nil));
    count := 0;
    ghost var cells, sub: map<ObjString, Value> := Cells(entries[..]), map[];
    MovingStart(cells, Cells(moved[..]));
    hide Moving, Used, Holds, Unique, WellPlaced, Cells;
    for i := 0 to entries.Length
      invariant Cells(entries[..]) == cells && Moving(cells, i, Cells(moved[..]), count, sub)
      invariant Cached(m.Keys, isGlobal, capacity)
    {
      var entry := entries[i];
      CellsAt(entries[..], i);
      if entry.key == null {
        MovingSkip(cells, i, Cells(moved[..]), count, sub);
      } else {
        CellHeld(cells, m, i);
        MoveEntry(moved, entry, isGlobal, cells, i, count, sub);
        count := count + 1;
        sub := sub[entry.key := entry.value];
      }
    }
    MovingDone(cells, Cells(moved[..]), count, m, sub);
  }

  class Table {
    const isGlobal: bool
    var isFrozen: bool
    var count: nat
    var capacity: nat
    var entries: array<Entry>
    ghost var contents: map<ObjString, Value>

    /** The count is that of the keys and the tombstones together, and leaves a quarter of the cells holes. */
    ghost predicate Valid()
      reads this, entries
    {
      && entries.Length == capacity && Capacity(capacity)
      && Probed(Cells(entries[..]), contents)
      && count == Used(Cells(entries[..])) && count <= capacity * 3 / 4
    }

    constructor (isGlobal: bool)
      ensures Valid() && contents == map[] && fresh(entries) && !isFrozen && this.isGlobal == isGlobal
    {
      this.isGlobal := isGlobal;
      isFrozen := false;
      count := 0;
      capacity := 0;
      entries := new Entry[0];
      contents := map[];
    }

    lemma Pair(i: nat)
      requires Valid() && i < capacity
      ensures Unique(Cells(entries[..])) && Cells(entries[..])[i] == CellOf(entries[i])
      ensures entries[i].key != null ==> entries[i].key in contents && contents[entries[i].key] == entries[i].value
    {
    }

    /** What the cell shows where a search for key ended. */
    lemma At(key: ObjString, i: nat)
      requires Valid() && Located(Cells(entries[..]), key, key.hash, i)
      ensures i < capacity && Cells(entries[..])[i] == CellOf(entries[i])
      ensures if key in contents then entries[i].key == key && contents[key] == entries[i].value
              else entries[i].key == null
    {
      HoldsPut(Cells(entries[..]), contents, key, key.hash, Nil, i);
    }

    method Get(key: ObjString) returns (value: Option<Value>)
      requires Valid()
      modifies key`symbol
      ensures value == if key in contents then Some(contents[key]) else None
      ensures key.symbol == old(key.symbol) || (isGlobal && key.symbol < capacity)
    {
      if count == 0 {
        NothingHeld(Cells(entries[..]), contents);
        return None;
      }
      var index := FindEntry(entries, key, isGlobal);
      At(key, index);
      if entries[index].key == null { return None; }
      value := Some(entries[index].value);
    }

    /** Moves the keys, and no tombstone, to new cells. */
    method AdjustCapacity(newCapacity: nat)
      requires Valid() && Capacity(newCapacity) && count < newCapacity * 3 / 4
      modifies this`count, this`capacity, this`entries, contents.Keys`symbol
      ensures Valid() && capacity == newCapacity && count <= old(count) && fresh(entries)
      ensures Cached(old(contents.Keys), isGlobal, capacity)
    {
      var moved, newCount := Rebuild(entries, newCapacity, isGlobal, contents);
      entries, capacity, count := moved, newCapacity, newCount;
    }

    /** Grows the table when one more key or tombstone would leave fewer than a quarter of the cells holes. */
    method Reserve()
      requires Valid()
      modifies this`count, this`capacity, this`entries, contents.Keys`symbol
      ensures Valid() && count + 1 <= capacity * 3 / 4 && capacity >= old(capacity)
      ensures (entries == old(entries) && unchanged(entries)) || fresh(entries)
      ensures Cached(old(contents.Keys), isGlobal, capacity)
    {
      if count + 1 > capacity * 3 / 4 {
        GrowCapacity(capacity);
        AdjustCapacity(Grow(capacity));
      }
    }

    lemma Room()
      requires Valid() && count + 1 <= capacity * 3 / 4
      ensures WellPlaced(Cells(entries[..])) && Used(Cells(entries[..])) < entries.Length
    {
    }

    lemma AfterEntry(key: ObjString, i: nat, value: Value)
      requires Valid() && Located(Cells(entries[..]), key, key.hash, i)
      ensures i < capacity && (entries[i].key == null <==> key !in contents)
      ensures var cells := Cells(entries[..])[i := CellOf(Entry(key, value))];
        && Probed(cells, contents[key := value])
        && Used(cells) == Used(Cells(entries[..])) + if entries[i].key == null && entries[i].value.Nil? then 1 else 0
    {
      At(key, i);
      Entered(Cells(entries[..]), contents, key, key.hash, value, i);
    }

    method Enter(key: ObjString, value: Value) returns (isNewKey: bool)
      requires Valid() && count + 1 <= capacity * 3 / 4
      modifies this`count, this`contents, entries, key`symbol
      ensures Valid() && isNewKey == (key !in old(contents)) && contents == old(contents)[key := value]
      ensures Cached({key}, isGlobal, capacity)
    {
      hide Probed, Used, Capacity, Located, Cells;
      Room();
      CapacityPower(capacity);
      var index := FindEntry(entries, key, isGlobal);
      AfterEntry(key, index, value);
      isNewKey := entries[index].key == null;
      if isNewKey && entries[index].value.Nil? { count := count + 1; }
      PutAt(entries, index, Entry(key, value));
      contents := contents[key := value];
    }

    /** Stores the pair; true says that the key is new. */
    method Set(key: ObjString, value: Value) returns (isNewKey: bool)
      requires Valid()
      modifies this, entries, contents.Keys`symbol, key`symbol
      ensures Valid() && isFrozen == old(isFrozen) && capacity >= old(capacity)
      ensures isNewKey == (!isFrozen && key !in old(contents))
      ensures contents == if isFrozen then old(contents) else old(contents)[key := value]
      ensures Cached(old(contents.Keys) + {key}, isGlobal, capacity) && (entries == old(entries) || fresh(entries))
    {
      hide Probed, Used, Capacity, Located, Cells;
      if isFrozen { return false; }
      Reserve();
      isNewKey := Enter(key, value);
    }

    /** A new value for the key of a cell. */
    method Overwrite(index: nat, value: Value)
      requires Valid() && index < capacity && entries[index].key != null
      modifies this`contents, entries
      ensures Valid() && contents == old(contents)[old(entries[index].key) := value]
    {
      var key: ObjString := entries[index].key;
      Pair(index);
      LocatedAt(Cells(entries[..]), key, key.hash, index);
      Entered(Cells(entries[..]), contents, key, key.hash, value, index);
      hide Probed, Used, Capacity, Located, Cells;
      PutAt(entries, index, Entry(key, value));
      contents := contents[key := value];
    }

    /** A tombstone in place of the key of a cell. */
    method Bury(index: nat)
      requires Valid() && index < capacity && entries[index].key != null
      modifies this`contents, entries
      ensures Valid() && contents == old(contents) - {old(entries[index].key)}
    {
      ghost var key: ObjString := entries[index].key;
      Pair(index);
      Buried(Cells(entries[..]), contents, key, index);
      hide Probed, Used, Capacity, Located, Cells;
      PutAt(entries, index, Entry(null, Bool(true)));
      contents := contents - {key};
    }

    /** Leaves a tombstone in the key's cell; false says that there was nothing to delete. */
    method Delete(key: ObjString) returns (deleted: bool)
      requires Valid()
      modifies this`contents, entries, key`symbol
      ensures Valid() && deleted == (!isFrozen && key in old(contents))
      ensures contents == if deleted then old(contents) - {key} else old(contents)
      ensures Cached({key}, isGlobal, capacity)
    {
      if isFrozen { return false; }
      if count == 0 {
        NothingHeld(Cells(entries[..]), contents);
        return false;
      }
      var index := FindEntry(entries, key, isGlobal);
      At(key, index);
      if entries[index].key == null { return false; }
      Bury(index);
      deleted := true;
    }
  }

  /** The first i entries of `from`, which hold sub, were added to a table that held base. */
  ghost predicate Adding(from: Table, to: Table, i: nat, base: map<ObjString, Value>, sub: map<ObjString, Value>,
                         keys: set<ObjString>)
    reads from, from.entries, to, to.entries
  {
    && from != to && from.entries != to.entries && from.Valid() && to.Valid()
    && Copied(Cells(from.entries[..]), i, sub)
    && to.contents == (if to.isFrozen then base else base + sub)
    && from.contents.Keys + to.contents.Keys <= keys
  }

  method AddEntry(from: Table, to: Table, i: nat, ghost base: map<ObjString, Value>, ghost sub: map<ObjString, Value>,
                  ghost keys: set<ObjString>)
    returns (ghost sub': map<ObjString, Value>)
    requires Adding(from, to, i, base, sub, keys) && i < from.capacity
    modifies to, to.entries, keys`symbol
    ensures Adding(from, to, i + 1, base, sub', keys) && to.isFrozen == old(to.isFrozen)
    ensures to.entries == old(to.entries) || fresh(to.entries)
  {
    hide Table.Valid, Copied, Unique, Cells, Cached, CellOf;
    ghost var cells := Cells(from.entries[..]);
    sub' := AddingStep(from, i, sub);
    var entry := from.entries[i];
    if entry.key != null {
      MergePut(base, sub, entry.key, entry.value, keys);
      var _ := to.Set(entry.key, entry.value);
      assert Cells(from.entries[..]) == cells;
    }
  }

  lemma AddingStep(from: Table, i: nat, sub: map<ObjString, Value>) returns (sub': map<ObjString, Value>)
    requires from.Valid() && Copied(Cells(from.entries[..]), i, sub) && i < from.capacity
    ensures from.entries.Length == from.capacity && Copied(Cells(from.entries[..]), i + 1, sub')
    ensures sub' == if from.entries[i].key == null then sub else sub[from.entries[i].key := from.entries[i].value]
    ensures from.entries[i].key != null ==> from.entries[i].key in from.contents
  {
    hide Copied, Unique, Cells;
    from.Pair(i);
    CopiedStep(Cells(from.entries[..]), i, sub);
    sub' := if from.entries[i].key == null then sub else sub[from.entries[i].key := from.entries[i].value];
  }

  /** Copies every pair of one table into another, over what that one has for the same key. */
  method AddAll(from: Table, to: Table)
    requires from.Valid() && to.Valid() && from != to && from.entries != to.entries
    modifies to, to.entries, (from.contents.Keys + to.contents.Keys)`symbol
    ensures to.Valid() && from.Valid() && to.isFrozen == old(to.isFrozen)
    ensures to.contents == if to.isFrozen then old(to.contents) else old(to.contents) + from.contents
  {
    ghost var base, sub: map<ObjString, Value> := to.contents, map[];
    ghost var keys, first := from.contents.Keys + to.contents.Keys, to.entries;
    assert base + sub == base && Copied(Cells(from.entries[..]), 0, sub);
    assert Adding(from, to, 0, base, sub, keys);
    hide Adding, Table.Valid, Copied;
    for i := 0 to from.capacity
      invariant Adding(from, to, i, base, sub, keys) && (to.entries == first || fresh(to.entries))
      invariant to.isFrozen == old(to.isFrozen)
    {
      sub := AddEntry(from, to, i, base, sub, keys);
    }
    Added(from, to, base, sub, keys);
  }

  lemma Added(from: Table, to: Table, base: map<ObjString, Value>, sub: map<ObjString, Value>, keys: set<ObjString>)
    requires Adding(from, to, from.capacity, base, sub, keys)
    ensures from.Valid() && to.Valid() && to.contents == if to.isFrozen then base else base + from.contents
  {
    CopiedAll(Cells(from.entries[..]), from.contents, sub);
  }

  lemma MergePut(base: map<ObjString, Value>, sub: map<ObjString, Value>, key: ObjString, value: Value,
                 keys: set<ObjString>)
    ensures base + sub[key := value] == (base + sub)[key := value]
    ensures base.Keys <= keys && key in keys ==> base[key := value].Keys <= keys
    ensures (base + sub).Keys <= keys && key in keys ==> (base + sub)[key := value].Keys <= keys
  {
  }
}
