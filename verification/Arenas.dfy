/** One 16 KB arena of the slab allocator: its geometry, its free list and its bump tail. */
module Arenas {
  import opened Types
  import opened Memory
  import opened Links

  const ARENA_SIZE: nat := 16384
  const SLOT_CLASSES: nat := 6
  const HEADER_BYTES: nat := 32
  const SLOT_SIZE_MIN: nat := 8
  const SLOT_SIZE_MAX: nat := 256
  const SLOT_NONE: nat := 0xFFFF_FFFF

  type class_ = c: nat | c < SLOT_CLASSES

  // ---- Geometry ----

  function ClassSize(c: class_): (n: nat)
    ensures 8 <= n <= 256 && ARENA_SIZE % n == 0 && n % 8 == 0
  {
    match c
    case 0 => 8
    case 1 => 16
    case 2 => 32
    case 3 => 64
    case 4 => 128
    case _ => 256
  }

  function TotalSlots(c: class_): (n: nat)
    ensures n * ClassSize(c) == ARENA_SIZE
  {
    match c
    case 0 => 2048
    case 1 => 1024
    case 2 => 512
    case 3 => 256
    case 4 => 128
    case _ => 64
  }

  /** The slots that the header takes up. */
  function HeaderSlots(c: class_): (n: nat)
    ensures n == (HEADER_BYTES + ClassSize(c) - 1) / ClassSize(c) && n * ClassSize(c) >= HEADER_BYTES
    ensures n + 63 <= TotalSlots(c)
  {
    match c
    case 0 => 4
    case 1 => 2
    case _ => 1
  }

  function Capacity(c: class_): nat { TotalSlots(c) - HeaderSlots(c) }

  function BitLength(n: nat): nat {
    if n == 0 then 0 else 1 + BitLength(n / 2)
  }

  /** The class of a size is the bit length of its number of 8-byte units, less one unit. */
  function SlotClassIndexOf(size: nat): nat
    requires size >= 1
  {
    BitLength((size - 1) / 8)
  }

  /** It is the smallest class that holds the size. */
  lemma ClassFits(size: nat)
    requires 1 <= size <= SLOT_SIZE_MAX
    ensures SlotClassIndexOf(size) < SLOT_CLASSES
    ensures size <= ClassSize(SlotClassIndexOf(size))
    ensures forall c: class_ :: size <= ClassSize(c) ==> SlotClassIndexOf(size) <= c
  {
    var u := (size - 1) / 8;
    assert u < 32;
    assert BitLength(u) == if u == 0 then 0 else if u < 2 then 1 else if u < 4 then 2 else if u < 8 then 3
                           else if u < 16 then 4 else 5 by { SmallBitLength(u); }
  }

  lemma SmallBitLength(u: nat)
    requires u < 32
    ensures BitLength(u) == if u == 0 then 0 else if u < 2 then 1 else if u < 4 then 2 else if u < 8 then 3
                            else if u < 16 then 4 else 5
  {
    if u >= 1 { SmallBitLength(u / 2); }
  }

  // ---- Slots ----

  function Word(list: seq<nat>, i: nat): nat {
    if i < |list| then list[i] else SLOT_NONE
  }

  function SlotAt(base: nat, c: class_, s: nat): nat { base + s * ClassSize(c) }

  lemma SlotWithin(base: nat, c: class_, s: nat)
    requires s < TotalSlots(c)
    ensures base <= SlotAt(base, c, s) && SlotAt(base, c, s) + ClassSize(c) <= base + ARENA_SIZE
    ensures s >= HeaderSlots(c) ==> SlotAt(base, c, s) >= base + HEADER_BYTES
  {
    assert (s + 1) * ClassSize(c) <= TotalSlots(c) * ClassSize(c);
    if s >= HeaderSlots(c) { assert s * ClassSize(c) >= HeaderSlots(c) * ClassSize(c); }
  }

  lemma SlotsApart(base: nat, c: class_, s: nat, t: nat)
    requires s < t
    ensures SlotAt(base, c, s) + ClassSize(c) <= SlotAt(base, c, t)
  {
    assert (s + 1) * ClassSize(c) <= t * ClassSize(c);
  }

  /** The arena's free slots are those of its free list, threaded through the slots themselves, and the tail from
      `bump` on.  The bump position is not stored: it follows from the count when the list is empty. */
  ghost predicate ArenaOk(h: ArenaHead, mem: seq<byte>, base: nat, c: class_, free: seq<nat>, bump: nat) {
    && base + ARENA_SIZE <= |mem|
    && h.classSize == ClassSize(c) && h.headerSlots == HeaderSlots(c) && !h.dropped
    && HeaderSlots(c) <= bump <= TotalSlots(c)
    && NoDup(free) && (forall i :: 0 <= i < |free| ==> HeaderSlots(c) <= free[i] < bump)
    && h.freeSlotCount == |free| + (TotalSlots(c) - bump)
    && h.freeHead == Word(free, 0)
    && forall i :: 0 <= i < |free| ==> Linked(mem, base, c, free, i)
  }

  ghost predicate Linked(mem: seq<byte>, base: nat, c: class_, free: seq<nat>, i: nat)
    requires i < |free|
  {
    var p := SlotAt(base, c, free[i]);
    p + 4 <= |mem| && ReadWord(mem, p) == Word(free, i + 1)
  }

  predicate LiveSlot(c: class_, free: seq<nat>, bump: nat, s: nat) {
    HeaderSlots(c) <= s < bump && s !in free
  }

  /** arenaInit: the list starts out empty, and all slots behind the header are in the bump tail. */
  function Initialized(h: ArenaHead, c: class_): ArenaHead {
    h.(classSize := ClassSize(c), headerSlots := HeaderSlots(c), freeSlotCount := Capacity(c), dropped := false,
       freeHead := SLOT_NONE)
  }

  lemma InitializedOk(h: ArenaHead, mem: seq<byte>, base: nat, c: class_)
    requires base + ARENA_SIZE <= |mem|
    ensures ArenaOk(Initialized(h, c), mem, base, c, [], HeaderSlots(c))
    ensures forall s :: !LiveSlot(c, [], HeaderSlots(c), s)
  {
  }

  /** Links do not matter here. */
  lemma RelinkedOk(h: ArenaHead, h1: ArenaHead, mem: seq<byte>, base: nat, c: class_, free: seq<nat>, bump: nat)
    requires ArenaOk(h, mem, base, c, free, bump) && SameBut(h, h1)
    ensures ArenaOk(h1, mem, base, c, free, bump)
  {
    hide Linked;
  }

  /** Nor do the bytes of live slots, or of other arenas. */
  lemma KeptOk(h: ArenaHead, mem: seq<byte>, mem1: seq<byte>, base: nat, c: class_, free: seq<nat>, bump: nat)
    requires ArenaOk(h, mem, base, c, free, bump) && |mem1| == |mem|
    requires forall i, x :: 0 <= i < |free| && SlotAt(base, c, free[i]) <= x < SlotAt(base, c, free[i]) + 4 && x < |mem| ==>
               mem1[x] == mem[x]
    ensures ArenaOk(h, mem1, base, c, free, bump)
  {
    forall i | 0 <= i < |free| ensures Linked(mem1, base, c, free, i) {
      assert Linked(mem, base, c, free, i);
      ReadKept(mem, mem1, SlotAt(base, c, free[i]));
    }
  }

  // ---- Claiming ----

  /** The slot that arenaSlotClaim takes: the head of the list, or the first of the derived bump tail. */
  function ClaimedSlot(h: ArenaHead, c: class_): int {
    if h.freeHead != SLOT_NONE then h.freeHead else TotalSlots(c) - h.freeSlotCount
  }

  function ClaimedHead(h: ArenaHead, mem: seq<byte>, base: nat, c: class_): ArenaHead
    requires h.freeSlotCount > 0 && 0 <= h.freeHead
    requires h.freeHead != SLOT_NONE ==> SlotAt(base, c, h.freeHead) + 4 <= |mem|
  {
    h.(freeHead := if h.freeHead != SLOT_NONE then ReadWord(mem, SlotAt(base, c, h.freeHead)) else h.freeHead,
       freeSlotCount := h.freeSlotCount - 1)
  }

  function ClaimedFree(free: seq<nat>): seq<nat> { if free == [] then [] else free[1..] }

  function ClaimedBump(free: seq<nat>, bump: nat): nat { if free == [] then bump + 1 else bump }

  lemma SmallSlots(c: class_)
    ensures TotalSlots(c) < SLOT_NONE
  {
  }

  /** A claim takes a slot that was not live, makes exactly that one live, and keeps the arena in order. */
  lemma ClaimOk(h: ArenaHead, mem: seq<byte>, base: nat, c: class_, free: seq<nat>, bump: nat)
    requires ArenaOk(h, mem, base, c, free, bump) && h.freeSlotCount > 0
    ensures 0 <= h.freeHead && (h.freeHead != SLOT_NONE ==> SlotAt(base, c, h.freeHead) + 4 <= |mem|)
    ensures ArenaOk(ClaimedHead(h, mem, base, c), mem, base, c, ClaimedFree(free), ClaimedBump(free, bump))
    ensures var s := ClaimedSlot(h, c);
            && HeaderSlots(c) <= s < TotalSlots(c) && !LiveSlot(c, free, bump, s)
            && forall t :: LiveSlot(c, ClaimedFree(free), ClaimedBump(free, bump), t) <==>
                           LiveSlot(c, free, bump, t) || t == s
  {
    hide SlotAt;
    SmallSlots(c);
    var f1 := ClaimedFree(free);
    if free != [] {
      assert Linked(mem, base, c, free, 0);
      assert free[0] < bump;
      forall i | 0 <= i < |f1| ensures Linked(mem, base, c, f1, i) { assert Linked(mem, base, c, free, i + 1); }
      assert free == [free[0]] + f1;
      assert free[0] !in f1;
    }
  }

  // ---- Releasing ----

  /** smallLayerFree pushes the slot onto the list; the slot's first word becomes the link. */
  function ReleasedHead(h: ArenaHead, s: nat): ArenaHead {
    h.(freeHead := s, freeSlotCount := h.freeSlotCount + 1)
  }

  lemma ReleaseOk(h: ArenaHead, mem: seq<byte>, base: nat, c: class_, free: seq<nat>, bump: nat, s: nat)
    requires ArenaOk(h, mem, base, c, free, bump) && LiveSlot(c, free, bump, s)
    ensures 0 <= h.freeHead < 0x1_0000_0000 && SlotAt(base, c, s) + ClassSize(c) <= base + ARENA_SIZE <= |mem|
    ensures ArenaOk(ReleasedHead(h, s), StoreWord(mem, SlotAt(base, c, s), h.freeHead), base, c, [s] + free, bump)
    ensures forall t :: LiveSlot(c, [s] + free, bump, t) <==> LiveSlot(c, free, bump, t) && t != s
  {
    hide SlotAt;
    SmallSlots(c);
    SlotWithin(base, c, s);
    var p := SlotAt(base, c, s);
    var m1 := StoreWord(mem, p, h.freeHead);
    var f1 := [s] + free;
    ReadStored(mem, p, h.freeHead);
    forall i | 0 <= i < |f1| ensures Linked(m1, base, c, f1, i) {
      if i > 0 {
        assert Linked(mem, base, c, free, i - 1) && f1[i] == free[i - 1] && free[i - 1] in free;
        if s < f1[i] { SlotsApart(base, c, s, f1[i]); } else { SlotsApart(base, c, f1[i], s); }
        ReadKept(mem, m1, SlotAt(base, c, f1[i]));
      }
    }
  }

  // ---- Full and empty ----

  lemma FullHasNoFree(h: ArenaHead, mem: seq<byte>, base: nat, c: class_, free: seq<nat>, bump: nat)
    requires ArenaOk(h, mem, base, c, free, bump)
    ensures h.freeSlotCount == 0 <==> (forall s :: HeaderSlots(c) <= s < TotalSlots(c) ==> LiveSlot(c, free, bump, s))
  {
    hide Linked;
    if h.freeSlotCount > 0 {
      if free != [] { assert free[0] in free; } else { assert !LiveSlot(c, free, bump, bump); }
      var s := if free != [] then free[0] else bump;
      assert HeaderSlots(c) <= s < TotalSlots(c) && !LiveSlot(c, free, bump, s);
    }
  }

  function Range(a: nat, b: nat): (r: set<nat>)
    requires a <= b
    ensures |r| == b - a && forall x :: x in r <==> a <= x < b
    decreases b - a
  {
    if a == b then {} else Range(a, b - 1) + {b - 1}
  }

  function Elements(list: seq<nat>): (r: set<nat>)
    requires NoDup(list)
    ensures |r| == |list| && forall x :: x in r <==> x in list
  {
    if list == [] then {}
    else
      assert list == [list[0]] + list[1..];
      assert list[0] !in list[1..];
      Elements(list[1..]) + {list[0]}
  }

  lemma SubsetFull<T>(s: set<T>, t: set<T>)
    requires s <= t && |s| == |t|
    ensures s == t
  {
    if s != t {
      var x :| x in t && x !in s;
      assert s <= t - {x};
      SubsetSize(s, t - {x});
    }
  }

  lemma SubsetSize<T>(s: set<T>, t: set<T>)
    requires s <= t
    ensures |s| <= |t|
  {
    if s != {} {
      var x :| x in s;
      SubsetSize(s - {x}, t - {x});
    }
  }

  /** An arena whose count says that all slots are free has no live slot. */
  lemma EmptyHasNoLive(h: ArenaHead, mem: seq<byte>, base: nat, c: class_, free: seq<nat>, bump: nat)
    requires ArenaOk(h, mem, base, c, free, bump)
    ensures h.freeSlotCount == Capacity(c) <==> (forall s :: !LiveSlot(c, free, bump, s))
  {
    hide Linked;
    var all := Range(HeaderSlots(c), bump);
    var listed := Elements(free);
    assert listed <= all;
    if h.freeSlotCount == Capacity(c) {
      SubsetFull(listed, all);
    } else {
      SubsetSize(listed, all);
      if listed == all { assert false; }
      var s :| s in all && s !in listed;
      assert LiveSlot(c, free, bump, s);
    }
  }
}
