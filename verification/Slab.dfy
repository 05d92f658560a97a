/** The small-object allocator: one segment of 16 KB arenas, six slot classes. */
module Slab {
  import opened Types
  import opened Memory
  import opened Links
  import opened Arenas
  import opened Lists
  import opened Segments

  const TRIM_POOL_MAX_RESIDENT: nat := 256

  /** How the operating system answers: whether it commits fresh pages, and whether it takes dropped pages back. */
  datatype Os = Os(commits: bool, reuses: bool)

  // ---- Blocks, by address ----

  /** The block at p, of class c, is new. */
  ghost predicate Grew(G: Segment, G1: Segment, p: nat, c: class_) {
    && !IsLive(G, p) && IsLive(G1, p) && BlockSize(G1, p) == ClassSize(c)
    && (forall q: nat :: IsLive(G1, q) <==> IsLive(G, q) || q == p)
    && (forall q: nat :: IsLive(G, q) ==> BlockSize(G1, q) == BlockSize(G, q))
  }

  ghost predicate Shrank(G: Segment, G1: Segment, p: nat) {
    && IsLive(G, p)
    && (forall q: nat :: IsLive(G1, q) <==> IsLive(G, q) && q != p)
    && (forall q: nat :: IsLive(G1, q) ==> BlockSize(G1, q) == BlockSize(G, q))
  }

  ghost predicate SameBlocks(G: Segment, G1: Segment) {
    && (forall q: nat :: IsLive(G1, q) <==> IsLive(G, q))
    && (forall q: nat :: IsLive(G, q) ==> BlockSize(G1, q) == BlockSize(G, q))
  }

  /** Arenas with live slots keep their class. */
  ghost predicate KeepsClasses(G: Segment, G1: Segment) {
    |G.slots.cls| <= |G1.slots.cls| &&
    forall b: nat, t: nat :: b < |G.slots.cls| && LiveIn(G, b, t) ==> G1.slots.cls[b] == G.slots.cls[b]
  }

  lemma GainedBlock(G: Segment, G1: Segment, a: nat, s: nat)
    requires Gained(G, G1, a, s) && KeepsClasses(G, G1) && a < |G1.slots.cls| && s < TotalSlots(G1.slots.cls[a])
    requires |G.slots.cls| == |G.lists.place|
    ensures var c := G1.slots.cls[a]; Grew(G, G1, AddressOf(c, a, s), c)
  {
    hide LiveIn;
    var c := G1.slots.cls[a];
    var p := AddressOf(c, a, s);
    AddressSlot(c, a, s);
    forall q: nat ensures IsLive(G1, q) <==> IsLive(G, q) || q == p {
      var b := q / ARENA_SIZE;
      if b < |G1.slots.cls| && q % ClassSize(G1.slots.cls[b]) == 0 { SlotAddress(G1.slots.cls[b], q); }
      if IsLive(G, q) {
        assert LiveIn(G, b, q % ARENA_SIZE / ClassSize(G.slots.cls[b]));
      } else if IsLive(G1, q) {
        var t := q % ARENA_SIZE / ClassSize(G1.slots.cls[b]);
        assert LiveIn(G1, b, t);
        if LiveIn(G, b, t) { LiveBelow(G, b, t); }
      }
    }
    forall q: nat | IsLive(G, q) ensures BlockSize(G1, q) == BlockSize(G, q) {
      assert LiveIn(G, q / ARENA_SIZE, q % ARENA_SIZE / ClassSize(G.slots.cls[q / ARENA_SIZE]));
    }
  }

  lemma LiveBelow(G: Segment, b: nat, t: nat)
    requires LiveIn(G, b, t)
    ensures b < |G.slots.cls|
  {
  }

  lemma LostBlock(G: Segment, G1: Segment, a: nat, s: nat)
    requires Lost(G, G1, a, s) && G1.slots.cls == G.slots.cls && a < |G.slots.cls| && s < TotalSlots(G.slots.cls[a])
    ensures Shrank(G, G1, AddressOf(G.slots.cls[a], a, s))
  {
    hide LiveIn;
    var c := G.slots.cls[a];
    var p := AddressOf(c, a, s);
    AddressSlot(c, a, s);
    forall q: nat ensures IsLive(G1, q) <==> IsLive(G, q) && q != p {
      var b := q / ARENA_SIZE;
      if b < |G.slots.cls| && q % ClassSize(G.slots.cls[b]) == 0 { SlotAddress(G.slots.cls[b], q); }
    }
  }

  lemma SameSlots(G: Segment, G1: Segment)
    requires forall b: nat, t: nat :: LiveIn(G1, b, t) <==> LiveIn(G, b, t)
    requires G1.slots.cls == G.slots.cls
    ensures SameBlocks(G, G1)
  {
    hide LiveIn;
  }

  // ---- The allocator ----

  class Slab {
    const capacity: nat        // arenas in the reserved segment
    const mem: array<byte>
    var heads: seq<ArenaHead>  // of the carved arenas
    var committed: nat
    var partial: seq<int>
    var spare: seq<seq<nat>>
    var resident: int
    var residentCount: nat
    var revive: int

    ghost var place: seq<Place>
    ghost var chains: seq<seq<nat>>
    ghost var ring: seq<nat>
    ghost var revived: seq<nat>
    ghost var slots: Slots
    ghost var absent: set<nat>   // the arenas whose pages behind the first the system has taken back

    ghost function Where(): Lists
      reads this
    {
      Lists(partial, resident, residentCount, revive, place, chains, ring, revived)
    }

    ghost function Now(): Segment
      reads this
    {
      Segment(heads, Where(), slots, spare)
    }

    /** Only one arena may be on its way between two places. */
    ghost predicate ValidBut(a: int)
      reads this, mem
    {
      && SegmentOk(Now(), mem[..], a)
      && mem.Length == capacity * ARENA_SIZE && |heads| <= committed <= capacity && Marked(a)
    }

    /** Exactly the arenas whose pages are absent are marked. */
    ghost predicate Marked(a: int)
      reads this`heads, this`absent
    {
      forall b: nat :: b != a ==> (b in absent <==> b in Dropped(heads))
    }

    ghost predicate Valid()
      reads this, mem
    {
      ValidBut(-1)
    }

    /** A segment reserves its addresses; nothing is carved yet. */
    constructor (capacity: nat, mem: array<byte>)
      requires mem.Length == capacity * ARENA_SIZE
      ensures Valid() && this.mem == mem && this.capacity == capacity
      ensures forall p: nat :: !IsLive(Now(), p)
      ensures absent == {}
    {
      this.capacity := capacity;
      this.mem := mem;
      heads := [];
      committed := 0;
      partial := seq(SLOT_CLASSES, c => NONE);
      spare := seq(SLOT_CLASSES, c => []);
      resident := NONE;
      residentCount := 0;
      revive := NONE;
      place := [];
      chains := seq(SLOT_CLASSES, c => []);
      ring := [];
      revived := [];
      slots := Slots([], [], []);
      absent := {};
    }

    // ---- Links ----

    method SegmentPushArena(c: class_, a: nat)
      requires ListsOk(heads, Where()) && a < |heads| && place[a] == Off
      modifies this`heads, this`partial, this`place, this`chains
      ensures Where() == Chained(old(Where()), c, a) && |heads| == |old(heads)|
      ensures ListsOk(heads, Where()) && Moved(old(heads), heads, old(Where()), a)
      ensures Dropped(heads) == Dropped(old(heads))
    {
      hide Dropped, ListsOk, Moved;
      ChainedShape(heads, Where());
      ChainedOk(heads, Where(), c, a);
      var headOffset := partial[c];
      heads := heads[a := heads[a].(prev := NONE, next := headOffset)];
      if headOffset != NONE {
        ListLink(old(heads), old(Where()), c);
        heads := heads[headOffset := heads[headOffset].(prev := a)];
      }
      partial := partial[c := a];
      place := place[a := OnChain(c)];
      chains := chains[c := [a] + chains[c]];
      assert heads == PushChain(old(heads), old(partial[c]), a);
      MovedDropped(old(heads), heads, old(Where()), a);
    }

    /** The head of the chain leaves: its last free slot was just claimed. */
    method ArenaPopHead(c: class_, a: nat)
      requires ListsOk(heads, Where()) && partial[c] == a
      modifies this`heads, this`partial, this`place, this`chains
      ensures a < |old(heads)| && old(place)[a] == OnChain(c) && place == old(place)[a := Off]
      ensures |heads| == |old(heads)| && ListsOk(heads, Where()) && Moved(old(heads), heads, old(Where()), a)
      ensures heads[a].next == UNLINKED == heads[a].prev
      ensures Dropped(heads) == Dropped(old(heads))
    {
      hide Dropped, ListsOk, Moved, Delink;
      ChainedShape(heads, Where());
      ChainStart(heads, Where(), c);
      UnchainedOk(heads, Where(), c, 0);
      var next := heads[a].next;
      if next != NONE {
        LinkRange(old(heads), old(Where()), c, 0);
        heads := heads[next := heads[next].(prev := NONE)];
      }
      partial := partial[c := next];
      heads := heads[a := heads[a].(next := UNLINKED, prev := UNLINKED)];
      place := place[a := Off];
      chains := chains[c := Without(chains[c], 0)];
      HeadDelinked(old(heads), heads, a);
      assert Where() == Unchained(old(Where()), c, 0, next);
      MovedDropped(old(heads), heads, old(Where()), a);
    }

    /** An arena leaves its chain from any position: the links alone tell where it is. */
    method ChainDelink(c: class_, a: nat, ghost i: nat)
      requires |partial| == SLOT_CLASSES == |chains| && i < |chains[c]| && chains[c][i] == a < |heads| == |place|
      requires heads[a].prev == NONE || 0 <= heads[a].prev < |heads|
      requires heads[a].next == NONE || 0 <= heads[a].next < |heads|
      requires heads[a].prev == NONE <==> i == 0
      modifies this`heads, this`partial, this`place, this`chains
      ensures heads == Delink(old(heads), a) && Where() == Unchained(old(Where()), c, i, old(heads[a].next))
      ensures Dropped(heads) == Dropped(old(heads))
    {
      hide Delink, Without;
      if heads[a].prev == NONE { partial := partial[c := heads[a].next]; }
      heads := JoinNeighbours(heads, a);
      place := place[a := Off];
      chains := chains[c := Without(chains[c], i)];
      DelinkDropped(old(heads), a);
    }

    method SegmentRingPush(a: nat)
      requires ListsOk(heads, Where()) && a < |heads| && place[a] == Off
      modifies this`heads, this`resident, this`residentCount, this`place, this`ring
      ensures Where() == Park(old(Where()), a)
      ensures ListsOk(heads, Where()) && Moved(old(heads), heads, old(Where()), a)
      ensures Dropped(heads) == Dropped(old(heads))
    {
      ChainedShape(heads, Where());
      hide Dropped, ListsOk, Moved;
      ParkOk(heads, Where(), a);
      if residentCount == 0 {
        heads := heads[a := heads[a].(next := a, prev := a)];
      } else {
        var headOffset := resident;
        var tailOffset := heads[headOffset].prev;
        heads := heads[a := heads[a].(next := headOffset, prev := tailOffset)];
        heads := heads[tailOffset := heads[tailOffset].(next := a)];
        heads := heads[headOffset := heads[headOffset].(prev := a)];
      }
      assert heads == RingPush(old(heads), old(resident), old(residentCount), a);
      resident := a;
      residentCount := residentCount + 1;
      place := place[a := Parked];
      ring := [a] + ring;
      MovedDropped(old(heads), heads, old(Where()), a);
    }

    /** A member leaves the ring: the same relinking for the head, the tail and a singleton. */
    method SegmentRingDelink(a: nat, ghost tail: bool)
      requires ListsOk(heads, Where()) && residentCount > 0 && |ring| > 0
      requires a == (if tail then ring[|ring| - 1] else ring[0])
      modifies this`heads, this`resident, this`residentCount, this`place, this`ring
      ensures a < |heads| == |old(heads)| && old(place)[a] == Parked && place == old(place)[a := Off]
      ensures ListsOk(heads, Where()) && Moved(old(heads), heads, old(Where()), a)
      ensures heads[a].next == UNLINKED == heads[a].prev
      ensures residentCount == old(residentCount) - 1
      ensures ring == (if tail then old(ring)[..|old(ring)| - 1] else old(ring)[1..])
      ensures Dropped(heads) == Dropped(old(heads))
    {
      ChainedShape(heads, Where());
      RingCount(heads, Where());
      hide Dropped, ListsOk, Moved, RingDelink, Unpark;
      UnparkOk(heads, Where(), tail);
      UnparkIs(Where(), tail, heads[a].next);
      ghost var L1 := Unpark(Where(), tail, heads[a].next);
      var nextOffset := heads[a].next;
      heads := JoinInRing(heads, a);
      resident := if nextOffset == a then NONE else nextOffset;
      residentCount := residentCount - 1;
      place := L1.place;
      ring := L1.ring;
      assert Where() == L1;
      MovedDropped(old(heads), heads, old(Where()), a);
    }

    /** The hottest arena of the ring. */
    method SegmentRingPopHead() returns (a: int)
      requires ListsOk(heads, Where())
      modifies this`heads, this`resident, this`residentCount, this`place, this`ring
      ensures ListsOk(heads, Where())
      ensures a == NONE <==> old(residentCount) == 0
      ensures a == NONE ==> unchanged(this)
      ensures a != NONE ==>
                0 <= a < |heads| == |old(heads)| && old(place)[a] == Parked && place == old(place)[a := Off]
                && Moved(old(heads), heads, old(Where()), a)
      ensures Dropped(heads) == Dropped(old(heads))
    {
      if residentCount == 0 { return NONE; }
      RingCount(heads, Where());
      RingStart(heads, Where());
      hide Dropped, ListsOk, Moved;
      a := resident;
      SegmentRingDelink(a, false);
    }

    /** The coldest arena of the ring. */
    method SegmentRingPopTail() returns (a: int)
      requires ListsOk(heads, Where())
      modifies this`heads, this`resident, this`residentCount, this`place, this`ring
      ensures ListsOk(heads, Where())
      ensures a == NONE <==> old(residentCount) == 0
      ensures a == NONE ==> unchanged(this)
      ensures a != NONE ==>
                0 <= a < |heads| == |old(heads)| && old(place)[a] == Parked && place == old(place)[a := Off]
                && Moved(old(heads), heads, old(Where()), a)
                && |old(ring)| > 0 && a == old(ring)[|old(ring)| - 1] && ring == old(ring)[..|old(ring)| - 1]
      ensures Dropped(heads) == Dropped(old(heads))
    {
      if residentCount == 0 { return NONE; }
      RingCount(heads, Where());
      RingStart(heads, Where());
      hide Dropped, ListsOk, Moved;
      a := heads[resident].prev;
      SegmentRingDelink(a, true);
    }

    method SegmentPushRevive(a: nat)
      requires ListsOk(heads, Where()) && a < |heads| && place[a] == Off
      modifies this`heads, this`revive, this`place, this`revived
      ensures |heads| == |old(heads)| && Where() == Return(old(Where()), a)
      ensures ListsOk(heads, Where()) && Moved(old(heads), heads, old(Where()), a)
      ensures Dropped(heads) == Dropped(old(heads))
    {
      ChainedShape(heads, Where());
      hide Dropped, ListsOk, Moved;
      ReturnOk(heads, Where(), a);
      heads := heads[a := heads[a].(next := revive, prev := UNLINKED)];
      revive := a;
      place := place[a := Returned];
      revived := [a] + revived;
      MovedDropped(old(heads), heads, old(Where()), a);
    }

    method SegmentPopRevive() returns (a: int)
      requires ListsOk(heads, Where())
      modifies this`heads, this`revive, this`place, this`revived
      ensures ListsOk(heads, Where())
      ensures a == NONE <==> old(revive) == NONE
      ensures a == NONE ==> unchanged(this)
      ensures a != NONE ==>
                a == old(revive) && 0 <= a < |heads| == |old(heads)| && old(place)[a] == Returned && place == old(place)[a := Off]
                && Moved(old(heads), heads, old(Where()), a) && heads[a].next == UNLINKED == heads[a].prev
      ensures Dropped(heads) == Dropped(old(heads))
    {
      if revive == NONE { return NONE; }
      ChainedShape(heads, Where());
      hide Dropped, ListsOk, Moved;
      UnreturnOk(heads, Where());
      a := revive;
      revive := heads[a].next;
      heads := heads[a := heads[a].(next := UNLINKED)];
      place := place[a := Off];
      revived := revived[1..];
      assert Where() == Unreturn(old(Where()), old(heads[revive].next));
      MovedDropped(old(heads), heads, old(Where()), a);
    }

    // ---- Allocation ----

    /** Takes a slot of an arena: the head of its free list, or the first slot of its bump tail. */
    method ArenaSlotClaim(a: nat, c: class_) returns (slot: Option<nat>)
      requires a < |heads| == |slots.free| == |slots.bump|
      requires ArenaOk(heads[a], mem[..], a * ARENA_SIZE, c, slots.free[a], slots.bump[a])
      modifies this`heads, this`slots
      ensures slot.Some? <==> old(heads[a].freeSlotCount) > 0
      ensures slot.None? ==> unchanged(this)
      ensures slot.Some? ==>
                slot.value == ClaimedSlot(old(heads[a]), c) && 0 <= old(heads[a].freeHead)
                && (old(heads[a].freeHead) != SLOT_NONE ==> SlotAt(a * ARENA_SIZE, c, old(heads[a].freeHead)) + 4 <= mem.Length)
                && heads == old(heads)[a := ClaimedHead(old(heads[a]), mem[..], a * ARENA_SIZE, c)]
                && slots == ClaimedSlots(old(slots), a)
      ensures Dropped(heads) == Dropped(old(heads))
    {
      ClaimReady(heads[a], mem[..], a * ARENA_SIZE, c, slots.free[a], slots.bump[a]);
      hide Dropped, ArenaOk, SlotAt;
      var slotIndex := heads[a].freeHead;
      if slotIndex != SLOT_NONE {
        heads := heads[a := heads[a].(freeHead := ReadWord(mem[..], SlotAt(a * ARENA_SIZE, c, slotIndex)))];
      } else {
        var totalSlots := TotalSlots(c);
        slotIndex := totalSlots - heads[a].freeSlotCount;
        if slotIndex >= totalSlots { return None; }
      }
      heads := heads[a := heads[a].(freeSlotCount := heads[a].freeSlotCount - 1)];
      SetDropped(old(heads), a, heads[a]);
      slots := ClaimedSlots(slots, a);
      slot := Some(slotIndex);
    }

    /** A block of class c.  None exactly when no arena of the class has a free slot, no arena is parked, and neither a
        returned arena nor a new one can be had. */
    method SmallLayerAlloc(c: class_, os: Os) returns (p: Option<nat>)
      requires Valid()
      modifies this
      ensures Valid()
      ensures p.Some? ==> Grew(old(Now()), Now(), p.value, c)
      ensures p.None? ==> SameBlocks(old(Now()), Now())
      ensures p.None? <==> Exhausted(old(Now()), c, os, capacity, old(committed))
    {
      hide SegmentOk, Grew, SameBlocks;
      ValidLists(Now(), mem[..]);
      hide ListsOk, ArenaOk;
      var offset := partial[c];
      if offset != NONE {
        ChainReady(Now(), mem[..], c);
        if !heads[offset].dropped && heads[offset].freeSlotCount > 0 {
          p := ClaimHead(c, offset);
          return;
        }
      }
      p := SmallLayerAllocSlow(c, os);
    }

    /** The head of a class chain is never full, as an arena leaves the chain with its last slot. */
    method ClaimHead(c: class_, a: nat) returns (p: Option<nat>)
      requires Valid() && partial[c] == a
      modifies this
      ensures Valid() && p.Some? && Grew(old(Now()), Now(), p.value, c)
    {
      hide Dropped, SegmentOk, ArenaOk, ListsOk, SparesOk, ArenaHere, Gained, LiveIn, ClaimedHead, ClaimedSlots,
           ClaimedSlot, Moved, IsLive, BlockSize, Grew, Shaped;
      ghost var G, bytes := Now(), mem[..];
      ValidLists(G, bytes);
      HeadReady(G, bytes, c, a);
      ghost var M := Claimed(G, bytes, c, a);
      var slot := ArenaSlotClaim(a, c);
      assert mem[..] == bytes;
      assert Now() == M;
      if heads[a].freeSlotCount == 0 {
        ArenaPopHead(c, a);
        assert mem[..] == bytes;
        FilledStep(M, Now(), bytes, c, a);
      }
      GainedSame(G, M, Now(), a, slot.value);
      GainedBlock(G, Now(), a, slot.value);
      p := Some(AddressOf(c, a, slot.value));
    }

    method SmallLayerAllocSlow(c: class_, os: Os) returns (p: Option<nat>)
      requires Valid()
      modifies this
      ensures Valid()
      ensures p.Some? ==> Grew(old(Now()), Now(), p.value, c)
      ensures p.None? ==> SameBlocks(old(Now()), Now())
      ensures p.None? <==> Exhausted(old(Now()), c, os, capacity, old(committed))
    {
      ghost var G := Now();
      ValidLists(G, mem[..]);
      ghost var bytes := mem[..];
      hide Dropped, SegmentOk, ArenaOk, LiveIn, ListsOk, IsLive, BlockSize, Grew, SameBlocks, OnItsWay, Moved, Shaped,
           Unavailable;
      var offset := partial[c];
      if offset != NONE {
        ChainReady(G, bytes, c);
        if heads[offset].dropped || heads[offset].classSize != ClassSize(c) { return None; }
        p := ClaimHead(c, offset);
        return;
      }
      ExhaustedChain(G, c, os, capacity, committed);
      var a := FindArena(c, os);
      if a == NONE { return None; }
      p := Refill(G, a, c);
    }

    /** The chain of the class being empty: an emptied arena, its pages taken back if they were dropped, or a new one. */
    method FindArena(c: class_, os: Os) returns (a: int)
      requires Valid()
      modifies this
      ensures a == NONE <==> Unavailable(old(Now()), os, capacity, old(committed))
      ensures a == NONE ==> Valid() && SameBlocks(old(Now()), Now())
      ensures a != NONE ==> 0 <= a < |heads| && ValidBut(a) && place[a] == Off && OnItsWay(old(Now()), Now(), a)
      ensures a != NONE ==> a !in absent
    {
      hide Dropped, SegmentOk, LiveIn, ListsOk, IsLive, BlockSize, SameBlocks, OnItsWay, Moved, Shaped;
      ghost var G := Now();
      ReviveRange(G, mem[..]);
      a := TakeShell();
      if a == NONE {
        SameSegment(G);
        a := CommitArena(c, os);
        return;
      }
      SetDropped(heads, a, heads[a]);
      if heads[a].dropped {
        var ok := OsPagesReuse(a, os);
        if !ok {
          PutShellBack(G, a);
          a := NONE;
        }
      }
    }

    /** The pages of the arena behind the first, had back from the system. */
    method OsPagesReuse(a: nat, os: Os) returns (ok: bool)
      modifies this`absent
      ensures ok == os.reuses && absent == if ok then old(absent) - {a} else old(absent)
    {
      ok := os.reuses;
      if ok { absent := absent - {a}; }
    }

    /** The emptied arena returns to the revive chain, as its pages are not to be had. */
    method PutShellBack(ghost G: Segment, a: nat)
      requires ValidBut(a) && a < |heads| && place[a] == Off && OnItsWay(G, Now(), a) && ListsOk(heads, Where())
      requires slots == G.slots && Marked(-1)
      modifies this`heads, this`revive, this`revived, this`place
      ensures Valid() && SameBlocks(G, Now())
    {
      hide Dropped, SegmentOk, LiveIn, ListsOk, IsLive, BlockSize, SameBlocks, OnItsWay, Moved, Shaped;
      ghost var G1, bytes := Now(), mem[..];
      SegmentPushRevive(a);
      assert mem[..] == bytes;
      PutBack(G, G1, Now(), bytes, a);
    }

    /** A new arena, if the reserved address space has room for it and its pages can be had. */
    method CommitArena(c: class_, os: Os) returns (a: int)
      requires Valid()
      modifies this`heads, this`place, this`slots, this`committed
      ensures a == NONE <==> |old(heads)| >= capacity || (|old(heads)| + 1 > old(committed) && !os.commits)
      ensures a == NONE ==> Valid() && Now() == old(Now())
      ensures a != NONE ==> a == |old(heads)| < |heads| && ValidBut(a) && place[a] == Off && OnItsWay(old(Now()), Now(), a)
      ensures a != NONE ==> a !in absent
    {
      hide Dropped, SegmentOk, LiveIn, ListsOk, IsLive, BlockSize, SameBlocks, OnItsWay, Moved, Shaped;
      if |heads| >= capacity { return NONE; }
      if |heads| + 1 > committed {
        if !os.commits { return NONE; }
        committed := |heads| + 1;
      }
      a := SegmentCarveArena(c);
    }

    /** An emptied arena: the hottest of the ring, or else one of the revive chain. */
    method TakeShell() returns (a: int)
      requires Valid()
      modifies this`heads, this`resident, this`residentCount, this`place, this`ring, this`revive, this`revived
      ensures a == NONE <==> old(residentCount) == 0 && old(revive) == NONE
      ensures a == NONE ==> unchanged(this)
      ensures a != NONE ==>
                0 <= a < |heads| == |old(heads)| && ValidBut(a) && place[a] == Off && OnItsWay(old(Now()), Now(), a)
                && ListsOk(heads, Where()) && Marked(-1)
                && heads[a].dropped == (old(residentCount) == 0 && 0 <= old(revive) < |old(heads)| && old(heads)[old(revive)].dropped)
    {
      ghost var G := Now();
      ValidLists(G, mem[..]);
      hide Dropped, SegmentOk, LiveIn, ListsOk;
      ghost var bytes := mem[..];
      hide Moved, OnItsWay, Shaped;
      a := SegmentRingPopHead();
      assert mem[..] == bytes;
      if a != NONE {
        Shell(G, Now(), bytes, a);
        return;
      }
      a := SegmentPopRevive();
      assert mem[..] == bytes;
      if a != NONE { Shell(G, Now(), bytes, a); }
    }

    /** Moves the frontier over one more arena, which is on no list yet. */
    method SegmentCarveArena(c: class_) returns (a: nat)
      requires Valid() && |heads| < committed <= capacity
      modifies this`heads, this`place, this`slots
      ensures a == |old(heads)| < |heads| && ValidBut(a) && place[a] == Off && OnItsWay(old(Now()), Now(), a)
      ensures a !in absent
    {
      ghost var G := Now();
      CarveRoom(|heads|, capacity);
      a := |heads|;
      NotLive(G, mem[..], a);
      hide Dropped, SegmentOk, LiveIn;
      MoreDropped(heads, ArenaHead(0, 0, 0, false, SLOT_NONE, UNLINKED, UNLINKED));
      heads := heads + [ArenaHead(0, 0, 0, false, SLOT_NONE, UNLINKED, UNLINKED)];
      place := place + [Off];
      slots := Slots(slots.cls + [c], slots.free + [[]], slots.bump + [HeaderSlots(c)]);
      CarveStep(G, Now(), mem[..], heads[a], c);
    }

    /** Initializes an arena that is on its way, chains it, and takes its first slot. */
    method Refill(ghost G: Segment, a: nat, c: class_) returns (p: Option<nat>)
      requires ValidBut(a) && a < |heads| && place[a] == Off
      requires OnItsWay(G, Now(), a) && a !in absent
      modifies this
      ensures Valid() && p.Some? && Grew(G, Now(), p.value, c)
    {
      hide Dropped, ArenaOk, SparesOk, ArenaHere, LiveIn, ListsOk, IsLive, BlockSize;
      ghost var G1 := Now();
      heads := heads[a := Initialized(heads[a], c)];
      SetDropped(G1.heads, a, heads[a]);
      FreshShape(G1, mem[..], a);
      slots := FreshSlots(slots, a, c);
      ghost var mid := heads;
      FreshLists(G1, mem[..], c, a);
      SegmentPushArena(c, a);
      ghost var G2 := Now();
      FreshStep(G1, G2, mem[..], c, a);
      ClaimStep(G2, mem[..], c, a);
      ClaimableFacts(G2, mem[..], c, a);
      FreshCount(G1.heads[a], mid, heads, G1.lists, c, a);
      var slot := ArenaSlotClaim(a, c);
      ghost var G3 := Now();
      hide SegmentOk;
      assert Gained(G2, G3, a, slot.value);
      hide Claimable, Gained;
      GainedFrom(G, G2, G3, a, slot.value);
      GainedBlock(G, G3, a, slot.value);
      p := Some(AddressOf(c, a, slot.value));
    }

    /** A block for `size` bytes; a request for none is one for the smallest block. */
    method Alloc(size: nat, os: Os) returns (p: Option<nat>)
      requires Valid()
      modifies this
      ensures Valid()
      ensures p.Some? ==>
                size <= SLOT_SIZE_MAX && Grew(old(Now()), Now(), p.value, ClassFor(size)) && size <= BlockSize(Now(), p.value)
      ensures p.None? ==> SameBlocks(old(Now()), Now())
      ensures p.None? <==>
                size > SLOT_SIZE_MAX || Exhausted(old(Now()), ClassFor(size), os, capacity, old(committed))
      ensures p.Some? ==> p.value / ARENA_SIZE !in absent
    {
      hide SegmentOk, Exhausted, IsLive, SameBlocks;
      var bytes := if size == 0 then SLOT_SIZE_MIN else size;
      if bytes > SLOT_SIZE_MAX {
        SameSegment(Now());
        return None;
      }
      ClassFits(bytes);
      p := SmallLayerAlloc(SlotClassIndexOf(bytes), os);
      if p.Some? { LivePresent(p.value); }
    }

    // ---- Freeing ----

    /** The live arena that holds the address, if its pages are there; the address may be foreign. */
    function SegmentResolveArena(p: int): int
      reads this
    {
      if 0 <= p < |heads| * ARENA_SIZE then
        var a := p / ARENA_SIZE;
        ArenaBelow(p, |heads|);
        if heads[a].dropped then NONE else a
      else NONE
    }

    /** The address passes the checks of smallLayerFree: an aligned slot behind the header of an arena that is there. */
    predicate Resolves(p: int)
      reads this
    {
      var a := SegmentResolveArena(p);
      0 <= a < |heads| && p >= 0 &&
      var c := ClassOfSize(heads[a].classSize);
      c.Some? && heads[a].headerSlots == HeaderSlots(c.value) && IsSlotOffset(c.value, p - a * ARENA_SIZE)
    }

    method StoreWordAt(p: nat, w: word)
      requires p + 4 <= mem.Length
      modifies mem
      ensures mem[..] == StoreWord(old(mem[..]), p, w)
    {
      var s := WordBytes(w);
      mem[p] := s[0];
      mem[p + 1] := s[1];
      mem[p + 2] := s[2];
      mem[p + 3] := s[3];
    }

    /** Frees a block.  An address that is no slot is rejected; a slot must hold an allocated block. */
    method Free(pointer: Option<int>) returns (ok: bool)
      requires Valid() && (pointer.Some? && Resolves(pointer.value) ==> IsLive(Now(), pointer.value))
      modifies this, mem
      ensures Valid()
      ensures ok <==> pointer.None? || old(Resolves(pointer.value))
      ensures pointer.Some? && ok ==> Shrank(old(Now()), Now(), pointer.value)
      ensures pointer.None? || !ok ==> SameBlocks(old(Now()), Now()) && mem[..] == old(mem[..])
      ensures pointer.Some? && ok ==>
                forall y :: 0 <= y < mem.Length && !(pointer.value <= y < pointer.value + 4) ==> mem[y] == old(mem[y])
    {
      hide SegmentOk, IsLive;
      SameSegment(Now());
      hide SameBlocks, Shrank;
      if pointer.None? { return true; }
      var a := SegmentResolveArena(pointer.value);
      if a == NONE { return false; }
      ok := SmallLayerFree(a, pointer.value);
    }

    method SmallLayerFree(a: nat, p: nat) returns (ok: bool)
      requires Valid() && SegmentResolveArena(p) == a && (Resolves(p) ==> IsLive(Now(), p))
      modifies this, mem
      ensures Valid()
      ensures ok <==> old(Resolves(p))
      ensures ok ==> Shrank(old(Now()), Now(), p)
      ensures ok ==> forall y :: 0 <= y < mem.Length && !(p <= y < p + 4) ==> mem[y] == old(mem[y])
      ensures !ok ==> SameBlocks(old(Now()), Now()) && mem[..] == old(mem[..])
    {
      SameSegment(Now());
      hide SegmentOk, SameBlocks, Shrank;
      var class_ := ClassOfSize(heads[a].classSize);
      if class_.None? { return false; }
      var c := class_.value;
      if heads[a].headerSlots != HeaderSlots(c) { return false; }
      var inArenaOffset := p - a * ARENA_SIZE;
      if inArenaOffset % ClassSize(c) != 0 { return false; }
      var slotIndex := inArenaOffset / ClassSize(c);
      if !(HeaderSlots(c) <= slotIndex < TotalSlots(c)) { return false; }
      ghost var G := Now();
      BlockSlot(G, mem[..], p);
      OffsetSlot(c, p, a);
      hide IsLive, LiveIn, Lost, SlotOf, AddressOf;
      ReleaseSlot(a, c, slotIndex, p);
      LostBlock(G, Now(), a, slotIndex);
      ok := true;
    }

    /** Pushes the slot onto the arena's free list, and the arena back onto its chain or out of it. */
    method ReleaseSlot(a: nat, c: class_, slotIndex: nat, p: nat)
      requires Valid() && LiveIn(Now(), a, slotIndex) && a < |heads| == |slots.cls| == |place| == |slots.free|
      requires slots.cls[a] == c && p == AddressOf(c, a, slotIndex) && p + 4 <= mem.Length
      modifies this, mem
      ensures Valid() && Lost(old(Now()), Now(), a, slotIndex) && slots.cls == old(slots.cls)
      ensures forall y :: 0 <= y < mem.Length && !(p <= y < p + 4) ==> mem[y] == old(mem[y])
    {
      hide Dropped, SegmentOk, ListsOk, Freed, ArenaOk, Lost, LiveIn, Moved, StoreWord, SlotAt, SparesOk;
      ghost var G, bytes := Now(), mem[..];
      ReleaseReady(G, bytes, c, a, slotIndex);
      var wasFull := heads[a].freeSlotCount == 0;
      ghost var M := Released(G, a, slotIndex);
      PushFree(a, slotIndex, p);
      StoredElsewhere(bytes, p, G.heads[a].freeHead);
      RelinkFreed(a, c, wasFull);
      LostSame(G, M, Now(), a, slotIndex);
    }

    /** The freed slot's first word becomes a link of the free list. */
    method PushFree(a: nat, slotIndex: nat, p: nat)
      requires a < |heads| == |slots.free| && 0 <= heads[a].freeHead < 0x1_0000_0000 && p + 4 <= mem.Length
      modifies this`heads, this`slots, mem
      ensures Now() == Released(old(Now()), a, slotIndex)
      ensures mem[..] == StoreWord(old(mem[..]), p, old(heads[a].freeHead))
      ensures Dropped(heads) == Dropped(old(heads))
    {
      StoreWordAt(p, heads[a].freeHead);
      heads := heads[a := heads[a].(freeHead := slotIndex, freeSlotCount := heads[a].freeSlotCount + 1)];
      SetDropped(old(heads), a, heads[a]);
      slots := ReleasedSlots(slots, a, slotIndex);
    }

    /** After a free the arena may have to leave its chain, or to come back to it. */
    method RelinkFreed(a: nat, c: class_, wasFull: bool)
      requires Freed(Now(), mem[..], c, a) && ListsOk(heads, Where()) && a < |heads| == |place|
      requires heads[a].freeSlotCount <= Capacity(c)
      requires heads[a].freeSlotCount == Capacity(c) ==>
                 place[a] == OnChain(c) && heads[a].next != UNLINKED && heads[a].prev != UNLINKED
      requires heads[a].freeSlotCount < Capacity(c) && wasFull ==> place[a] == Off && heads[a].next == UNLINKED
      requires heads[a].freeSlotCount < Capacity(c) && !wasFull ==> place[a] == OnChain(c)
      modifies this`heads, this`partial, this`place, this`chains, this`resident, this`residentCount, this`ring, this`spare
      ensures SegmentOk(Now(), mem[..], -1) && |heads| == |old(heads)|
      ensures forall b: nat, t: nat :: LiveIn(Now(), b, t) <==> LiveIn(old(Now()), b, t)
      ensures Dropped(heads) == Dropped(old(heads))
    {
      ghost var M, bytes := Now(), mem[..];
      hide Dropped, SegmentOk, ListsOk, Freed, ArenaOk, LiveIn, Moved, SparesOk;
      if heads[a].freeSlotCount == Capacity(c) {
        if heads[a].next != UNLINKED && heads[a].prev != UNLINKED { ParkEmpty(c, a); }
      } else if wasFull && heads[a].next == UNLINKED {
        SegmentPushArena(c, a);
        assert mem[..] == bytes;
        FreedBack(M, Now(), bytes, c, a);
      } else {
        FreedStays(M, bytes, c, a);
      }
    }

    /** An arena has just become empty: the first two of a class stay linked as spares, the others are parked. */
    method ParkEmpty(c: class_, a: nat)
      requires Freed(Now(), mem[..], c, a) && place[a] == OnChain(c) && heads[a].freeSlotCount == Capacity(c)
      modifies this`heads, this`partial, this`place, this`chains, this`resident, this`residentCount, this`ring, this`spare
      ensures SegmentOk(Now(), mem[..], -1) && |heads| == |old(heads)|
      ensures forall b: nat, t: nat :: LiveIn(Now(), b, t) <==> LiveIn(old(Now()), b, t)
      ensures Dropped(heads) == Dropped(old(heads))
    {
      ghost var M, bytes := Now(), mem[..];
      FreedShape(M, bytes, c, a);
      ChainedShape(heads, Where());
      hide Dropped, Freed, SegmentOk, LiveIn, ListsOk, Moved, ArenaOk, SparesOk, Delink, Unchained, Empty;
      var hit := FindSpare(c, a);
      if hit != SPARE_KEEP {
        FreedStays(M, bytes, c, a);
      } else if |spare[c]| < SPARE_KEEP {
        spare := spare[c := spare[c] + [a]];
        FreedSpare(M, Now(), bytes, c, a);
      } else {
        ghost var i := ChainIndex(heads, Where(), c, a);
        UnchainedReady(heads, Where(), c, i);
        ChainDelink(c, a, i);
        ghost var G1 := Now();
        FreedLeaves(M, G1, bytes, c, a);
        SegmentRingPush(a);
        TakenHead(G1, Now(), a);
        PutIn(G1, Now(), bytes, a, Parked);
      }
      assert mem[..] == bytes;
    }

    /** Where the arena is among the spares of its class; SPARE_KEEP if it is not. */
    method FindSpare(c: class_, a: nat) returns (hit: nat)
      requires |spare| == SLOT_CLASSES && |spare[c]| <= SPARE_KEEP
      ensures hit == SPARE_KEEP <==> a !in spare[c]
      ensures hit != SPARE_KEEP ==> hit < |spare[c]| && spare[c][hit] == a
    {
      hit := SPARE_KEEP;
      for spareIndex := 0 to |spare[c]|
        invariant hit == SPARE_KEEP && a !in spare[c][..spareIndex]
      {
        if spare[c][spareIndex] == a { return spareIndex; }
      }
    }

    /** A client writes into its block. */
    method Write(p: nat, y: nat, b: byte)
      requires Valid() && IsLive(Now(), p) && p <= y < p + BlockSize(Now(), p) && y < mem.Length
      modifies mem
      ensures Valid() && mem[..] == old(mem[..])[y := b]
    {
      ghost var bytes := mem[..];
      mem[y] := b;
      WriteKeeps(Now(), bytes, mem[..], p);
    }

    // ---- Resizing ----

    method CopyBytes(dst: nat, src: nat, n: nat)
      requires dst + n <= mem.Length && src + n <= mem.Length && (dst + n <= src || src + n <= dst)
      modifies mem
      ensures forall y :: dst <= y < dst + n ==> mem[y] == old(mem[y - dst + src])
      ensures forall y :: 0 <= y < mem.Length && !(dst <= y < dst + n) ==> mem[y] == old(mem[y])
    {
      for i := 0 to n
        invariant forall y :: dst <= y < dst + i ==> mem[y] == old(mem[y - dst + src])
        invariant forall y :: 0 <= y < mem.Length && !(dst <= y < dst + i) ==> mem[y] == old(mem[y])
      {
        mem[dst + i] := mem[src + i];
      }
    }

    /** Resizes a block within the small sizes; a larger size, or none, frees it. */
    method Realloc(pointer: Option<int>, newSize: nat, os: Os) returns (q: Option<nat>)
      requires Valid() && (pointer.Some? && SegmentResolveArena(pointer.value) != NONE ==> IsLive(Now(), pointer.value))
      modifies this, mem
      ensures Valid()
      ensures pointer.None? ==> mem[..] == old(mem[..])
      ensures pointer.None? && q.Some? ==> Grew(old(Now()), Now(), q.value, ClassFor(newSize)) && newSize <= BlockSize(Now(), q.value)
      ensures pointer.None? && q.None? ==> SameBlocks(old(Now()), Now())
      ensures q.Some? ==> newSize <= SLOT_SIZE_MAX
      ensures pointer.None? && q.None? ==>
                newSize > SLOT_SIZE_MAX || Exhausted(old(Now()), ClassFor(newSize), os, capacity, old(committed))
      ensures pointer.Some? && old(SegmentResolveArena(pointer.value)) == NONE ==>
                q.None? && SameBlocks(old(Now()), Now()) && mem[..] == old(mem[..])
      ensures pointer.Some? && old(SegmentResolveArena(pointer.value)) != NONE ==>
                Resized(old(Now()), Now(), old(mem[..]), mem[..], pointer.value, newSize, q)
      ensures pointer.Some? && old(SegmentResolveArena(pointer.value)) != NONE && q.None? && 0 < newSize <= SLOT_SIZE_MAX ==>
                Exhausted(old(Now()), ClassFor(newSize), os, capacity, old(committed))
    {
      ghost var G, bytes := Now(), mem[..];
      if pointer.None? {
        q := Alloc(newSize, os);
        return;
      }
      var p := pointer.value;
      if SegmentResolveArena(p) != NONE {
        BlockThere(G, bytes, p);
        LiveResolves(p);
      }
      SameSegment(G);
      hide SegmentOk, SameBlocks, IsLive, Shrank, Grew, Exhausted, Resized;
      if newSize == 0 || newSize > SLOT_SIZE_MAX {
        var ok := Free(pointer);
        if ok { FreedBytes(G, Now(), bytes, mem[..], p, newSize); }
        return None;
      }
      var arena := SegmentResolveArena(p);
      if arena == NONE { return None; }
      var oldUsable := heads[arena].classSize;
      if oldUsable >= newSize {
        Stays(G, bytes, p, newSize);
        return Some(p);
      }
      q := Alloc(newSize, os);
      assert mem[..] == bytes;
      if q.None? {
        NoRoom(G, Now(), bytes, p, newSize);
        return;
      }
      MoveFree(G, bytes, p, q.value, newSize, oldUsable);
    }

    /** The pages of every block are there. */
    lemma LivePresent(p: nat)
      requires Valid() && IsLive(Now(), p)
      ensures p / ARENA_SIZE !in absent
    {
      hide SegmentOk, LiveIn, IsLive, ListsOk;
      BlockThere(Now(), mem[..], p);
      SetDropped(heads, p / ARENA_SIZE, heads[p / ARENA_SIZE]);
    }

    /** An allocated block's address passes all checks. */
    lemma LiveResolves(p: nat)
      requires Valid() && IsLive(Now(), p)
      ensures Resolves(p) && SegmentResolveArena(p) == p / ARENA_SIZE
    {
      ghost var G, bytes := Now(), mem[..];
      hide SegmentOk, LiveIn, IsLive, ListsOk, IsSlotOffset;
      BlockThere(G, bytes, p);
      SlotBounds(G, bytes, p);
      InCarved(p, |heads|);
    }

    method FreeBlock(p: nat, ghost bytes: seq<byte>)
      requires Valid() && mem[..] == bytes && IsLive(Now(), p) && Resolves(p)
      modifies this, mem
      ensures Valid() && Shrank(old(Now()), Now(), p) && mem.Length == |bytes|
      ensures forall y :: 0 <= y < |bytes| && !(p <= y < p + 4) ==> mem[..][y] == bytes[y]
    {
      hide SegmentOk, IsLive, Shrank;
      var ok := Free(Some(p));
    }

    /** Copies a block into a new one, and frees it. */
    method MoveFree(ghost G: Segment, ghost bytes: seq<byte>, p: nat, q: nat, newSize: nat, oldUsable: nat)
      requires Valid() && mem[..] == bytes && SegmentOk(G, bytes, -1) && IsLive(G, p)
      requires oldUsable == BlockSize(G, p) < newSize <= SLOT_SIZE_MAX
      requires Grew(G, Now(), q, ClassFor(newSize)) && newSize <= BlockSize(Now(), q)
      modifies this, mem
      ensures Valid() && Resized(G, Now(), bytes, mem[..], p, newSize, Some(q))
    {
      ghost var G1 := Now();
      NewApart(G, G1, bytes, p, q);
      hide SegmentOk, IsLive, Shrank, Grew, Resized, BlockSize;
      CopyBytes(q, p, oldUsable);
      ghost var bytes1 := mem[..];
      assert forall y :: q <= y < q + oldUsable ==> bytes1[y] == bytes[y - q + p];
      assert forall y :: 0 <= y < |bytes| && !(q <= y < q + oldUsable) ==> bytes1[y] == bytes[y];
      WriteKeeps(G1, bytes, bytes1, q);
      LiveResolves(p);
      FreeBlock(p, bytes1);
      MovedBytes(G, G1, Now(), bytes, bytes1, mem[..], p, q, newSize);
    }

    // ---- Trimming ----

    /** The pages of the arena behind the first, given back: whatever is read there later is not what was written. */
    method OsPagesDrop(a: nat, pageSize: nat, drops: nat -> bool, junk: nat -> byte) returns (ok: bool)
      requires pageSize <= ARENA_SIZE && (a + 1) * ARENA_SIZE <= mem.Length
      modifies this`absent, mem
      ensures ok == drops(a) && absent == (if ok then old(absent) + {a} else old(absent))
      ensures !ok ==> mem[..] == old(mem[..])
      ensures forall y :: 0 <= y < mem.Length && !(a * ARENA_SIZE <= y < (a + 1) * ARENA_SIZE) ==> mem[y] == old(mem[y])
    {
      ok := drops(a);
      if !ok { return; }
      absent := absent + {a};
      for i := pageSize to ARENA_SIZE
        invariant absent == old(absent) + {a}
        invariant forall y :: 0 <= y < mem.Length && !(a * ARENA_SIZE <= y < (a + 1) * ARENA_SIZE) ==> mem[y] == old(mem[y])
      {
        mem[a * ARENA_SIZE + i] := junk(a * ARENA_SIZE + i);
      }
    }

    /** While the ring holds more than the water mark, its coldest arena goes to the revive chain, its pages back to the
        system if that takes them. */
    method Trim(pageSize: nat, drops: nat -> bool, junk: nat -> byte) returns (droppedBytes: nat)
      requires Valid()
      modifies this, mem
      ensures Valid() && SameBlocks(old(Now()), Now()) && SameBytes(old(Now()), old(mem[..]), mem[..])
      ensures residentCount == (if old(residentCount) <= TRIM_POOL_MAX_RESIDENT then old(residentCount) else TRIM_POOL_MAX_RESIDENT)
      ensures Trimmed(old(Where()), Where())
      ensures residentCount <= |old(ring)|
      ensures Dropped(heads) == Dropped(old(heads)) + Taken(old(ring)[residentCount..], pageSize, drops)
      ensures droppedBytes == GivenBack(pageSize, |Taken(old(ring)[residentCount..], pageSize, drops)|)
    {
      hide MarkedFrom, GivenBack, Marked, Taken, Dropped, SegmentOk, SameBlocks, SameBytes, Trimmed, TrimmedTo;
      droppedBytes := 0;
      ghost var G, bytes := Now(), mem[..];
      TrimStart(G, bytes);
      NoneTaken(G, bytes, pageSize, drops);
      while residentCount > TRIM_POOL_MAX_RESIDENT
        invariant Valid() && TrimmedTo(G, bytes, Now(), mem[..])
        invariant MarkedFrom(G, heads, residentCount, pageSize, drops, droppedBytes)
        invariant residentCount == G.lists.residentCount || residentCount >= TRIM_POOL_MAX_RESIDENT
        decreases residentCount
      {
        ghost var G1, bytes1 := Now(), mem[..];
        var n := TrimOne(pageSize, drops, junk);
        droppedBytes := droppedBytes + n;
        TrimStep(G, bytes, G1, bytes1, Now(), mem[..]);
        TakenMore(G, bytes, G1, bytes1, Now(), pageSize, drops, droppedBytes - n, n);
      }
      TrimEnd(G, bytes, Now(), mem[..]);
      MarksTell(G, heads, residentCount, pageSize, drops, droppedBytes);
    }

    /** Gives the pages of an emptied arena back, if there are any behind the first and the system takes them. */
    method DropArena(ghost G: Segment, ghost bytes: seq<byte>, a: nat, pageSize: nat, drops: nat -> bool, junk: nat -> byte)
      returns (n: nat)
      requires ValidBut(a) && a < |heads| && place[a] == Off && OnItsWay(G, Now(), a) && ListsOk(heads, Where())
      requires mem[..] == bytes && SegmentOk(G, bytes, -1) && a < |G.heads| == |G.lists.place| && G.lists.place[a].Parked?
      requires Marked(-1)
      modifies this`heads, this`absent, mem
      ensures ValidBut(a) && |heads| == |old(heads)| && OnItsWay(G, Now(), a) && ListsOk(heads, Where())
      ensures SameBytes(G, bytes, mem[..]) && Marked(-1)
      ensures Dropped(heads) == Dropped(old(heads)) + Taken([a], pageSize, drops)
      ensures n == if pageSize < ARENA_SIZE && drops(a) then ARENA_SIZE - pageSize else 0
    {
      ghost var G1 := Now();
      hide Dropped, SegmentOk, LiveIn, ListsOk, IsLive, BlockSize, OnItsWay, SameBytes;
      BytesSame(G, bytes);
      n := 0;
      if pageSize < ARENA_SIZE {
        ShellFits(G1, bytes, a);
        var ok := OsPagesDrop(a, pageSize, drops, junk);
        if ok {
          n := ARENA_SIZE - pageSize;
          ghost var bytes1 := mem[..];
          DropKeeps(G1, bytes, bytes1, a);
          DroppedBytes(G, bytes, bytes1, a);
          SetDropped(heads, a, heads[a].(dropped := true));
          heads := heads[a := heads[a].(dropped := true)];
          MarkDropped(G, G1, Now(), bytes1, a);
        }
      }
    }

    method TrimOne(pageSize: nat, drops: nat -> bool, junk: nat -> byte) returns (n: nat)
      requires Valid() && residentCount > 0
      modifies this, mem
      ensures Valid() && SameBlocks(old(Now()), Now()) && SameBytes(old(Now()), old(mem[..]), mem[..])
      ensures TrimmedByOne(old(Where()), Where())
      ensures |old(ring)| > 0 && Dropped(heads) == Dropped(old(heads)) + Taken([old(ring)[|old(ring)| - 1]], pageSize, drops)
      ensures n == if pageSize < ARENA_SIZE && drops(old(ring)[|old(ring)| - 1]) then ARENA_SIZE - pageSize else 0
    {
      hide Taken, Dropped, SegmentOk, LiveIn, ListsOk, IsLive, BlockSize, SameBlocks, OnItsWay, Moved, SameBytes,
           TrimmedByOne, Return;
      ghost var G, bytes := Now(), mem[..];
      RingSize(G, bytes);
      ValidLists(G, bytes);
      var a := SegmentRingPopTail();
      assert mem[..] == bytes;
      Shell(G, Now(), bytes, a);
      RingCount(heads, Where());
      n := DropArena(G, bytes, a, pageSize, drops, junk);
      ghost var G2, bytes2 := Now(), mem[..];
      SegmentPushRevive(a);
      assert mem[..] == bytes2;
      PutBack(G, G2, Now(), bytes2, a);
      TailReturned(G.lists, G2.lists, Where(), a);
    }
  }

  // ---- Links ----

  /** The neighbours of an arena in its chain are joined, and it is marked as unlinked. */
  method JoinNeighbours(heads: seq<ArenaHead>, a: nat) returns (h: seq<ArenaHead>)
    requires a < |heads| && (heads[a].prev == NONE || 0 <= heads[a].prev < |heads|)
    requires heads[a].next == NONE || 0 <= heads[a].next < |heads|
    ensures h == Delink(heads, a)
  {
    var prev, next := heads[a].prev, heads[a].next;
    h := heads;
    if prev != NONE { h := h[prev := h[prev].(next := next)]; }
    if next != NONE { h := h[next := h[next].(prev := prev)]; }
    h := h[a := h[a].(next := UNLINKED, prev := UNLINKED)];
  }

  method JoinInRing(heads: seq<ArenaHead>, a: nat) returns (h: seq<ArenaHead>)
    requires a < |heads| && 0 <= heads[a].prev < |heads| && 0 <= heads[a].next < |heads|
    ensures h == RingDelink(heads, a)
  {
    var nextOffset, prevOffset := heads[a].next, heads[a].prev;
    h := heads;
    h := h[nextOffset := h[nextOffset].(prev := prevOffset)];
    h := h[prevOffset := h[prevOffset].(next := nextOffset)];
    h := h[a := h[a].(next := UNLINKED, prev := UNLINKED)];
  }

  lemma HeadDelinked(heads: seq<ArenaHead>, h: seq<ArenaHead>, a: nat)
    requires a < |heads| && heads[a].prev == NONE && (heads[a].next == NONE || 0 <= heads[a].next < |heads|)
    requires var h1 := if heads[a].next != NONE then heads[heads[a].next := heads[heads[a].next].(prev := NONE)] else heads;
             h == h1[a := h1[a].(next := UNLINKED, prev := UNLINKED)]
    ensures h == Delink(heads, a)
  {
  }

  lemma UnchainedReady(heads: seq<ArenaHead>, L: Lists, c: class_, i: nat)
    requires ListsOk(heads, L) && |L.partial| == SLOT_CLASSES == |L.chains| && i < |L.chains[c]|
    ensures var a := L.chains[c][i];
            && a < |heads| == |L.place|
            && (heads[a].prev == NONE || 0 <= heads[a].prev < |heads|)
            && (heads[a].next == NONE || 0 <= heads[a].next < |heads|)
            && (heads[a].prev == NONE <==> i == 0)
            && var L1 := Unchained(L, c, i, heads[a].next);
               ListsOk(Delink(heads, a), L1) && Moved(heads, Delink(heads, a), L, a) && L1.place == L.place[a := Off]
  {
    ChainedShape(heads, L);
    hide ListsOk, Delink, Moved;
    UnchainedOk(heads, L, c, i);
    LinkRange(heads, L, c, i);
  }

  lemma UnparkIs(L: Lists, tail: bool, next: int)
    requires L.residentCount == |L.ring| > 0
    requires (if tail then L.ring[|L.ring| - 1] else L.ring[0]) < |L.place|
    ensures var a := if tail then L.ring[|L.ring| - 1] else L.ring[0];
            Unpark(L, tail, next) ==
              Lists(L.partial, if next == a then NONE else next, L.residentCount - 1, L.revive, L.place[a := Off], L.chains,
                    if tail then L.ring[..|L.ring| - 1] else L.ring[1..], L.revived)
  {
  }

  lemma ChainedShape(heads: seq<ArenaHead>, L: Lists)
    requires ListsOk(heads, L)
    ensures |L.place| == |heads| && |L.partial| == SLOT_CLASSES == |L.chains|
  {
  }

  lemma RingCount(heads: seq<ArenaHead>, L: Lists)
    requires ListsOk(heads, L)
    ensures L.residentCount == |L.ring|
  {
  }

  lemma RingStart(heads: seq<ArenaHead>, L: Lists)
    requires ListsOk(heads, L) && L.residentCount > 0
    ensures |L.ring| > 0 && L.resident == L.ring[0] < |heads| && heads[L.resident].prev == L.ring[|L.ring| - 1]
  {
    RingEnds(heads, L.ring, L.resident);
  }

  /** The head of a chain is an arena. */
  lemma ListLink(heads: seq<ArenaHead>, L: Lists, c: class_)
    requires ListsOk(heads, L)
    ensures |L.partial| == SLOT_CLASSES && (L.partial[c] == NONE || 0 <= L.partial[c] < |heads|)
  {
    assert IsChain(heads, L.chains[c], L.partial[c]);
  }

  lemma ChainStart(heads: seq<ArenaHead>, L: Lists, c: class_)
    requires ListsOk(heads, L) && L.partial[c] != NONE
    ensures |L.chains[c]| > 0 && L.chains[c][0] == L.partial[c] && 0 <= L.partial[c] < |heads|
    ensures L.place[L.partial[c]] == OnChain(c)
  {
    assert IsChain(heads, L.chains[c], L.partial[c]) && Placed(L.chains[c], L.place, OnChain(c));
    assert L.chains[c][0] in L.chains[c];
  }

  lemma LinkRange(heads: seq<ArenaHead>, L: Lists, c: class_, i: nat)
    requires ListsOk(heads, L) && i < |L.chains[c]|
    ensures var a := L.chains[c][i];
            && a < |heads|
            && (heads[a].next == NONE || 0 <= heads[a].next < |heads|)
            && (heads[a].prev == NONE || 0 <= heads[a].prev < |heads|)
            && heads[a].next != UNLINKED && heads[a].prev != UNLINKED
            && heads[a].prev != a && heads[a].next != a
  {
    assert IsChain(heads, L.chains[c], L.partial[c]);
    var list := L.chains[c];
    if i > 0 { NoDupAway(list, i, i - 1); }
    if i + 1 < |list| { NoDupAway(list, i, i + 1); }
  }

  lemma ChainIndex(heads: seq<ArenaHead>, L: Lists, c: class_, a: nat) returns (i: nat)
    requires ListsOk(heads, L) && a < |heads| && L.place[a] == OnChain(c)
    ensures i < |L.chains[c]| && L.chains[c][i] == a
  {
    assert Placed(L.chains[c], L.place, OnChain(c));
    i :| 0 <= i < |L.chains[c]| && L.chains[c][i] == a;
  }

  // ---- Allocation ----

  /** There is no emptied arena to be had, and no new one. */
  predicate Unavailable(G: Segment, os: Os, capacity: nat, committed: nat) {
    && G.lists.residentCount == 0
    && (if G.lists.revive != NONE then
          0 <= G.lists.revive < |G.heads| && G.heads[G.lists.revive].dropped && !os.reuses
        else |G.heads| >= capacity || (|G.heads| + 1 > committed && !os.commits))
  }

  /** There is no block of class c to be had. */
  predicate Exhausted(G: Segment, c: nat, os: Os, capacity: nat, committed: nat) {
    c < SLOT_CLASSES && |G.lists.partial| == SLOT_CLASSES && G.lists.partial[c] == NONE
    && Unavailable(G, os, capacity, committed)
  }

  lemma ExhaustedChain(G: Segment, c: class_, os: Os, capacity: nat, committed: nat)
    requires |G.lists.partial| == SLOT_CLASSES && G.lists.partial[c] == NONE
    ensures Exhausted(G, c, os, capacity, committed) <==> Unavailable(G, os, capacity, committed)
  {
  }

  lemma ReviveRange(G: Segment, mem: seq<byte>)
    requires SegmentOk(G, mem, -1)
    ensures G.lists.revive == NONE || 0 <= G.lists.revive < |G.heads|
  {
    hide IsChain, IsRing, ArenaHere, SparesOk;
  }

  lemma ClaimReady(h: ArenaHead, mem: seq<byte>, base: nat, c: class_, free: seq<nat>, bump: nat)
    requires ArenaOk(h, mem, base, c, free, bump)
    ensures 0 <= h.freeHead && (h.freeHead != SLOT_NONE ==> SlotAt(base, c, h.freeHead) + 4 <= |mem|)
    ensures h.freeHead != SLOT_NONE ==> h.freeSlotCount > 0
    ensures h.freeSlotCount <= TotalSlots(c) && |mem| >= base + ARENA_SIZE
  {
    SmallSlots(c);
    FreeAtMost(h, mem, base, c, free, bump);
    if free != [] { assert Linked(mem, base, c, free, 0); }
  }

  lemma ValidLists(G: Segment, mem: seq<byte>)
    requires SegmentOk(G, mem, -1)
    ensures ListsOk(G.heads, G.lists) && |G.lists.partial| == SLOT_CLASSES == |G.lists.chains| && |G.spare| == SLOT_CLASSES
    ensures |G.lists.place| == |G.heads|
  {
    hide IsChain, IsRing, IsStack, Placed, ArenaHere;
  }

  /** The head of a class chain has the right class, its pages, and a free slot. */
  lemma ChainReady(G: Segment, mem: seq<byte>, c: class_)
    requires SegmentOk(G, mem, -1) && |G.lists.partial| == SLOT_CLASSES && G.lists.partial[c] != NONE
    ensures var a := G.lists.partial[c];
            && 0 <= a < |G.heads| && G.lists.place[a] == OnChain(c) && G.slots.cls[a] == c
            && !G.heads[a].dropped && G.heads[a].freeSlotCount > 0 && G.heads[a].classSize == ClassSize(c)
            && ArenaOk(G.heads[a], mem, a * ARENA_SIZE, c, G.slots.free[a], G.slots.bump[a])
  {
    var a := G.lists.partial[c];
    ChainStart(G.heads, G.lists, c);
    hide ListsOk, SparesOk;
    assert ArenaHere(G, mem, a);
  }

  /** The segment after the claim of a slot in arena a. */
  ghost function Claimed(G: Segment, mem: seq<byte>, c: class_, a: nat): Segment
    requires a < |G.heads| == |G.slots.free| == |G.slots.bump|
    requires G.heads[a].freeSlotCount > 0 && 0 <= G.heads[a].freeHead
    requires G.heads[a].freeHead != SLOT_NONE ==> SlotAt(a * ARENA_SIZE, c, G.heads[a].freeHead) + 4 <= |mem|
  {
    G.(heads := G.heads[a := ClaimedHead(G.heads[a], mem, a * ARENA_SIZE, c)], slots := ClaimedSlots(G.slots, a))
  }

  lemma HeadReady(G: Segment, mem: seq<byte>, c: class_, a: nat)
    requires SegmentOk(G, mem, -1) && |G.lists.partial| == SLOT_CLASSES && G.lists.partial[c] == a
    ensures a < |G.heads| == |G.slots.free| == |G.slots.bump| == |G.lists.place| == |G.slots.cls| && ListsOk(G.heads, G.lists)
    ensures G.heads[a].freeSlotCount > 0 && 0 <= G.heads[a].freeHead
    ensures G.heads[a].freeHead != SLOT_NONE ==> SlotAt(a * ARENA_SIZE, c, G.heads[a].freeHead) + 4 <= |mem|
    ensures ArenaOk(G.heads[a], mem, a * ARENA_SIZE, c, G.slots.free[a], G.slots.bump[a])
    ensures var M := Claimed(G, mem, c, a);
            var s := ClaimedSlot(G.heads[a], c);
            && Shaped(M, mem) && ListsOk(M.heads, M.lists) && SparesOk(M, mem, -1)
            && M.lists.place[a] == OnChain(c) && M.slots.cls == G.slots.cls && M.slots.cls[a] == c && 0 <= s < TotalSlots(c)
            && ArenaOk(M.heads[a], mem, a * ARENA_SIZE, c, M.slots.free[a], M.slots.bump[a])
            && (forall x: nat :: x < |M.heads| && x != a ==> ArenaHere(M, mem, x))
            && Gained(G, M, a, s) && (M.heads[a].freeSlotCount > 0 ==> SegmentOk(M, mem, -1))
  {
    hide ArenaOk, ListsOk, SparesOk, ArenaHere, Gained, LiveIn, ClaimedHead, ClaimedSlot;
    ChainReady(G, mem, c);
    ChainClaimable(G, mem, c, a);
    ClaimStep(G, mem, c, a);
    ClaimableFacts(G, mem, c, a);
    ClaimCount(G.heads[a], mem, a * ARENA_SIZE, c);
  }

  lemma GainedSame(G: Segment, M: Segment, G1: Segment, a: nat, s: nat)
    requires Gained(G, M, a, s) && forall b: nat, t: nat :: LiveIn(G1, b, t) <==> LiveIn(M, b, t)
    ensures Gained(G, G1, a, s)
  {
    hide LiveIn;
  }

  lemma GainedFrom(G: Segment, M: Segment, G1: Segment, a: nat, s: nat)
    requires Gained(M, G1, a, s) && forall b: nat, t: nat :: LiveIn(M, b, t) <==> LiveIn(G, b, t)
    ensures Gained(G, G1, a, s)
  {
    hide LiveIn;
  }

  lemma Shell(G: Segment, G1: Segment, mem: seq<byte>, a: nat)
    requires SegmentOk(G, mem, -1) && a < |G.heads| == |G.lists.place| && (G.lists.place[a].Parked? || G.lists.place[a].Returned?)
    requires G1 == G.(heads := G1.heads, lists := G1.lists) && ListsOk(G1.heads, G1.lists)
    requires Moved(G.heads, G1.heads, G.lists, a) && G1.lists.place == G.lists.place[a := Off]
    ensures SegmentOk(G1, mem, a) && OnItsWay(G, G1, a)
    ensures |G1.heads| == |G.heads| && G1.heads[a].dropped == G.heads[a].dropped
    ensures G.lists.place[a].Parked? ==> !G.heads[a].dropped
  {
    NotLive(G, mem, a);
    TakenOut(G, G1, mem, a);
    TakenPlace(G, mem, a);
    TakenHead(G, G1, a);
    hide SegmentOk, LiveIn, ListsOk;
  }

  lemma TakenPlace(G: Segment, mem: seq<byte>, a: nat)
    requires SegmentOk(G, mem, -1) && a < |G.heads| && (G.lists.place[a].Parked? || G.lists.place[a].Returned?)
    ensures forall s: nat :: !LiveIn(G, a, s)
    ensures G.lists.place[a].Parked? ==> !G.heads[a].dropped
  {
    hide ListsOk, SparesOk;
    NotLive(G, mem, a);
    assert ArenaHere(G, mem, a);
  }

  lemma TakenHead(G: Segment, G1: Segment, a: nat)
    requires Moved(G.heads, G1.heads, G.lists, a) && a < |G.heads|
    ensures G1.heads[a].dropped == G.heads[a].dropped
  {
    assert SameBut(G.heads[a], G1.heads[a]);
  }

  /** In G1 the arena a, which had no live slot in G, is being moved or set up. */
  ghost predicate OnItsWay(G: Segment, G1: Segment, a: nat) {
    && |G.slots.cls| <= |G1.slots.cls| && |G.slots.cls| == |G.lists.place|
    && (forall b: nat :: b < |G.slots.cls| && b != a ==> G1.slots.cls[b] == G.slots.cls[b])
    && (forall b: nat, t: nat :: b != a ==> (LiveIn(G1, b, t) <==> LiveIn(G, b, t)))
    && (forall t: nat :: !LiveIn(G, a, t))
    && (a < |G.slots.cls| ==> G1.slots == G.slots)
  }

  /** The class of a request. */
  function ClassFor(size: nat): class_ {
    if size > SLOT_SIZE_MAX then 5
    else
      var bytes := if size == 0 then SLOT_SIZE_MIN else size;
      ClassFits(bytes);
      SlotClassIndexOf(bytes)
  }

  lemma PutBack(G: Segment, G1: Segment, G2: Segment, mem: seq<byte>, a: nat)
    requires SegmentOk(G1, mem, a) && a < |G1.heads| && G1.lists.place[a] == Off
    requires OnItsWay(G, G1, a)
    requires G2 == G1.(heads := G2.heads, lists := Return(G1.lists, a)) && ListsOk(G2.heads, G2.lists)
    requires Moved(G1.heads, G2.heads, G1.lists, a) && G1.slots == G.slots
    ensures SegmentOk(G2, mem, -1) && SameBlocks(G, G2)
  {
    hide ListsOk, SparesOk, ArenaHere, Moved, IsLive, BlockSize, SegmentOk;
    PutIn(G1, G2, mem, a, Returned);
    hide LiveIn;
    SameSlots(G, G2);
  }

  lemma SameSegment(G: Segment)
    ensures SameBlocks(G, G)
  {
  }

  lemma CarveRoom(n: nat, capacity: nat)
    requires n < capacity
    ensures (n + 1) * ARENA_SIZE <= capacity * ARENA_SIZE
  {
  }

  lemma NotLive(G: Segment, mem: seq<byte>, a: nat)
    requires SegmentOk(G, mem, -1)
    requires a < |G.heads| ==> G.lists.place[a].Parked? || G.lists.place[a].Returned?
    ensures forall s: nat :: !LiveIn(G, a, s)
    ensures |G.slots.cls| == |G.lists.place| == |G.heads|
  {
    hide ListsOk, SparesOk, ArenaHere;
    forall s: nat | LiveIn(G, a, s) ensures G.lists.place[a].OnChain? || G.lists.place[a].Off? {
      LiveNotParked(G, mem, a, s);
    }
  }

  lemma FreshShape(G: Segment, mem: seq<byte>, a: nat)
    requires SegmentOk(G, mem, a) && a < |G.heads|
    ensures |G.slots.cls| == |G.slots.free| == |G.slots.bump| == |G.heads| == |G.lists.place|
  {
    hide ListsOk, SparesOk, ArenaHere;
  }

  lemma FreshLists(G: Segment, mem: seq<byte>, c: class_, a: nat)
    requires SegmentOk(G, mem, a) && a < |G.heads|
    ensures ListsOk(G.heads[a := Initialized(G.heads[a], c)], G.lists)
  {
    var h := G.heads[a := Initialized(G.heads[a], c)];
    hide SparesOk, ArenaHere, ListsOk;
    SameLinksOk(G.heads, h, G.lists);
  }

  lemma ClaimableFacts(G: Segment, mem: seq<byte>, c: class_, a: nat)
    requires Claimable(G, mem, c, a)
    ensures a < |G.heads| == |G.slots.free| == |G.slots.bump| == |G.slots.cls| && G.slots.cls[a] == c
    ensures ArenaOk(G.heads[a], mem, a * ARENA_SIZE, c, G.slots.free[a], G.slots.bump[a])
    ensures G.heads[a].freeSlotCount > 0
  {
    hide ListsOk, SparesOk, ArenaHere, ArenaOk;
  }

  lemma FreshCount(h: ArenaHead, mid: seq<ArenaHead>, heads: seq<ArenaHead>, L: Lists, c: class_, a: nat)
    requires a < |mid| && mid[a] == Initialized(h, c) && Moved(mid, heads, L, a)
    ensures heads[a].freeSlotCount == Capacity(c) > 1
  {
    assert SameBut(mid[a], heads[a]);
  }

  // ---- Freeing ----

  /** The class of a size in a header, which has to be a power of two between 8 and 256. */
  function ClassOfSize(n: nat): Option<class_> {
    if n == 8 then Some(0) else if n == 16 then Some(1) else if n == 32 then Some(2) else if n == 64 then Some(3)
    else if n == 128 then Some(4) else if n == 256 then Some(5) else None
  }

  /** The offset in an arena is that of a slot behind the header. */
  predicate IsSlotOffset(c: class_, offset: int) {
    offset % ClassSize(c) == 0 && HeaderSlots(c) <= offset / ClassSize(c) < TotalSlots(c)
  }

  lemma ArenaBelow(p: nat, n: nat)
    requires p < n * ARENA_SIZE
    ensures p / ARENA_SIZE < n
  {
  }

  function SlotOf(c: class_, p: nat): nat { p % ARENA_SIZE / ClassSize(c) }

  /** The slot at an aligned address, as smallLayerFree computes it. */
  lemma OffsetSlot(c: class_, p: nat, a: nat)
    requires p % ClassSize(c) == 0 && a == p / ARENA_SIZE
    ensures p >= a * ARENA_SIZE && (p - a * ARENA_SIZE) % ClassSize(c) == 0
    ensures (p - a * ARENA_SIZE) / ClassSize(c) == SlotOf(c, p) < TotalSlots(c) && AddressOf(c, a, SlotOf(c, p)) == p
  {
    SlotAddress(c, p);
  }

  /** The address of an allocated block passes the checks, and they find its slot. */
  lemma BlockSlot(G: Segment, mem: seq<byte>, p: nat)
    requires SegmentOk(G, mem, -1) && IsLive(G, p)
    ensures var a := p / ARENA_SIZE;
            && a < |G.heads| == |G.slots.cls| == |G.lists.place| == |G.slots.free| == |G.slots.bump|
            && var c := G.slots.cls[a];
               && ClassOfSize(G.heads[a].classSize) == Some(c) && G.heads[a].headerSlots == HeaderSlots(c)
               && p % ClassSize(c) == 0 && LiveIn(G, a, SlotOf(c, p)) && p + 4 <= |mem|
  {
    hide ListsOk, SparesOk, LiveIn, SlotAt;
    var a := p / ARENA_SIZE;
    var c := G.slots.cls[a];
    LivePlaced(G, mem, p);
    assert ArenaHere(G, mem, a);
    LiveNotParked(G, mem, a, SlotOf(c, p));
    ClassOfClassSize(c);
    hide ArenaHere;
    UsedFacts(G.heads[a], mem, a * ARENA_SIZE, c, G.slots.free[a], G.slots.bump[a]);
  }

  lemma ClassOfClassSize(c: class_)
    ensures ClassOfSize(ClassSize(c)) == Some(c)
  {
  }

  /** The segment after slot s of arena a has been pushed onto the free list. */
  ghost function Released(G: Segment, a: nat, s: nat): Segment
    requires a < |G.heads| == |G.slots.free|
  {
    G.(heads := G.heads[a := G.heads[a].(freeHead := s, freeSlotCount := G.heads[a].freeSlotCount + 1)],
       slots := ReleasedSlots(G.slots, a, s))
  }

  lemma StoredElsewhere(mem: seq<byte>, p: nat, w: word)
    requires p + 4 <= |mem|
    ensures forall y :: 0 <= y < |mem| && !(p <= y < p + 4) ==> StoreWord(mem, p, w)[y] == mem[y]
  {
  }

  lemma ReleaseReady(G: Segment, mem: seq<byte>, c: class_, a: nat, s: nat)
    requires SegmentOk(G, mem, -1) && LiveIn(G, a, s) && a < |G.heads| == |G.slots.cls| == |G.lists.place| == |G.slots.free|
    requires G.slots.cls[a] == c && AddressOf(c, a, s) + 4 <= |mem|
    ensures 0 <= G.heads[a].freeHead < 0x1_0000_0000
    ensures var M := Released(G, a, s);
            var mem1 := StoreWord(mem, AddressOf(c, a, s), G.heads[a].freeHead);
            && Freed(M, mem1, c, a) && Lost(G, M, a, s) && ListsOk(M.heads, M.lists) && |M.spare| == SLOT_CLASSES
            && |M.lists.partial| == SLOT_CLASSES == |M.lists.chains|
            && (M.heads[a].freeSlotCount == Capacity(c) ==>
                  M.lists.place[a] == OnChain(c) && M.heads[a].next != UNLINKED && M.heads[a].prev != UNLINKED)
            && (M.heads[a].freeSlotCount != Capacity(c) ==> M.heads[a].freeSlotCount < Capacity(c))
            && (G.heads[a].freeSlotCount == 0 ==> M.lists.place[a] == Off && M.heads[a].next == UNLINKED)
            && (G.heads[a].freeSlotCount != 0 ==> M.lists.place[a] == OnChain(c))
  {
    hide ListsOk, SparesOk, ArenaHere, ArenaOk, LiveIn, Lost, StoreWord, SlotAt, SegmentOk;
    ReleaseStep(G, mem, a, s);
    ReleasedIs(G.heads[a], s);
    var M := Released(G, a, s);
    var mem1 := StoreWord(mem, AddressOf(c, a, s), G.heads[a].freeHead);
    FreedShape(M, mem1, c, a);
    ChainedShape(M.heads, M.lists);
    if M.lists.place[a] == OnChain(c) { ChainLinks(M.heads, M.lists, c, a); }
    hide Freed;
    if M.heads[a].freeSlotCount != Capacity(c) { NotFull(M, mem1, c, a); }
  }

  lemma ReleasedIs(h: ArenaHead, s: nat)
    ensures ReleasedHead(h, s) == h.(freeHead := s, freeSlotCount := h.freeSlotCount + 1)
  {
  }

  lemma ChainLinks(heads: seq<ArenaHead>, L: Lists, c: class_, a: nat)
    requires ListsOk(heads, L) && a < |heads| && |L.place| == |heads| && L.place[a] == OnChain(c)
    ensures heads[a].next != UNLINKED && heads[a].prev != UNLINKED
  {
    var i := ChainIndex(heads, L, c, a);
    LinkRange(heads, L, c, i);
  }

  lemma NotFull(M: Segment, mem: seq<byte>, c: class_, a: nat)
    requires Freed(M, mem, c, a) && M.heads[a].freeSlotCount != Capacity(c)
    ensures M.heads[a].freeSlotCount < Capacity(c)
  {
    hide ArenaOk, ListsOk, SparesOk, ArenaHere;
    FreeAtMost(M.heads[a], mem, a * ARENA_SIZE, c, M.slots.free[a], M.slots.bump[a]);
  }

  lemma FreedShape(M: Segment, mem: seq<byte>, c: class_, a: nat)
    requires Freed(M, mem, c, a)
    ensures ListsOk(M.heads, M.lists) && |M.spare| == SLOT_CLASSES && |M.spare[c]| <= SPARE_KEEP
    ensures a < |M.heads| == |M.lists.place| == |M.slots.free|
  {
    hide ArenaOk, ListsOk, ArenaHere;
  }

  lemma LostSame(G: Segment, M: Segment, G1: Segment, a: nat, s: nat)
    requires Lost(G, M, a, s) && forall b: nat, t: nat :: LiveIn(G1, b, t) <==> LiveIn(M, b, t)
    ensures Lost(G, G1, a, s)
  {
    hide LiveIn;
  }

  // ---- Resizing ----

  /** What resizing the block p to newSize did; q is what was returned. */
  ghost predicate Resized(G: Segment, G1: Segment, mem: seq<byte>, mem1: seq<byte>, p: nat, newSize: nat, q: Option<nat>)
  {
    && IsLive(G, p) && |mem1| == |mem|
    && if newSize == 0 || newSize > SLOT_SIZE_MAX then
         q.None? && Shrank(G, G1, p) && OthersKept(G, mem, mem1, p)
       else if newSize <= BlockSize(G, p) then
         q == Some(p) && SameBlocks(G, G1) && mem1 == mem
       else if q.None? then SameBlocks(G, G1) && mem1 == mem
       else
         && !IsLive(G, q.value)
         && (forall r: nat :: IsLive(G1, r) <==> (IsLive(G, r) && r != p) || r == q.value)
         && (forall r: nat :: IsLive(G, r) && r != p ==> BlockSize(G1, r) == BlockSize(G, r))
         && newSize <= BlockSize(G1, q.value)
         && q.value + BlockSize(G, p) <= |mem| && p + BlockSize(G, p) <= |mem|
         && mem1[q.value..q.value + BlockSize(G, p)] == mem[p..p + BlockSize(G, p)]
         && OthersKept(G, mem, mem1, p)
  }

  /** The bytes of every block but p are what they were. */
  ghost predicate OthersKept(G: Segment, mem: seq<byte>, mem1: seq<byte>, p: nat) {
    |mem1| == |mem| &&
    forall r: nat, y: nat :: IsLive(G, r) && r != p && r <= y < r + BlockSize(G, r) && y < |mem| ==> mem1[y] == mem[y]
  }

  lemma BlockThere(G: Segment, mem: seq<byte>, p: nat)
    requires SegmentOk(G, mem, -1) && IsLive(G, p)
    ensures p / ARENA_SIZE < |G.heads| == |G.slots.cls| && G.heads[p / ARENA_SIZE].classSize == BlockSize(G, p)
    ensures !G.heads[p / ARENA_SIZE].dropped
  {
    hide ListsOk, SparesOk;
    assert ArenaHere(G, mem, p / ARENA_SIZE);
  }

  lemma InCarved(p: nat, n: nat)
    requires p / ARENA_SIZE < n
    ensures p < n * ARENA_SIZE
  {
    assert (p / ARENA_SIZE + 1) * ARENA_SIZE <= n * ARENA_SIZE;
  }

  lemma SlotBounds(G: Segment, mem: seq<byte>, p: nat)
    requires SegmentOk(G, mem, -1) && IsLive(G, p)
    ensures p / ARENA_SIZE < |G.slots.cls| == |G.heads|
    ensures var a := p / ARENA_SIZE;
            var c := G.slots.cls[a];
            && IsSlotOffset(c, p - a * ARENA_SIZE)
            && ClassOfSize(G.heads[a].classSize) == Some(c) && G.heads[a].headerSlots == HeaderSlots(c)
  {
    hide ListsOk, SparesOk, ArenaHere, LiveSlot;
    BlockSlot(G, mem, p);
    var a := p / ARENA_SIZE;
    var c := G.slots.cls[a];
    OffsetSlot(c, p, a);
    LiveBounds(c, G.slots.free[a], G.slots.bump[a], SlotOf(c, p));
  }

  lemma KeptElsewhere(G: Segment, mem: seq<byte>, mem0: seq<byte>, mem1: seq<byte>, p: nat)
    requires SegmentOk(G, mem0, -1) && IsLive(G, p) && |mem| == |mem1|
    requires forall y :: 0 <= y < |mem| && !(p <= y < p + BlockSize(G, p)) ==> mem1[y] == mem[y]
    ensures OthersKept(G, mem, mem1, p)
  {
    hide SegmentOk, IsLive, BlockSize;
    forall r: nat, y: nat | IsLive(G, r) && r != p && r <= y < r + BlockSize(G, r) && y < |mem| ensures mem1[y] == mem[y] {
      if r < p { LiveDisjoint(G, mem0, r, p); } else { LiveDisjoint(G, mem0, p, r); }
    }
  }

  lemma FreedBytes(G: Segment, G1: Segment, mem: seq<byte>, mem1: seq<byte>, p: nat, newSize: nat)
    requires SegmentOk(G, mem, -1) && Shrank(G, G1, p) && |mem1| == |mem| && (newSize == 0 || newSize > SLOT_SIZE_MAX)
    requires forall y :: 0 <= y < |mem| && !(p <= y < p + 4) ==> mem1[y] == mem[y]
    ensures Resized(G, G1, mem, mem1, p, newSize, None)
  {
    hide SegmentOk, IsLive;
    BlockThere(G, mem, p);
    KeptElsewhere(G, mem, mem, mem1, p);
  }

  lemma Stays(G: Segment, mem: seq<byte>, p: nat, newSize: nat)
    requires SegmentOk(G, mem, -1) && IsLive(G, p) && p / ARENA_SIZE < |G.slots.cls| && 0 < newSize <= BlockSize(G, p)
    requires newSize <= SLOT_SIZE_MAX
    ensures Resized(G, G, mem, mem, p, newSize, Some(p))
  {
  }

  lemma NoRoom(G: Segment, G1: Segment, mem: seq<byte>, p: nat, newSize: nat)
    requires SegmentOk(G, mem, -1) && IsLive(G, p) && p / ARENA_SIZE < |G.slots.cls| && newSize > BlockSize(G, p)
    requires newSize <= SLOT_SIZE_MAX && SameBlocks(G, G1)
    ensures Resized(G, G1, mem, mem, p, newSize, None)
  {
  }

  /** The new block is apart from the old one. */
  lemma NewApart(G: Segment, G1: Segment, mem: seq<byte>, p: nat, q: nat)
    requires SegmentOk(G, mem, -1) && SegmentOk(G1, mem, -1) && IsLive(G, p) && !IsLive(G, q) && IsLive(G1, p) && IsLive(G1, q)
    requires BlockSize(G, p) == BlockSize(G1, p)
    ensures p + BlockSize(G, p) <= |mem| && q + BlockSize(G1, q) <= |mem| && 8 <= BlockSize(G, p)
    ensures p + BlockSize(G, p) <= q || q + BlockSize(G1, q) <= p
  {
    hide SegmentOk, IsLive, BlockSize;
    BlockSizeMin(G, p);
    LivePlaced(G1, mem, p);
    LivePlaced(G1, mem, q);
    if p < q { LiveDisjoint(G1, mem, p, q); } else { LiveDisjoint(G1, mem, q, p); }
  }

  lemma SliceMoved(mem: seq<byte>, mem2: seq<byte>, p: nat, q: nat, k: nat)
    requires p + k <= |mem| && q + k <= |mem2| && forall y :: q <= y < q + k ==> mem2[y] == mem[y - q + p]
    ensures mem2[q..q + k] == mem[p..p + k]
  {
    var a, b := mem2[q..q + k], mem[p..p + k];
    forall i: nat | i < k ensures a[i] == b[i] { assert a[i] == mem2[q + i] && b[i] == mem[p + i]; }
  }

  lemma BlockSizeMin(G: Segment, p: nat)
    requires IsLive(G, p)
    ensures 8 <= BlockSize(G, p)
  {
  }

  lemma MovedBytes(G: Segment, G1: Segment, G2: Segment, mem: seq<byte>, mem1: seq<byte>, mem2: seq<byte>,
                   p: nat, q: nat, newSize: nat)
    requires SegmentOk(G, mem, -1) && SegmentOk(G1, mem, -1) && IsLive(G, p) && |mem| == |mem1| == |mem2|
    requires p / ARENA_SIZE < |G.slots.cls| && BlockSize(G, p) < newSize <= SLOT_SIZE_MAX
    requires Grew(G, G1, q, ClassFor(newSize)) && newSize <= BlockSize(G1, q) && Shrank(G1, G2, p)
    requires q + BlockSize(G, p) <= |mem| && p + BlockSize(G, p) <= |mem|
    requires forall y :: q <= y < q + BlockSize(G, p) ==> mem1[y] == mem[y - q + p]
    requires forall y :: 0 <= y < |mem| && !(q <= y < q + BlockSize(G, p)) ==> mem1[y] == mem[y]
    requires forall y :: 0 <= y < |mem| && !(p <= y < p + 4) ==> mem2[y] == mem1[y]
    ensures Resized(G, G2, mem, mem2, p, newSize, Some(q))
  {
    hide SegmentOk, IsLive;
    var k := BlockSize(G, p);
    NewApart(G, G1, mem, p, q);
    forall y | q <= y < q + k ensures mem2[y] == mem[y - q + p] { assert mem2[y] == mem1[y]; }
    SliceMoved(mem, mem2, p, q, k);
    forall r: nat, y: nat | IsLive(G, r) && r != p && r <= y < r + BlockSize(G, r) && y < |mem| ensures mem2[y] == mem[y] {
      if r < q { LiveDisjoint(G1, mem, r, q); } else { LiveDisjoint(G1, mem, q, r); }
      if r < p { LiveDisjoint(G1, mem, r, p); } else { LiveDisjoint(G1, mem, p, r); }
    }
  }

  // ---- Trimming ----

  /** The coldest arenas have gone from the ring to the revive chain; the class chains are what they were. */
  /** The arenas of the list whose pages can be given back and are taken. */
  function Taken(list: seq<nat>, pageSize: nat, drops: nat -> bool): set<nat> {
    set a | a in list && pageSize < ARENA_SIZE && drops(a)
  }

  /** The bytes of the pages of n arenas. */
  function GivenBack(pageSize: nat, n: nat): nat {
    n * if pageSize < ARENA_SIZE then ARENA_SIZE - pageSize else 0
  }

  lemma GivenMore(pageSize: nat, n: nat)
    ensures GivenBack(pageSize, 0) == 0
    ensures GivenBack(pageSize, n + 1) == GivenBack(pageSize, n) + if pageSize < ARENA_SIZE then ARENA_SIZE - pageSize else 0
  {
  }

  /** The arenas that left the ring from position n on are marked if their pages were taken, and no others are anew. */
  ghost predicate MarkedFrom(G: Segment, heads: seq<ArenaHead>, n: nat, pageSize: nat, drops: nat -> bool, bytes: nat) {
    && n <= |G.lists.ring|
    && Dropped(heads) == Dropped(G.heads) + Taken(G.lists.ring[n..], pageSize, drops)
    && bytes == GivenBack(pageSize, |Taken(G.lists.ring[n..], pageSize, drops)|)
  }

  lemma MarksTell(G: Segment, heads: seq<ArenaHead>, n: nat, pageSize: nat, drops: nat -> bool, bytes: nat)
    requires MarkedFrom(G, heads, n, pageSize, drops, bytes)
    ensures n <= |G.lists.ring| && Dropped(heads) == Dropped(G.heads) + Taken(G.lists.ring[n..], pageSize, drops)
    ensures bytes == GivenBack(pageSize, |Taken(G.lists.ring[n..], pageSize, drops)|)
  {
  }

  lemma NoneTaken(G: Segment, mem: seq<byte>, pageSize: nat, drops: nat -> bool)
    requires SegmentOk(G, mem, -1)
    ensures MarkedFrom(G, G.heads, G.lists.residentCount, pageSize, drops, 0)
  {
    hide SegmentOk, Dropped;
    RingSize(G, mem);
    assert Taken(G.lists.ring[G.lists.residentCount..], pageSize, drops) == {};
  }

  lemma TakenMore(G: Segment, mem: seq<byte>, G1: Segment, mem1: seq<byte>, G2: Segment, pageSize: nat,
                  drops: nat -> bool, bytes: nat, n: nat)
    requires SegmentOk(G, mem, -1) && TrimmedTo(G, mem, G1, mem1) && TrimmedByOne(G1.lists, G2.lists)
    requires MarkedFrom(G, G1.heads, G1.lists.residentCount, pageSize, drops, bytes)
    requires var a := G1.lists.ring[|G1.lists.ring| - 1];
      && Dropped(G2.heads) == Dropped(G1.heads) + Taken([a], pageSize, drops)
      && n == if pageSize < ARENA_SIZE && drops(a) then ARENA_SIZE - pageSize else 0
    ensures MarkedFrom(G, G2.heads, G2.lists.residentCount, pageSize, drops, bytes + n)
  {
    hide SegmentOk, Taken, GivenBack, Dropped, SameBlocks, SameBytes;
    RingDistinct(G, mem);
    var ring, k := G.lists.ring, G2.lists.residentCount;
    TakenBefore(ring, k, pageSize, drops);
    GivenMore(pageSize, |Taken(ring[k + 1..], pageSize, drops)|);
    assert G1.lists.ring[|G1.lists.ring| - 1] == ring[k];
  }

  lemma TakenBefore(ring: seq<nat>, n: nat, pageSize: nat, drops: nat -> bool)
    requires n < |ring| && forall i, j :: 0 <= i < j < |ring| ==> ring[i] != ring[j]
    ensures Taken(ring[n..], pageSize, drops) == Taken(ring[n + 1..], pageSize, drops) + Taken([ring[n]], pageSize, drops)
    ensures |Taken(ring[n..], pageSize, drops)| ==
            |Taken(ring[n + 1..], pageSize, drops)| + if pageSize < ARENA_SIZE && drops(ring[n]) then 1 else 0
  {
    assert ring[n..] == [ring[n]] + ring[n + 1..];
    var rest := Taken(ring[n + 1..], pageSize, drops);
    assert ring[n] !in rest;
    assert Taken([ring[n]], pageSize, drops) == if pageSize < ARENA_SIZE && drops(ring[n]) then {ring[n]} else {};
  }

  lemma RingDistinct(G: Segment, mem: seq<byte>)
    requires SegmentOk(G, mem, -1)
    ensures forall i, j :: 0 <= i < j < |G.lists.ring| ==> G.lists.ring[i] != G.lists.ring[j]
  {
    hide ArenaHere, SparesOk;
    assert ListsOk(G.heads, G.lists);
    assert NoDup(G.lists.ring);
  }

  lemma DelinkDropped(heads: seq<ArenaHead>, a: nat)
    requires a < |heads| && heads[a].prev < |heads| && heads[a].next < |heads|
    ensures Dropped(Delink(heads, a)) == Dropped(heads)
  {
  }

  ghost predicate Trimmed(L: Lists, L1: Lists) {
    && L1.residentCount <= |L.ring| && L1.ring == L.ring[..L1.residentCount]
    && L1.revived == L.ring[L1.residentCount..] + L.revived && L1.chains == L.chains
  }

  ghost predicate TrimmedByOne(L: Lists, L1: Lists) {
    && L.residentCount == |L.ring| > 0 && L1.residentCount == L.residentCount - 1
    && L1.ring == L.ring[..|L.ring| - 1] && L1.revived == [L.ring[|L.ring| - 1]] + L.revived && L1.chains == L.chains
  }

  lemma TailReturned(L: Lists, M: Lists, L1: Lists, a: nat)
    requires L.residentCount == |L.ring| > 0 && a == L.ring[|L.ring| - 1]
    requires M.ring == L.ring[..|L.ring| - 1] && M.residentCount == |M.ring| && M.revived == L.revived && M.chains == L.chains
    requires a < |M.place| && L1 == Return(M, a)
    ensures TrimmedByOne(L, L1)
  {
  }

  ghost predicate TrimmedTo(G: Segment, mem: seq<byte>, G1: Segment, mem1: seq<byte>) {
    SameBlocks(G, G1) && SameBytes(G, mem, mem1) && Trimmed(G.lists, G1.lists)
  }

  lemma TrimStart(G: Segment, mem: seq<byte>)
    requires SegmentOk(G, mem, -1)
    ensures TrimmedTo(G, mem, G, mem)
  {
    RingSize(G, mem);
    hide SegmentOk, IsLive, BlockSize;
    SameSegment(G);
    BytesSame(G, mem);
    TrimmedNot(G.lists);
  }

  lemma TrimStep(G: Segment, mem: seq<byte>, G1: Segment, mem1: seq<byte>, G2: Segment, mem2: seq<byte>)
    requires TrimmedTo(G, mem, G1, mem1) && SameBlocks(G1, G2) && SameBytes(G1, mem1, mem2)
    requires TrimmedByOne(G1.lists, G2.lists)
    ensures TrimmedTo(G, mem, G2, mem2)
  {
    hide SameBlocks, SameBytes;
    SameTwice(G, G1, G2, mem, mem1, mem2);
    TrimmedMore(G.lists, G1.lists, G2.lists);
  }

  lemma TrimEnd(G: Segment, mem: seq<byte>, G1: Segment, mem1: seq<byte>)
    requires TrimmedTo(G, mem, G1, mem1)
    ensures SameBlocks(G, G1) && SameBytes(G, mem, mem1) && Trimmed(G.lists, G1.lists)
  {
    hide SameBlocks, SameBytes, Trimmed;
  }

  lemma TrimmedNot(L: Lists)
    requires L.residentCount == |L.ring|
    ensures Trimmed(L, L)
  {
    assert L.ring[..|L.ring|] == L.ring && L.ring[|L.ring|..] == [];
  }

  lemma TrimmedMore(L: Lists, L1: Lists, L2: Lists)
    requires Trimmed(L, L1) && L1.residentCount == |L1.ring| > 0 && L2.residentCount == L1.residentCount - 1
    requires L2.ring == L1.ring[..|L1.ring| - 1] && L2.revived == [L1.ring[|L1.ring| - 1]] + L1.revived
    requires L2.chains == L1.chains
    ensures Trimmed(L, L2)
  {
    var k := L2.residentCount;
    assert L.ring[..k + 1][k] == L.ring[k];
    assert L.ring[k..] == [L.ring[k]] + L.ring[k + 1..];
    assert L.ring[..k + 1][..k] == L.ring[..k];
  }

  /** The bytes of every block are what they were. */
  ghost predicate SameBytes(G: Segment, mem: seq<byte>, mem1: seq<byte>) {
    |mem1| == |mem| &&
    forall r: nat, y: nat :: IsLive(G, r) && r <= y < r + BlockSize(G, r) && y < |mem| ==> mem1[y] == mem[y]
  }

  lemma BytesSame(G: Segment, mem: seq<byte>)
    ensures SameBytes(G, mem, mem)
  {
  }

  lemma SameTwice(G: Segment, G1: Segment, G2: Segment, mem: seq<byte>, mem1: seq<byte>, mem2: seq<byte>)
    requires SameBlocks(G, G1) && SameBlocks(G1, G2) && SameBytes(G, mem, mem1) && SameBytes(G1, mem1, mem2)
    ensures SameBlocks(G, G2) && SameBytes(G, mem, mem2)
  {
    hide IsLive, BlockSize;
    forall r: nat, y: nat | IsLive(G, r) && r <= y < r + BlockSize(G, r) && y < |mem| ensures mem2[y] == mem[y] {
      assert mem1[y] == mem[y];
    }
  }

  lemma RingSize(G: Segment, mem: seq<byte>)
    requires SegmentOk(G, mem, -1)
    ensures G.lists.residentCount == |G.lists.ring|
  {
    RingCount(G.heads, G.lists);
  }

  lemma ShellFits(G: Segment, mem: seq<byte>, a: nat)
    requires SegmentOk(G, mem, a) && a < |G.heads|
    ensures (a + 1) * ARENA_SIZE <= |mem|
  {
    hide ListsOk, SparesOk, ArenaHere;
    ArenaFits(G, mem, a);
  }

  /** Dropping the pages of an arena without blocks leaves all blocks alone. */
  lemma DroppedBytes(G: Segment, mem: seq<byte>, mem1: seq<byte>, a: nat)
    requires SegmentOk(G, mem, -1) && a < |G.heads| == |G.lists.place|
    requires G.lists.place[a].Parked? || G.lists.place[a].Returned?
    requires |mem1| == |mem|
    requires forall y :: 0 <= y < |mem| && !(a * ARENA_SIZE <= y < (a + 1) * ARENA_SIZE) ==> mem1[y] == mem[y]
    ensures SameBytes(G, mem, mem1)
  {
    hide SegmentOk, LiveIn;
    NotLive(G, mem, a);
    forall r: nat, y: nat | IsLive(G, r) && r <= y < r + BlockSize(G, r) && y < |mem| ensures mem1[y] == mem[y] {
      LivePlaced(G, mem, r);
      var b := r / ARENA_SIZE;
      assert b != a;
      if b < a { assert (b + 1) * ARENA_SIZE <= a * ARENA_SIZE; } else { assert (a + 1) * ARENA_SIZE <= b * ARENA_SIZE; }
    }
  }

  lemma MarkDropped(G: Segment, G1: Segment, G2: Segment, mem: seq<byte>, a: nat)
    requires SegmentOk(G1, mem, a) && a < |G1.heads| && OnItsWay(G, G1, a)
    requires G2 == G1.(heads := G1.heads[a := G1.heads[a].(dropped := true)])
    ensures SegmentOk(G2, mem, a) && OnItsWay(G, G2, a) && ListsOk(G2.heads, G2.lists)
  {
    hide ListsOk, ArenaOk, LiveSlot;
    SameLinksOk(G1.heads, G2.heads, G1.lists);
    forall x: nat | x < |G2.heads| && x != a ensures ArenaHere(G2, mem, x) { assert ArenaHere(G1, mem, x); }
    assert SparesOk(G2, mem, a);
  }
}
