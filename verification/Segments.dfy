/** The slab allocator's segment: all arenas with their places, free lists and spares; its invariant and its steps. */
module Segments {
  import opened Types
  import opened Memory
  import opened Links
  import opened Arenas
  import opened Lists

  const SPARE_KEEP: nat := 2

  /** Per arena: its class, its free list and its bump position. */
  datatype Slots = Slots(cls: seq<class_>, free: seq<seq<nat>>, bump: seq<nat>)

  datatype Segment = Segment(heads: seq<ArenaHead>, lists: Lists, slots: Slots, spare: seq<seq<nat>>)

  predicate Shaped(G: Segment, mem: seq<byte>) {
    && |G.lists.place| == |G.slots.cls| == |G.slots.free| == |G.slots.bump| == |G.heads|
    && |G.spare| == SLOT_CLASSES && |G.heads| * ARENA_SIZE <= |mem|
  }

  /** A chained arena has a free slot and, when empty, is a recorded spare of its class; an arena off the lists is full;
      a parked one has its pages, and its slots are all free. */
  ghost predicate ArenaHere(G: Segment, mem: seq<byte>, a: nat)
    requires Shaped(G, mem) && a < |G.heads|
  {
    var h, c := G.heads[a], G.slots.cls[a];
    match G.lists.place[a]
    case OnChain(d) =>
      c == d && ArenaOk(h, mem, a * ARENA_SIZE, c, G.slots.free[a], G.slots.bump[a]) && h.freeSlotCount > 0
      && (h.freeSlotCount == Capacity(c) ==> a in G.spare[c])
    case Off =>
      ArenaOk(h, mem, a * ARENA_SIZE, c, G.slots.free[a], G.slots.bump[a]) && h.freeSlotCount == 0
      && h.next == UNLINKED == h.prev
    case Parked =>
      ArenaOk(h, mem, a * ARENA_SIZE, c, G.slots.free[a], G.slots.bump[a]) && h.freeSlotCount == Capacity(c)
    case Returned => true
  }

  /** The spares of a class are arenas of that class, at most two, and never `but`. */
  ghost predicate SparesOk(G: Segment, mem: seq<byte>, but: int)
    requires Shaped(G, mem)
  {
    forall c: class_ ::
      |G.spare[c]| <= SPARE_KEEP &&
      forall x :: x in G.spare[c] ==>
        x < |G.heads| && x != but && G.slots.cls[x] == c && (G.lists.place[x] == OnChain(c) || G.lists.place[x] == Off)
  }

  /** The allocator's invariant, except for the one arena `but` that is on its way between two places. */
  ghost predicate SegmentOk(G: Segment, mem: seq<byte>, but: int) {
    && Shaped(G, mem) && ListsOk(G.heads, G.lists) && SparesOk(G, mem, but)
    && forall a: nat :: a < |G.heads| && a != but ==> ArenaHere(G, mem, a)
  }

  // ---- Live blocks ----

  predicate InUse(G: Segment, a: nat)
    requires a < |G.lists.place|
  {
    !G.lists.place[a].Returned?
  }

  ghost predicate LiveIn(G: Segment, a: nat, s: nat) {
    && a < |G.lists.place| == |G.slots.cls| == |G.slots.free| == |G.slots.bump|
    && InUse(G, a) && LiveSlot(G.slots.cls[a], G.slots.free[a], G.slots.bump[a], s)
  }

  /** The address p, relative to the segment, is that of an allocated block. */
  ghost predicate IsLive(G: Segment, p: nat) {
    var a := p / ARENA_SIZE;
    a < |G.slots.cls| &&
    var k := ClassSize(G.slots.cls[a]);
    p % k == 0 && LiveIn(G, a, p % ARENA_SIZE / k)
  }

  function BlockSize(G: Segment, p: nat): nat {
    if p / ARENA_SIZE < |G.slots.cls| then ClassSize(G.slots.cls[p / ARENA_SIZE]) else 0
  }

  function AddressOf(c: class_, a: nat, s: nat): nat { SlotAt(a * ARENA_SIZE, c, s) }

  /** Addresses and slots correspond. */
  lemma AddressSlot(c: class_, a: nat, s: nat)
    requires s < TotalSlots(c)
    ensures var p := AddressOf(c, a, s);
            p / ARENA_SIZE == a && p % ClassSize(c) == 0 && p % ARENA_SIZE / ClassSize(c) == s
  {
    var k := ClassSize(c);
    SlotWithin(a * ARENA_SIZE, c, s);
    var p := AddressOf(c, a, s);
    assert p - a * ARENA_SIZE == s * k < ARENA_SIZE;
    DivUnique(p, ARENA_SIZE, a, s * k);
    DivUnique(s * k, k, s, 0);
    assert a * ARENA_SIZE == (a * TotalSlots(c)) * k;
    assert p == (a * TotalSlots(c) + s) * k;
    DivUnique(p, k, a * TotalSlots(c) + s, 0);
  }

  lemma MulLess(a: int, b: int, d: nat)
    ensures a < b ==> (a + 1) * d <= b * d
  {
  }

  lemma DivUnique(n: nat, d: nat, q: nat, r: nat)
    requires d > 0 && n == q * d + r && r < d
    ensures n / d == q && n % d == r
  {
    var q1, r1 := n / d, n % d;
    assert n == q1 * d + r1;
    MulLess(q1, q, d);
    MulLess(q, q1, d);
  }

  lemma SlotAddress(c: class_, p: nat)
    requires p % ClassSize(c) == 0
    ensures p % ARENA_SIZE / ClassSize(c) < TotalSlots(c)
    ensures AddressOf(c, p / ARENA_SIZE, p % ARENA_SIZE / ClassSize(c)) == p
    ensures (p - p / ARENA_SIZE * ARENA_SIZE) % ClassSize(c) == 0
    ensures (p - p / ARENA_SIZE * ARENA_SIZE) / ClassSize(c) == p % ARENA_SIZE / ClassSize(c)
  {
    var k := ClassSize(c);
    var a, o := p / ARENA_SIZE, p % ARENA_SIZE;
    assert p == a * ARENA_SIZE + o;
    assert a * ARENA_SIZE == (a * TotalSlots(c)) * k;
    var q := p / k;
    assert p == q * k;
    assert o == (q - a * TotalSlots(c)) * k;
    MulLess(q - a * TotalSlots(c), 0, k);
    DivUnique(o, k, q - a * TotalSlots(c), 0);
    MulLess(TotalSlots(c) - 1, o / k, k);
  }

  /** An arena with an allocated block is neither parked nor returned. */
  lemma LiveNotParked(G: Segment, mem: seq<byte>, a: nat, s: nat)
    requires SegmentOk(G, mem, -1) && LiveIn(G, a, s)
    ensures a < |G.heads| == |G.lists.place| && (G.lists.place[a].OnChain? || G.lists.place[a].Off?)
  {
    hide ListsOk, SparesOk, ArenaOk, LiveSlot;
    assert ArenaHere(G, mem, a);
    if G.lists.place[a].Parked? {
      EmptyHasNoLive(G.heads[a], mem, a * ARENA_SIZE, G.slots.cls[a], G.slots.free[a], G.slots.bump[a]);
    }
  }

  /** Every allocated block lies in a carved arena, behind the arena's header. */
  lemma LivePlaced(G: Segment, mem: seq<byte>, p: nat)
    requires SegmentOk(G, mem, -1) && IsLive(G, p)
    ensures var a := p / ARENA_SIZE;
            a < |G.heads| && a * ARENA_SIZE + HEADER_BYTES <= p && p + BlockSize(G, p) <= (a + 1) * ARENA_SIZE <= |mem|
  {
    hide ListsOk, SparesOk;
    var a := p / ARENA_SIZE;
    var c := G.slots.cls[a];
    assert ArenaHere(G, mem, a);
    SlotAddress(c, p);
    var s := p % ARENA_SIZE / ClassSize(c);
    SlotWithin(a * ARENA_SIZE, c, s);
    assert (a + 1) * ARENA_SIZE <= |G.heads| * ARENA_SIZE;
  }

  /** Different allocated blocks do not overlap. */
  lemma LiveDisjoint(G: Segment, mem: seq<byte>, p: nat, q: nat)
    requires SegmentOk(G, mem, -1) && IsLive(G, p) && IsLive(G, q) && p < q
    ensures p + BlockSize(G, p) <= q
  {
    var a, b := p / ARENA_SIZE, q / ARENA_SIZE;
    LivePlaced(G, mem, p);
    LivePlaced(G, mem, q);
    if a == b {
      var c := G.slots.cls[a];
      SlotAddress(c, p);
      SlotAddress(c, q);
      var s, t := p % ARENA_SIZE / ClassSize(c), q % ARENA_SIZE / ClassSize(c);
      if s < t { SlotsApart(a * ARENA_SIZE, c, s, t); } else if t < s { SlotsApart(a * ARENA_SIZE, c, t, s); }
    } else {
      assert a <= b;
      assert (a + 1) * ARENA_SIZE <= b * ARENA_SIZE;
    }
  }

  // ---- Steps that move an arena ----

  /** Relinking keeps the arenas that stay where they are. */
  lemma MovedHere(G: Segment, G1: Segment, mem: seq<byte>, a: nat, x: nat)
    requires Shaped(G, mem) && Shaped(G1, mem) && x < |G.heads| == |G1.heads| && x != a
    requires Moved(G.heads, G1.heads, G.lists, a) && ArenaHere(G, mem, x)
    requires G1.lists.place[x] == G.lists.place[x] && G1.slots.cls[x] == G.slots.cls[x]
    requires G1.slots.free[x] == G.slots.free[x] && G1.slots.bump[x] == G.slots.bump[x]
    requires forall c: class_ :: forall y :: y in G.spare[c] ==> y in G1.spare[c]
    ensures ArenaHere(G1, mem, x)
  {
    hide ArenaOk;
    assert SameBut(G.heads[x], G1.heads[x]);
    if InUse(G, x) {
      RelinkedOk(G.heads[x], G1.heads[x], mem, x * ARENA_SIZE, G.slots.cls[x], G.slots.free[x], G.slots.bump[x]);
    }
  }

  /** An arena leaves the ring or the revive chain. */
  lemma TakenOut(G: Segment, G1: Segment, mem: seq<byte>, a: nat)
    requires SegmentOk(G, mem, -1) && a < |G.heads| && (G.lists.place[a].Parked? || G.lists.place[a].Returned?)
    requires G1 == G.(heads := G1.heads, lists := G1.lists) && ListsOk(G1.heads, G1.lists)
    requires Moved(G.heads, G1.heads, G.lists, a) && G1.lists.place == G.lists.place[a := Off]
    ensures SegmentOk(G1, mem, a)
    ensures forall b: nat, s: nat :: b != a ==> (LiveIn(G1, b, s) <==> LiveIn(G, b, s))
  {
    hide ListsOk, ArenaHere;
    forall x: nat | x < |G.heads| && x != a ensures ArenaHere(G1, mem, x) { MovedHere(G, G1, mem, a, x); }
    assert SparesOk(G1, mem, a);
  }

  /** All slots of the arena are free. */
  ghost predicate Empty(G: Segment, mem: seq<byte>, a: nat)
    requires Shaped(G, mem) && a < |G.heads|
  {
    var h, c := G.heads[a], G.slots.cls[a];
    ArenaOk(h, mem, a * ARENA_SIZE, c, G.slots.free[a], G.slots.bump[a]) && h.freeSlotCount == Capacity(c)
  }

  /** An arena on its way goes to the ring or the revive chain. */
  lemma PutIn(G: Segment, G1: Segment, mem: seq<byte>, a: nat, p: Place)
    requires SegmentOk(G, mem, a) && a < |G.heads| && G.lists.place[a] == Off && (p.Parked? || p.Returned?)
    requires G1 == G.(heads := G1.heads, lists := G1.lists) && ListsOk(G1.heads, G1.lists)
    requires Moved(G.heads, G1.heads, G.lists, a) && G1.lists.place == G.lists.place[a := p]
    requires p.Parked? ==> Empty(G, mem, a)
    ensures SegmentOk(G1, mem, -1)
    ensures forall b: nat, s: nat :: LiveIn(G1, b, s) <==> b != a && LiveIn(G, b, s)
  {
    hide ListsOk, ArenaOk;
    var c := G.slots.cls[a];
    if p.Parked? {
      RelinkedOk(G.heads[a], G1.heads[a], mem, a * ARENA_SIZE, c, G.slots.free[a], G.slots.bump[a]);
      EmptyHasNoLive(G1.heads[a], mem, a * ARENA_SIZE, c, G.slots.free[a], G.slots.bump[a]);
    }
    forall x: nat | x < |G.heads| ensures ArenaHere(G1, mem, x) {
      if x != a { MovedHere(G, G1, mem, a, x); }
    }
    assert SparesOk(G1, mem, -1);
  }

  // ---- Claims ----

  function ClaimedSlots(S: Slots, a: nat): Slots
    requires a < |S.free| == |S.bump|
  {
    S.(free := S.free[a := ClaimedFree(S.free[a])], bump := S.bump[a := ClaimedBump(S.free[a], S.bump[a])])
  }

  /** Exactly the slot s of arena a has become live. */
  ghost predicate Gained(G: Segment, G1: Segment, a: nat, s: nat) {
    && !LiveIn(G, a, s)
    && forall b: nat, t: nat :: LiveIn(G1, b, t) <==> LiveIn(G, b, t) || (b == a && t == s)
  }

  ghost predicate Lost(G: Segment, G1: Segment, a: nat, s: nat) {
    LiveIn(G, a, s) && forall b: nat, t: nat :: LiveIn(G1, b, t) <==> LiveIn(G, b, t) && !(b == a && t == s)
  }

  /** The arena a is on the chain of class c and has a free slot; it need not be a recorded spare. */
  ghost predicate Claimable(G: Segment, mem: seq<byte>, c: class_, a: nat) {
    && Shaped(G, mem) && ListsOk(G.heads, G.lists) && SparesOk(G, mem, -1)
    && a < |G.heads| && G.lists.place[a] == OnChain(c) && G.slots.cls[a] == c && G.heads[a].freeSlotCount > 0
    && ArenaOk(G.heads[a], mem, a * ARENA_SIZE, c, G.slots.free[a], G.slots.bump[a])
    && forall x: nat :: x < |G.heads| && x != a ==> ArenaHere(G, mem, x)
  }

  lemma ChainClaimable(G: Segment, mem: seq<byte>, c: class_, a: nat)
    requires SegmentOk(G, mem, -1) && a < |G.heads| && G.lists.place[a] == OnChain(c)
    ensures Claimable(G, mem, c, a)
  {
    hide ListsOk, ArenaOk, SparesOk;
    assert ArenaHere(G, mem, a);
  }

  /** A claim in the first arena of a class chain, which leaves the chain if that was its last slot. */
  lemma ClaimStep(G: Segment, mem: seq<byte>, c: class_, a: nat)
    requires Claimable(G, mem, c, a)
    ensures 0 <= G.heads[a].freeHead
    ensures G.heads[a].freeHead != SLOT_NONE ==> SlotAt(a * ARENA_SIZE, c, G.heads[a].freeHead) + 4 <= |mem|
    ensures HeaderSlots(c) <= ClaimedSlot(G.heads[a], c) < TotalSlots(c)
    ensures var h := ClaimedHead(G.heads[a], mem, a * ARENA_SIZE, c);
            var M := G.(heads := G.heads[a := h], slots := ClaimedSlots(G.slots, a));
            && Shaped(M, mem) && ListsOk(M.heads, M.lists) && SparesOk(M, mem, -1)
            && (forall x: nat :: x < |G.heads| && x != a ==> ArenaHere(M, mem, x))
            && ArenaOk(h, mem, a * ARENA_SIZE, c, M.slots.free[a], M.slots.bump[a])
            && Gained(G, M, a, ClaimedSlot(G.heads[a], c))
            && (h.freeSlotCount > 0 ==> SegmentOk(M, mem, -1))
  {
    hide ListsOk, LiveSlot, ClaimedHead, ClaimedFree, ClaimedBump, ClaimedSlot, ArenaOk;
    var h0 := G.heads[a];
    ClaimOk(h0, mem, a * ARENA_SIZE, c, G.slots.free[a], G.slots.bump[a]);
    ClaimCount(h0, mem, a * ARENA_SIZE, c);
    var h := ClaimedHead(h0, mem, a * ARENA_SIZE, c);
    var M := G.(heads := G.heads[a := h], slots := ClaimedSlots(G.slots, a));
    SameLinksOk(G.heads, M.heads, G.lists);
    FreeAtMost(h0, mem, a * ARENA_SIZE, c, G.slots.free[a], G.slots.bump[a]);
    forall x: nat | x < |G.heads| && x != a ensures ArenaHere(M, mem, x) { assert ArenaHere(G, mem, x); }
    assert SparesOk(M, mem, -1);
  }

  lemma ClaimCount(h: ArenaHead, mem: seq<byte>, base: nat, c: class_)
    requires h.freeSlotCount > 0 && 0 <= h.freeHead
    requires h.freeHead != SLOT_NONE ==> SlotAt(base, c, h.freeHead) + 4 <= |mem|
    ensures var h1 := ClaimedHead(h, mem, base, c);
            h1.freeSlotCount == h.freeSlotCount - 1 && h1.next == h.next && h1.prev == h.prev
  {
  }

  lemma FreeAtMost(h: ArenaHead, mem: seq<byte>, base: nat, c: class_, free: seq<nat>, bump: nat)
    requires ArenaOk(h, mem, base, c, free, bump)
    ensures h.freeSlotCount <= Capacity(c)
  {
    hide Linked;
    SubsetSize(Elements(free), Range(HeaderSlots(c), bump));
  }

  /** The last slot has been claimed, and the arena has left its chain. */
  lemma FilledStep(M: Segment, G1: Segment, mem: seq<byte>, c: class_, a: nat)
    requires Shaped(M, mem) && SparesOk(M, mem, -1) && a < |M.heads| && M.lists.place[a] == OnChain(c) && M.slots.cls[a] == c
    requires ArenaOk(M.heads[a], mem, a * ARENA_SIZE, c, M.slots.free[a], M.slots.bump[a]) && M.heads[a].freeSlotCount == 0
    requires forall x: nat :: x < |M.heads| && x != a ==> ArenaHere(M, mem, x)
    requires G1 == M.(heads := G1.heads, lists := G1.lists) && ListsOk(G1.heads, G1.lists)
    requires Moved(M.heads, G1.heads, M.lists, a) && G1.lists.place == M.lists.place[a := Off]
    requires G1.heads[a].next == UNLINKED == G1.heads[a].prev
    ensures SegmentOk(G1, mem, -1)
    ensures forall b: nat, t: nat :: LiveIn(G1, b, t) <==> LiveIn(M, b, t)
  {
    hide ListsOk, LiveSlot, ArenaOk;
    assert SameBut(M.heads[a], G1.heads[a]);
    RelinkedOk(M.heads[a], G1.heads[a], mem, a * ARENA_SIZE, c, M.slots.free[a], M.slots.bump[a]);
    forall x: nat | x < |M.heads| ensures ArenaHere(G1, mem, x) {
      if x != a { MovedHere(M, G1, mem, a, x); }
    }
    assert SparesOk(G1, mem, -1);
  }

  // ---- Fresh arenas ----

  function FreshSlots(S: Slots, a: nat, c: class_): Slots
    requires a < |S.cls| == |S.free| == |S.bump|
  {
    Slots(S.cls[a := c], S.free[a := []], S.bump[a := HeaderSlots(c)])
  }

  /** An arena on its way is initialized for class c and goes to the head of that chain. */
  lemma FreshStep(G: Segment, G1: Segment, mem: seq<byte>, c: class_, a: nat)
    requires SegmentOk(G, mem, a) && a < |G.heads| && G.lists.place[a] == Off
    ensures ListsOk(G.heads[a := Initialized(G.heads[a], c)], G.lists)
    ensures Moved(G.heads[a := Initialized(G.heads[a], c)], G1.heads, G.lists, a) && ListsOk(G1.heads, G1.lists)
            && G1 == G.(heads := G1.heads, lists := G1.lists, slots := FreshSlots(G.slots, a, c))
            && G1.lists.place == G.lists.place[a := OnChain(c)] ==>
              Claimable(G1, mem, c, a) &&
              forall b: nat, s: nat :: LiveIn(G1, b, s) <==> b != a && LiveIn(G, b, s)
  {
    hide ListsOk, ArenaOk, LiveSlot;
    var h := Initialized(G.heads[a], c);
    var mid := G.heads[a := h];
    SameLinksOk(G.heads, mid, G.lists);
    ArenaFits(G, mem, a);
    if Moved(mid, G1.heads, G.lists, a) && ListsOk(G1.heads, G1.lists)
       && G1 == G.(heads := G1.heads, lists := G1.lists, slots := FreshSlots(G.slots, a, c))
       && G1.lists.place == G.lists.place[a := OnChain(c)] {
      var M := G.(heads := mid, slots := FreshSlots(G.slots, a, c));
      InitializedOk(G.heads[a], mem, a * ARENA_SIZE, c);
      assert SameBut(h, G1.heads[a]);
      RelinkedOk(h, G1.heads[a], mem, a * ARENA_SIZE, c, [], HeaderSlots(c));
      forall x: nat | x < |G.heads| && x != a ensures ArenaHere(G1, mem, x) {
        assert ArenaHere(G, mem, x);
        assert ArenaHere(M, mem, x);
        MovedHere(M, G1, mem, a, x);
      }
      assert SparesOk(G1, mem, -1);
    }
  }

  lemma ArenaFits(G: Segment, mem: seq<byte>, a: nat)
    requires Shaped(G, mem) && a < |G.heads|
    ensures a * ARENA_SIZE + ARENA_SIZE <= |mem|
  {
    assert (a + 1) * ARENA_SIZE <= |G.heads| * ARENA_SIZE;
  }

  /** Carving moves the frontier over one more arena. */
  lemma CarveStep(G: Segment, G1: Segment, mem: seq<byte>, h: ArenaHead, c: class_)
    requires SegmentOk(G, mem, -1) && (|G.heads| + 1) * ARENA_SIZE <= |mem|
    requires G1 == Segment(G.heads + [h], G.lists.(place := G.lists.place + [Off]),
                           Slots(G.slots.cls + [c], G.slots.free + [[]], G.slots.bump + [HeaderSlots(c)]), G.spare)
    ensures SegmentOk(G1, mem, |G.heads|)
    ensures forall b: nat, s: nat :: b != |G.heads| ==> (LiveIn(G1, b, s) <==> LiveIn(G, b, s))
    ensures forall s: nat :: !LiveIn(G, |G.heads|, s)
  {
    hide ListsOk, ArenaOk, LiveSlot;
    CarvedOk(G.heads, G.lists, h);
    forall x: nat | x < |G1.heads| && x != |G.heads| ensures ArenaHere(G1, mem, x) { assert ArenaHere(G, mem, x); }
    assert SparesOk(G1, mem, |G.heads|);
  }

  // ---- Releases ----

  function ReleasedSlots(S: Slots, a: nat, s: nat): Slots
    requires a < |S.free|
  {
    S.(free := S.free[a := [s] + S.free[a]])
  }

  /** The state after a free, before the arena is moved. */
  ghost predicate Freed(M: Segment, mem: seq<byte>, c: class_, a: nat) {
    && Shaped(M, mem) && ListsOk(M.heads, M.lists) && SparesOk(M, mem, -1)
    && a < |M.heads| && M.slots.cls[a] == c && M.heads[a].freeSlotCount > 0
    && ArenaOk(M.heads[a], mem, a * ARENA_SIZE, c, M.slots.free[a], M.slots.bump[a])
    && forall x: nat :: x < |M.heads| && x != a ==> ArenaHere(M, mem, x)
  }

  lemma ReleaseStep(G: Segment, mem: seq<byte>, a: nat, s: nat)
    requires SegmentOk(G, mem, -1) && LiveIn(G, a, s)
    ensures a < |G.heads| && 0 <= G.heads[a].freeHead < 0x1_0000_0000
    ensures var c := G.slots.cls[a];
            var p := SlotAt(a * ARENA_SIZE, c, s);
            && s < TotalSlots(c) && p + ClassSize(c) <= |mem|
            && var mem1 := StoreWord(mem, p, G.heads[a].freeHead);
               var M := G.(heads := G.heads[a := ReleasedHead(G.heads[a], s)], slots := ReleasedSlots(G.slots, a, s));
               Freed(M, mem1, c, a) && Lost(G, M, a, s)
    ensures G.heads[a].headerSlots == HeaderSlots(G.slots.cls[a]) && G.heads[a].classSize == ClassSize(G.slots.cls[a])
    ensures G.lists.place[a] == OnChain(G.slots.cls[a]) || G.lists.place[a] == Off
    ensures G.lists.place[a] == Off <==> G.heads[a].freeSlotCount == 0
    ensures G.lists.place[a] == Off ==> G.heads[a].next == UNLINKED == G.heads[a].prev
    ensures !G.heads[a].dropped && G.heads[a].freeSlotCount <= Capacity(G.slots.cls[a])
  {
    hide ListsOk, LiveSlot, ArenaOk;
    LiveNotParked(G, mem, a, s);
    assert ArenaHere(G, mem, a);
    var c := G.slots.cls[a];
    var p := SlotAt(a * ARENA_SIZE, c, s);
    UsedFacts(G.heads[a], mem, a * ARENA_SIZE, c, G.slots.free[a], G.slots.bump[a]);
    FreeAtMost(G.heads[a], mem, a * ARENA_SIZE, c, G.slots.free[a], G.slots.bump[a]);
    LiveBounds(c, G.slots.free[a], G.slots.bump[a], s);
    ReleaseOk(G.heads[a], mem, a * ARENA_SIZE, c, G.slots.free[a], G.slots.bump[a], s);
    SlotWithin(a * ARENA_SIZE, c, s);
    ArenaFits(G, mem, a);
    var mem1 := StoreWord(mem, p, G.heads[a].freeHead);
    var M := G.(heads := G.heads[a := ReleasedHead(G.heads[a], s)], slots := ReleasedSlots(G.slots, a, s));
    SameLinksOk(G.heads, M.heads, G.lists);
    forall x: nat | x < |G.heads| && x != a ensures ArenaHere(M, mem1, x) {
      assert ArenaHere(G, mem, x);
      OtherArena(G, mem, mem1, a, x);
    }
    assert SparesOk(M, mem1, -1);
  }

  lemma UsedFacts(h: ArenaHead, mem: seq<byte>, base: nat, c: class_, free: seq<nat>, bump: nat)
    requires ArenaOk(h, mem, base, c, free, bump)
    ensures h.classSize == ClassSize(c) && h.headerSlots == HeaderSlots(c) && !h.dropped && bump <= TotalSlots(c)
  {
  }

  lemma LiveBounds(c: class_, free: seq<nat>, bump: nat, s: nat)
    requires LiveSlot(c, free, bump, s)
    ensures HeaderSlots(c) <= s < bump
  {
  }

  /** Bytes of one arena do not matter to another. */
  lemma OtherArena(G: Segment, mem: seq<byte>, mem1: seq<byte>, a: nat, x: nat)
    requires Shaped(G, mem) && |mem1| == |mem| && x < |G.heads| && x != a && ArenaHere(G, mem, x)
    requires forall y :: 0 <= y < |mem| && !(a * ARENA_SIZE <= y < (a + 1) * ARENA_SIZE) ==> mem1[y] == mem[y]
    ensures ArenaHere(G, mem1, x)
  {
    if InUse(G, x) { OtherBytes(G.heads[x], mem, mem1, a, x, G.slots.cls[x], G.slots.free[x], G.slots.bump[x]); }
  }

  lemma OtherBytes(h: ArenaHead, mem: seq<byte>, mem1: seq<byte>, a: nat, x: nat, c: class_, free: seq<nat>, bump: nat)
    requires x != a && |mem1| == |mem| && ArenaOk(h, mem, x * ARENA_SIZE, c, free, bump)
    requires forall y :: 0 <= y < |mem| && !(a * ARENA_SIZE <= y < (a + 1) * ARENA_SIZE) ==> mem1[y] == mem[y]
    ensures ArenaOk(h, mem1, x * ARENA_SIZE, c, free, bump)
  {
    hide Linked, SlotAt;
    forall i, y | 0 <= i < |free| && SlotAt(x * ARENA_SIZE, c, free[i]) <= y < SlotAt(x * ARENA_SIZE, c, free[i]) + 4
                  && y < |mem|
      ensures mem1[y] == mem[y]
    {
      SlotWithin(x * ARENA_SIZE, c, free[i]);
      if x < a { assert (x + 1) * ARENA_SIZE <= a * ARENA_SIZE; } else { assert (a + 1) * ARENA_SIZE <= x * ARENA_SIZE; }
    }
    KeptOk(h, mem, mem1, x * ARENA_SIZE, c, free, bump);
  }

  /** The arena stays on its chain: it is not empty, or it is one of the spares of its class. */
  lemma FreedStays(M: Segment, mem: seq<byte>, c: class_, a: nat)
    requires Freed(M, mem, c, a) && M.lists.place[a] == OnChain(c)
    requires M.heads[a].freeSlotCount == Capacity(c) ==> a in M.spare[c]
    ensures SegmentOk(M, mem, -1)
  {
    hide ListsOk, ArenaOk, SparesOk;
  }

  /** It becomes a spare. */
  lemma FreedSpare(M: Segment, G1: Segment, mem: seq<byte>, c: class_, a: nat)
    requires Freed(M, mem, c, a) && M.lists.place[a] == OnChain(c) && |M.spare[c]| < SPARE_KEEP
    requires G1 == M.(spare := M.spare[c := M.spare[c] + [a]])
    ensures SegmentOk(G1, mem, -1)
    ensures forall b: nat, t: nat :: LiveIn(G1, b, t) <==> LiveIn(M, b, t)
  {
    hide ListsOk, ArenaOk;
    assert SparesOk(G1, mem, -1);
    forall x: nat | x < |M.heads| ensures ArenaHere(G1, mem, x) {
      if x != a { assert ArenaHere(M, mem, x); } else { assert (M.spare[c] + [a])[|M.spare[c]|] == a; }
    }
  }

  /** It was full, so it comes back to the head of its chain. */
  lemma FreedBack(M: Segment, G1: Segment, mem: seq<byte>, c: class_, a: nat)
    requires Freed(M, mem, c, a) && M.lists.place[a] == Off && M.heads[a].freeSlotCount < Capacity(c)
    requires G1 == M.(heads := G1.heads, lists := G1.lists) && ListsOk(G1.heads, G1.lists)
    requires Moved(M.heads, G1.heads, M.lists, a) && G1.lists.place == M.lists.place[a := OnChain(c)]
    ensures SegmentOk(G1, mem, -1)
    ensures forall b: nat, t: nat :: LiveIn(G1, b, t) <==> LiveIn(M, b, t)
  {
    hide ListsOk, ArenaOk, LiveSlot;
    assert SameBut(M.heads[a], G1.heads[a]);
    RelinkedOk(M.heads[a], G1.heads[a], mem, a * ARENA_SIZE, c, M.slots.free[a], M.slots.bump[a]);
    forall x: nat | x < |M.heads| ensures ArenaHere(G1, mem, x) {
      if x != a { MovedHere(M, G1, mem, a, x); }
    }
    assert SparesOk(G1, mem, -1);
  }

  /** It is empty beyond the quota of spares, so it leaves its chain; no block in it is live. */
  lemma FreedLeaves(M: Segment, G1: Segment, mem: seq<byte>, c: class_, a: nat)
    requires Freed(M, mem, c, a) && M.lists.place[a] == OnChain(c) && M.heads[a].freeSlotCount == Capacity(c)
    requires a !in M.spare[c]
    requires G1 == M.(heads := G1.heads, lists := G1.lists) && ListsOk(G1.heads, G1.lists)
    requires Moved(M.heads, G1.heads, M.lists, a) && G1.lists.place == M.lists.place[a := Off]
    ensures SegmentOk(G1, mem, a) && Shaped(G1, mem) && Empty(G1, mem, a)
    ensures forall b: nat, t: nat :: LiveIn(M, b, t) <==> b != a && LiveIn(G1, b, t)
  {
    hide ListsOk, ArenaOk, LiveSlot;
    UsedFacts(M.heads[a], mem, a * ARENA_SIZE, c, M.slots.free[a], M.slots.bump[a]);
    EmptyHasNoLive(M.heads[a], mem, a * ARENA_SIZE, c, M.slots.free[a], M.slots.bump[a]);
    assert SameBut(M.heads[a], G1.heads[a]);
    RelinkedOk(M.heads[a], G1.heads[a], mem, a * ARENA_SIZE, c, M.slots.free[a], M.slots.bump[a]);
    forall x: nat | x < |M.heads| && x != a ensures ArenaHere(G1, mem, x) { MovedHere(M, G1, mem, a, x); }
    assert SparesOk(G1, mem, a);
  }

  // ---- Writes ----

  /** Writing into an allocated block is no business of the allocator's. */
  lemma WriteKeeps(G: Segment, mem: seq<byte>, mem1: seq<byte>, p: nat)
    requires SegmentOk(G, mem, -1) && IsLive(G, p) && |mem1| == |mem|
    requires forall y :: 0 <= y < |mem| && !(p <= y < p + BlockSize(G, p)) ==> mem1[y] == mem[y]
    ensures SegmentOk(G, mem1, -1)
  {
    hide ListsOk, ArenaOk;
    LivePlaced(G, mem, p);
    var a := p / ARENA_SIZE;
    assert SparesOk(G, mem1, -1);
    forall x: nat | x < |G.heads| ensures ArenaHere(G, mem1, x) {
      assert ArenaHere(G, mem, x);
      if x != a {
        OtherArena(G, mem, mem1, a, x);
      } else {
        var c := G.slots.cls[a];
        SlotAddress(c, p);
        LiveBytes(G.heads[a], mem, mem1, a, c, G.slots.free[a], G.slots.bump[a], p % ARENA_SIZE / ClassSize(c));
      }
    }
  }

  lemma LiveBytes(h: ArenaHead, mem: seq<byte>, mem1: seq<byte>, a: nat, c: class_, free: seq<nat>, bump: nat, s: nat)
    requires |mem1| == |mem| && ArenaOk(h, mem, a * ARENA_SIZE, c, free, bump) && LiveSlot(c, free, bump, s)
    requires var p := AddressOf(c, a, s);
             forall y :: 0 <= y < |mem| && !(p <= y < p + ClassSize(c)) ==> mem1[y] == mem[y]
    ensures ArenaOk(h, mem1, a * ARENA_SIZE, c, free, bump)
  {
    hide Linked, SlotAt;
    forall i, y | 0 <= i < |free| && SlotAt(a * ARENA_SIZE, c, free[i]) <= y < SlotAt(a * ARENA_SIZE, c, free[i]) + 4
                  && y < |mem|
      ensures mem1[y] == mem[y]
    {
      assert free[i] in free;
      if s < free[i] { SlotsApart(a * ARENA_SIZE, c, s, free[i]); } else { SlotsApart(a * ARENA_SIZE, c, free[i], s); }
    }
    KeptOk(h, mem, mem1, a * ARENA_SIZE, c, free, bump);
  }

  /** Nor are the bytes of an arena on its way. */
  lemma DropKeeps(G: Segment, mem: seq<byte>, mem1: seq<byte>, a: nat)
    requires SegmentOk(G, mem, a) && |mem1| == |mem|
    requires forall y :: 0 <= y < |mem| && !(a * ARENA_SIZE <= y < (a + 1) * ARENA_SIZE) ==> mem1[y] == mem[y]
    ensures SegmentOk(G, mem1, a)
  {
    hide ListsOk, ArenaOk;
    assert SparesOk(G, mem1, a);
    forall x: nat | x < |G.heads| && x != a ensures ArenaHere(G, mem1, x) {
      assert ArenaHere(G, mem, x);
      OtherArena(G, mem, mem1, a, x);
    }
  }

  // ---- What the invariant says ----

  /** Every carved arena is in exactly one of: the chain of its class, the resident ring, the revive chain, or none of
      these, and then it is full; it occurs there once. */
  lemma OnePlace(G: Segment, mem: seq<byte>, a: nat)
    requires SegmentOk(G, mem, -1) && a < |G.heads|
    ensures forall c: class_ :: a in G.lists.chains[c] <==> G.lists.place[a] == OnChain(c)
    ensures a in G.lists.ring <==> G.lists.place[a] == Parked
    ensures a in G.lists.revived <==> G.lists.place[a] == Returned
    ensures (forall c: class_ :: a !in G.lists.chains[c]) && a !in G.lists.ring && a !in G.lists.revived ==>
              G.heads[a].freeSlotCount == 0
    ensures forall c: class_, i: nat, j: nat ::
              (i < |G.lists.chains[c]| && j < |G.lists.chains[c]| && G.lists.chains[c][i] == G.lists.chains[c][j] == a) ==>
                i == j
  {
    hide ArenaOk, SparesOk, IsRing, IsStack;
    assert ArenaHere(G, mem, a);
    var p := G.lists.place[a];
    forall c: class_ ensures a in G.lists.chains[c] <==> p == OnChain(c) {
      assert Placed(G.lists.chains[c], G.lists.place, OnChain(c));
    }
    forall c: class_, i: nat, j: nat | i < |G.lists.chains[c]| && j < |G.lists.chains[c]| &&
        G.lists.chains[c][i] == G.lists.chains[c][j] == a ensures i == j {
      assert IsChain(G.heads, G.lists.chains[c], G.lists.partial[c]);
      NoDupAway(G.lists.chains[c], i, j);
    }
  }

  function AsSet(list: seq<nat>): (r: set<nat>)
    ensures |r| <= |list| && forall x :: x in list ==> x in r
  {
    if list == [] then {}
    else
      assert list == [list[0]] + list[1..];
      {list[0]} + AsSet(list[1..])
  }

  /** At most two empty arenas stay on a class chain. */
  lemma FewEmpties(G: Segment, mem: seq<byte>, c: class_, empties: set<nat>)
    requires SegmentOk(G, mem, -1)
    requires forall a :: a in empties ==>
               a < |G.heads| && G.lists.place[a] == OnChain(c) && G.heads[a].freeSlotCount == Capacity(c)
    ensures |empties| <= SPARE_KEEP
  {
    hide ArenaOk, ListsOk;
    forall a | a in empties ensures a in AsSet(G.spare[c]) { assert ArenaHere(G, mem, a); }
    SubsetSize(empties, AsSet(G.spare[c]));
  }
}
