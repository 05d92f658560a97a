/** Where each arena of the slab allocator is: on the chain of its class, in the resident ring, on the revive chain,
    or on none of them. */
module Lists {
  import opened Links
  import opened Arenas

  datatype Place = OnChain(c: class_) | Off | Parked | Returned

  datatype Lists = Lists(partial: seq<int>, resident: int, residentCount: nat, revive: int,
                         place: seq<Place>, chains: seq<seq<nat>>, ring: seq<nat>, revived: seq<nat>)

  /** The members of each list are exactly the arenas whose place it is. */
  ghost predicate Placed(list: seq<nat>, place: seq<Place>, p: Place) {
    (forall x :: x in list ==> x < |place|) &&
    forall x :: 0 <= x < |place| ==> (x in list <==> place[x] == p)
  }

  ghost predicate ListsOk(heads: seq<ArenaHead>, L: Lists) {
    && |L.place| == |heads| && |L.partial| == SLOT_CLASSES == |L.chains|
    && (forall c: class_ :: IsChain(heads, L.chains[c], L.partial[c]) && Placed(L.chains[c], L.place, OnChain(c)))
    && IsRing(heads, L.ring, L.resident) && L.residentCount == |L.ring| && Placed(L.ring, L.place, Parked)
    && IsStack(heads, L.revived, L.revive) && Placed(L.revived, L.place, Returned)
  }

  /** Links have changed, but not those of arenas that are off the lists (other than a). */
  ghost predicate Moved(heads: seq<ArenaHead>, heads1: seq<ArenaHead>, L: Lists, a: nat) {
    |heads1| == |heads| == |L.place| &&
    (forall x :: 0 <= x < |heads| ==> SameBut(heads[x], heads1[x])) &&
    (forall x :: 0 <= x < |heads| && L.place[x] == Off && x != a ==> heads1[x] == heads[x])
  }

  /** The arenas marked as having given their pages back. */
  function Dropped(heads: seq<ArenaHead>): set<nat> {
    set b | 0 <= b < |heads| && heads[b].dropped
  }

  lemma MovedDropped(heads: seq<ArenaHead>, heads1: seq<ArenaHead>, L: Lists, a: nat)
    requires Moved(heads, heads1, L, a)
    ensures Dropped(heads1) == Dropped(heads)
  {
    forall x | 0 <= x < |heads| ensures heads1[x].dropped == heads[x].dropped { assert SameBut(heads[x], heads1[x]); }
  }

  /** One header is replaced. */
  lemma SetDropped(heads: seq<ArenaHead>, a: nat, h: ArenaHead)
    requires a < |heads|
    ensures Dropped(heads[a := h]) == if h.dropped then Dropped(heads) + {a} else Dropped(heads) - {a}
    ensures a in Dropped(heads) <==> heads[a].dropped
  {
  }

  lemma MoreDropped(heads: seq<ArenaHead>, h: ArenaHead)
    requires !h.dropped
    ensures Dropped(heads + [h]) == Dropped(heads)
  {
  }

  lemma PlacedMore(list: seq<nat>, place: seq<Place>, p: Place, a: nat)
    requires Placed(list, place, p) && a < |place| && place[a] != p
    ensures a !in list && Placed([a] + list, place[a := p], p)
  {
  }

  lemma PlacedLess(list: seq<nat>, place: seq<Place>, p: Place, i: nat)
    requires Placed(list, place, p) && NoDup(list) && i < |list| && p != Off
    ensures list[i] < |place| && Placed(Without(list, i), place[list[i] := Off], p)
  {
    WithoutHas(list, i);
    assert list[i] in list;
  }

  lemma PlacedOther(list: seq<nat>, place: seq<Place>, p: Place, a: nat, q: Place)
    requires Placed(list, place, p) && a < |place| && place[a] != p && q != p
    ensures a !in list && Placed(list, place[a := q], p)
  {
  }

  // ---- Moves ----

  /** An arena that is off the lists goes to the head of a class chain. */
  function Chained(L: Lists, c: class_, a: nat): Lists
    requires a < |L.place| && |L.partial| == SLOT_CLASSES == |L.chains|
  {
    L.(partial := L.partial[c := a], chains := L.chains[c := [a] + L.chains[c]], place := L.place[a := OnChain(c)])
  }

  lemma ChainedOk(heads: seq<ArenaHead>, L: Lists, c: class_, a: nat)
    requires ListsOk(heads, L) && a < |heads| && L.place[a] == Off
    ensures L.partial[c] < |heads|
    ensures ListsOk(PushChain(heads, L.partial[c], a), Chained(L, c, a))
    ensures Moved(heads, PushChain(heads, L.partial[c], a), L, a)
  {
    hide PushChain, IsChain, IsRing, IsStack, Placed;
    var list, first := L.chains[c], L.partial[c];
    assert IsChain(heads, list, first);
    PlacedMore(list, L.place, OnChain(c), a);
    PushChainKeeps(heads, list, first, a);
    var h1 := PushChain(heads, first, a);
    var L1 := Chained(L, c, a);
    OthersKept(heads, h1, L, list, OnChain(c), a);
    forall d: class_ ensures IsChain(h1, L1.chains[d], L1.partial[d]) && Placed(L1.chains[d], L1.place, OnChain(d)) {
      if d != c { PlacedOther(L.chains[d], L.place, OnChain(d), a, OnChain(c)); }
    }
    PlacedOther(L.ring, L.place, Parked, a, OnChain(c));
    PlacedOther(L.revived, L.place, Returned, a, OnChain(c));
  }

  /** Relinking one list leaves the others alone. */
  lemma OthersKept(heads: seq<ArenaHead>, h1: seq<ArenaHead>, L: Lists, list: seq<nat>, p: Place, a: nat)
    requires ListsOk(heads, L) && a < |heads| && Relinked(heads, h1, list, a)
    requires Placed(list, L.place, p) && (L.place[a] == Off || L.place[a] == p) && p != Off
    ensures forall d: class_ :: p != OnChain(d) ==> IsChain(h1, L.chains[d], L.partial[d])
    ensures p != Parked ==> IsRing(h1, L.ring, L.resident)
    ensures p != Returned ==> IsStack(h1, L.revived, L.revive)
    ensures Moved(heads, h1, L, a)
  {
    hide IsChain, IsRing, IsStack;
    forall d: class_ | p != OnChain(d) ensures IsChain(h1, L.chains[d], L.partial[d]) {
      PlacedApart(list, L.chains[d], L.place, p, OnChain(d), a);
      KeptChain(heads, h1, L.chains[d], L.partial[d]);
    }
    if p != Parked {
      PlacedApart(list, L.ring, L.place, p, Parked, a);
      KeptRing(heads, h1, L.ring, L.resident);
    }
    if p != Returned {
      PlacedApart(list, L.revived, L.place, p, Returned, a);
      KeptStack(heads, h1, L.revived, L.revive);
    }
    forall x | 0 <= x < |heads| && L.place[x] == Off && x != a ensures h1[x] == heads[x] { assert x !in list; }
  }

  lemma PlacedApart(list: seq<nat>, other: seq<nat>, place: seq<Place>, p: Place, q: Place, a: nat)
    requires Placed(list, place, p) && Placed(other, place, q) && p != q && a < |place| && place[a] != q
    ensures forall x :: x in other ==> x < |place| && x !in list && x != a
  {
  }

  /** An arena leaves its class chain. */
  function Unchained(L: Lists, c: class_, i: nat, next: int): Lists
    requires |L.partial| == SLOT_CLASSES == |L.chains| && i < |L.chains[c]| && L.chains[c][i] < |L.place|
  {
    L.(partial := if i == 0 then L.partial[c := next] else L.partial, chains := L.chains[c := Without(L.chains[c], i)],
       place := L.place[L.chains[c][i] := Off])
  }

  lemma UnchainedOk(heads: seq<ArenaHead>, L: Lists, c: class_, i: nat)
    requires ListsOk(heads, L) && i < |L.chains[c]|
    ensures var a := L.chains[c][i];
            && a < |heads| && heads[a].prev < |heads| && heads[a].next < |heads|
            && ListsOk(Delink(heads, a), Unchained(L, c, i, heads[a].next))
            && Moved(heads, Delink(heads, a), L, a)
            && Delink(heads, a)[a].next == UNLINKED == Delink(heads, a)[a].prev
            && L.place[a] == OnChain(c)
            && (heads[a].prev == NONE <==> i == 0) && (i == 0 ==> L.partial[c] == a)
  {
    hide Delink, IsRing, IsStack, Placed;
    var list, first := L.chains[c], L.partial[c];
    var a := list[i];
    assert IsChain(heads, list, first);
    ChainHead(heads, list, first, i);
    hide IsChain;
    PlacedMember(list, L.place, OnChain(c), i);
    DelinkKeeps(heads, list, first, i);
    var h1 := Delink(heads, a);
    var L1 := Unchained(L, c, i, heads[a].next);
    OthersKept(heads, h1, L, list, OnChain(c), a);
    ChainDistinct(heads, list, first);
    PlacedLess(list, L.place, OnChain(c), i);
    forall d: class_ ensures IsChain(h1, L1.chains[d], L1.partial[d]) && Placed(L1.chains[d], L1.place, OnChain(d)) {
      if d != c { PlacedOther(L.chains[d], L.place, OnChain(d), a, Off); }
    }
    PlacedOther(L.ring, L.place, Parked, a, Off);
    PlacedOther(L.revived, L.place, Returned, a, Off);
  }

  lemma ChainHead(heads: seq<ArenaHead>, list: seq<nat>, first: int, i: nat)
    requires IsChain(heads, list, first) && i < |list|
    ensures list[i] < |heads| && (heads[list[i]].prev == NONE <==> i == 0) && (i == 0 ==> first == list[i])
  {
  }

  lemma ChainDistinct(heads: seq<ArenaHead>, list: seq<nat>, first: int)
    requires IsChain(heads, list, first)
    ensures NoDup(list)
  {
  }

  lemma PlacedMember(list: seq<nat>, place: seq<Place>, p: Place, i: nat)
    requires Placed(list, place, p) && i < |list|
    ensures list[i] < |place| && place[list[i]] == p
  {
    assert list[i] in list;
  }

  /** An arena that is off the lists goes to the head of the resident ring. */
  function Park(L: Lists, a: nat): Lists
    requires a < |L.place|
  {
    L.(resident := a, residentCount := L.residentCount + 1, ring := [a] + L.ring, place := L.place[a := Parked])
  }

  lemma ParkOk(heads: seq<ArenaHead>, L: Lists, a: nat)
    requires ListsOk(heads, L) && a < |heads| && L.place[a] == Off
    ensures L.residentCount > 0 ==> 0 <= L.resident < |heads| && 0 <= heads[L.resident].prev < |heads|
    ensures ListsOk(RingPush(heads, L.resident, L.residentCount, a), Park(L, a))
    ensures Moved(heads, RingPush(heads, L.resident, L.residentCount, a), L, a)
  {
    hide RingPush, IsChain, IsRing, IsStack, Placed;
    PlacedMore(L.ring, L.place, Parked, a);
    RingPushKeeps(heads, L.ring, L.resident, a);
    var h1 := RingPush(heads, L.resident, L.residentCount, a);
    var L1 := Park(L, a);
    OthersKept(heads, h1, L, L.ring, Parked, a);
    forall d: class_ ensures IsChain(h1, L1.chains[d], L1.partial[d]) && Placed(L1.chains[d], L1.place, OnChain(d)) {
      PlacedOther(L.chains[d], L.place, OnChain(d), a, Parked);
    }
    PlacedOther(L.revived, L.place, Returned, a, Parked);
  }

  /** The hottest or the coldest arena leaves the ring. */
  function Unpark(L: Lists, tail: bool, next: int): Lists
    requires L.residentCount == |L.ring| > 0
    requires (if tail then L.ring[|L.ring| - 1] else L.ring[0]) < |L.place|
  {
    var a := if tail then L.ring[|L.ring| - 1] else L.ring[0];
    L.(resident := if next == a then NONE else next, residentCount := L.residentCount - 1,
       ring := if tail then L.ring[..|L.ring| - 1] else L.ring[1..], place := L.place[a := Off])
  }

  lemma UnparkOk(heads: seq<ArenaHead>, L: Lists, tail: bool)
    requires ListsOk(heads, L) && L.residentCount > 0
    ensures var a := if tail then L.ring[|L.ring| - 1] else L.ring[0];
            && a < |heads| && 0 <= heads[a].prev < |heads| && 0 <= heads[a].next < |heads|
            && ListsOk(RingDelink(heads, a), Unpark(L, tail, heads[a].next))
            && Moved(heads, RingDelink(heads, a), L, a)
            && RingDelink(heads, a)[a].next == UNLINKED == RingDelink(heads, a)[a].prev
            && L.place[a] == Parked
            && 0 <= L.resident < |heads| && a == (if tail then heads[L.resident].prev else L.resident)
  {
    hide RingDelink, IsChain, IsStack, Placed, IsRing, Relinked, Moved, Unpark, NoDup;
    var n := |L.ring|;
    var i := if tail then n - 1 else 0;
    var a := L.ring[i];
    PlacedMember(L.ring, L.place, Parked, i);
    if tail { RingPopTail(heads, L.ring, L.resident); } else { RingPopHead(heads, L.ring, L.resident); }
    RingEnds(heads, L.ring, L.resident);
    var h1 := RingDelink(heads, a);
    OthersKept(heads, h1, L, L.ring, Parked, a);
    PlacedLess(L.ring, L.place, Parked, i);
    UnparkParts(L, tail, heads[a].next);
    UnparkedOthers(heads, h1, L, Unpark(L, tail, heads[a].next), a);
  }

  lemma UnparkParts(L: Lists, tail: bool, next: int)
    requires L.residentCount == |L.ring| > 0
    requires (if tail then L.ring[|L.ring| - 1] else L.ring[0]) < |L.place|
    ensures var i := if tail then |L.ring| - 1 else 0;
            var L1 := Unpark(L, tail, next);
            && L1.ring == Without(L.ring, i) == (if tail then L.ring[..|L.ring| - 1] else L.ring[1..])
            && L1.residentCount == |L1.ring| && L1.place == L.place[L.ring[i] := Off]
            && L1.resident == (if next == L.ring[i] then NONE else next)
            && L1.partial == L.partial && L1.chains == L.chains && L1.revive == L.revive && L1.revived == L.revived
  {
  }

  lemma UnparkedOthers(heads: seq<ArenaHead>, h1: seq<ArenaHead>, L: Lists, L1: Lists, a: nat)
    requires ListsOk(heads, L) && a < |heads| == |h1| && L.place[a] == Parked && L1.place == L.place[a := Off]
    requires L1.partial == L.partial && L1.chains == L.chains && L1.revive == L.revive && L1.revived == L.revived
    requires forall d: class_ :: IsChain(h1, L.chains[d], L.partial[d])
    requires IsStack(h1, L.revived, L.revive) && IsRing(h1, L1.ring, L1.resident) && L1.residentCount == |L1.ring|
    requires Placed(L1.ring, L1.place, Parked)
    ensures ListsOk(h1, L1)
  {
    hide IsChain, IsStack, IsRing, Placed;
    forall d: class_ ensures IsChain(h1, L1.chains[d], L1.partial[d]) && Placed(L1.chains[d], L1.place, OnChain(d)) {
      PlacedOther(L.chains[d], L.place, OnChain(d), a, Off);
    }
    PlacedOther(L.revived, L.place, Returned, a, Off);
  }

  lemma RingEnds(heads: seq<ArenaHead>, list: seq<nat>, first: int)
    requires IsRing(heads, list, first) && |list| > 0
    ensures NoDup(list) && first == list[0] < |heads| && heads[first].prev == list[|list| - 1]
  {
  }

  /** An arena that is off the lists goes to the revive chain. */
  function Return(L: Lists, a: nat): Lists
    requires a < |L.place|
  {
    L.(revive := a, revived := [a] + L.revived, place := L.place[a := Returned])
  }

  lemma ReturnOk(heads: seq<ArenaHead>, L: Lists, a: nat)
    requires ListsOk(heads, L) && a < |heads| && L.place[a] == Off
    ensures var h1 := heads[a := heads[a].(next := L.revive, prev := UNLINKED)];
            ListsOk(h1, Return(L, a)) && Moved(heads, h1, L, a)
  {
    hide IsChain, IsRing, IsStack, Placed;
    PlacedMore(L.revived, L.place, Returned, a);
    StackPush(heads, L.revived, L.revive, a);
    var h1 := heads[a := heads[a].(next := L.revive, prev := UNLINKED)];
    var L1 := Return(L, a);
    OthersKept(heads, h1, L, L.revived, Returned, a);
    forall d: class_ ensures IsChain(h1, L1.chains[d], L1.partial[d]) && Placed(L1.chains[d], L1.place, OnChain(d)) {
      PlacedOther(L.chains[d], L.place, OnChain(d), a, Returned);
    }
    PlacedOther(L.ring, L.place, Parked, a, Returned);
  }

  function Unreturn(L: Lists, next: int): Lists
    requires |L.revived| > 0 && L.revived[0] < |L.place|
  {
    L.(revive := next, revived := L.revived[1..], place := L.place[L.revived[0] := Off])
  }

  lemma UnreturnOk(heads: seq<ArenaHead>, L: Lists)
    requires ListsOk(heads, L) && L.revive != NONE
    ensures |L.revived| > 0 && L.revived[0] == L.revive && 0 <= L.revive < |heads| && L.place[L.revive] == Returned
    ensures var a := L.revived[0];
            var h1 := heads[a := heads[a].(next := UNLINKED)];
            && ListsOk(h1, Unreturn(L, heads[a].next)) && Moved(heads, h1, L, a)
            && h1[a].next == UNLINKED == h1[a].prev
  {
    hide IsChain, IsRing, Placed;
    var a := L.revived[0];
    PlacedMember(L.revived, L.place, Returned, 0);
    StackPop(heads, L.revived, L.revive);
    var h1 := heads[a := heads[a].(next := UNLINKED)];
    var L1 := Unreturn(L, heads[a].next);
    OthersKept(heads, h1, L, L.revived, Returned, a);
    PlacedLess(L.revived, L.place, Returned, 0);
    assert Without(L.revived, 0) == L.revived[1..];
    forall d: class_ ensures IsChain(h1, L1.chains[d], L1.partial[d]) && Placed(L1.chains[d], L1.place, OnChain(d)) {
      PlacedOther(L.chains[d], L.place, OnChain(d), a, Off);
    }
    PlacedOther(L.ring, L.place, Parked, a, Off);
  }

  /** A freshly carved arena is on no list. */
  lemma CarvedOk(heads: seq<ArenaHead>, L: Lists, h: ArenaHead)
    requires ListsOk(heads, L)
    ensures ListsOk(heads + [h], L.(place := L.place + [Off]))
  {
    hide IsChain, IsRing, IsStack;
    var h1 := heads + [h];
    forall d: class_ ensures IsChain(h1, L.chains[d], L.partial[d]) && Placed(L.chains[d], L.place + [Off], OnChain(d)) {
      KeptChain(heads, h1, L.chains[d], L.partial[d]);
    }
    KeptRing(heads, h1, L.ring, L.resident);
    KeptStack(heads, h1, L.revived, L.revive);
  }

  /** Changes that leave the links alone. */
  lemma SameLinksOk(heads: seq<ArenaHead>, h1: seq<ArenaHead>, L: Lists)
    requires ListsOk(heads, L) && |h1| == |heads|
    requires forall x :: 0 <= x < |heads| ==> h1[x].next == heads[x].next && h1[x].prev == heads[x].prev
    ensures ListsOk(h1, L)
  {
    hide IsChain, IsRing, IsStack;
    forall d: class_ ensures IsChain(h1, L.chains[d], L.partial[d]) { KeptChain(heads, h1, L.chains[d], L.partial[d]); }
    KeptRing(heads, h1, L.ring, L.resident);
    KeptStack(heads, h1, L.revived, L.revive);
  }
}
