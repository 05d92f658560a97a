/** The links in the arena headers of the slab allocator: doubly linked class chains, the circular resident ring and the
    singly linked revive chain.  A link is an arena number or a sentinel. */
module Links {
  const NONE: int := -1
  const UNLINKED: int := -2

  /** `dropped` is the magic number that says the arena's pages were returned. */
  datatype ArenaHead = ArenaHead(classSize: nat, headerSlots: nat, freeSlotCount: nat, dropped: bool, freeHead: int,
                                 next: int, prev: int)

  predicate NoDup(list: seq<nat>) {
    forall i, j :: 0 <= i < j < |list| ==> list[i] != list[j]
  }

  predicate Within(heads: seq<ArenaHead>, list: seq<nat>) {
    forall i :: 0 <= i < |list| ==> list[i] < |heads|
  }

  /** The two headers differ in their links only. */
  predicate SameBut(h: ArenaHead, h1: ArenaHead) {
    h1 == h.(next := h1.next, prev := h1.prev)
  }

  /** Only links have changed, and only those of arenas in `list` and of a. */
  predicate Relinked(heads: seq<ArenaHead>, heads1: seq<ArenaHead>, list: seq<nat>, a: nat) {
    |heads1| == |heads| &&
    (forall x :: 0 <= x < |heads| ==> SameBut(heads[x], heads1[x])) &&
    (forall x :: 0 <= x < |heads| && x !in list && x != a ==> heads1[x] == heads[x])
  }

  function At(list: seq<nat>, i: int): int {
    if 0 <= i < |list| then list[i] else NONE
  }

  // ---- Class chains ----

  ghost predicate IsChain(heads: seq<ArenaHead>, list: seq<nat>, first: int) {
    && NoDup(list) && Within(heads, list) && first == At(list, 0)
    && forall i :: 0 <= i < |list| ==> heads[list[i]].next == At(list, i + 1) && heads[list[i]].prev == At(list, i - 1)
  }

  lemma KeptChain(heads: seq<ArenaHead>, heads1: seq<ArenaHead>, list: seq<nat>, first: int)
    requires IsChain(heads, list, first) && |heads| <= |heads1|
    requires forall x :: x in list ==> heads1[x].next == heads[x].next && heads1[x].prev == heads[x].prev
    ensures IsChain(heads1, list, first)
  {
  }

  /** segmentPushArena. */
  function PushChain(heads: seq<ArenaHead>, first: int, a: nat): (r: seq<ArenaHead>)
    requires a < |heads| && first < |heads|
    ensures |r| == |heads|
  {
    var h := heads[a := heads[a].(prev := NONE, next := first)];
    if 0 <= first then h[first := h[first].(prev := a)] else h
  }

  lemma PushChainKeeps(heads: seq<ArenaHead>, list: seq<nat>, first: int, a: nat)
    requires IsChain(heads, list, first) && a < |heads| && a !in list
    ensures first < |heads| && IsChain(PushChain(heads, first, a), [a] + list, a)
    ensures Relinked(heads, PushChain(heads, first, a), list, a)
  {
    hide PushChain, ChainedAt, Relinked;
    if list != [] { assert list[0] in list; }
    var h1 := PushChain(heads, first, a);
    var l1 := [a] + list;
    forall x: nat | x < |heads| ensures ChainedAt(heads, h1, first, a, x) { PushChainAt(heads, first, a, x); }
    forall i | 0 <= i < |l1| ensures h1[l1[i]].next == At(l1, i + 1) && h1[l1[i]].prev == At(l1, i - 1) {
      PushedLink(heads, h1, list, first, a, i);
    }
    PushChainRelinks(heads, h1, list, first, a);
  }

  lemma PushedLink(heads: seq<ArenaHead>, h1: seq<ArenaHead>, list: seq<nat>, first: int, a: nat, i: nat)
    requires IsChain(heads, list, first) && a < |heads| == |h1| && a !in list && i <= |list|
    requires forall x: nat :: x < |heads| ==> ChainedAt(heads, h1, first, a, x)
    ensures var l1 := [a] + list; h1[l1[i]].next == At(l1, i + 1) && h1[l1[i]].prev == At(l1, i - 1)
  {
    hide IsChain;
    ChainAt(heads, list, first, i);
    if i == 0 {
      assert ChainedAt(heads, h1, first, a, a);
    } else {
      assert ChainedAt(heads, h1, first, a, list[i - 1]);
    }
  }

  /** What the chain says of the element before position i. */
  lemma ChainAt(heads: seq<ArenaHead>, list: seq<nat>, first: int, i: nat)
    requires IsChain(heads, list, first) && i <= |list|
    ensures first == At(list, 0) && (list != [] ==> list[0] in list)
    ensures i > 0 ==> list[i - 1] in list && list[i - 1] < |heads| && (i > 1 ==> list[i - 1] != first)
    ensures i > 0 ==> heads[list[i - 1]].next == At(list, i) && heads[list[i - 1]].prev == At(list, i - 2)
  {
  }

  lemma PushChainRelinks(heads: seq<ArenaHead>, h1: seq<ArenaHead>, list: seq<nat>, first: int, a: nat)
    requires a < |heads| == |h1| && first == At(list, 0)
    requires forall x: nat :: x < |heads| ==> ChainedAt(heads, h1, first, a, x)
    ensures Relinked(heads, h1, list, a)
  {
    assert list != [] ==> list[0] in list;
    forall x | 0 <= x < |heads| ensures SameBut(heads[x], h1[x]) && (x !in list && x != a ==> h1[x] == heads[x]) {
      assert ChainedAt(heads, h1, first, a, x);
    }
  }

  predicate ChainedAt(heads: seq<ArenaHead>, h1: seq<ArenaHead>, first: int, a: nat, x: nat)
    requires a < |heads| == |h1| && x < |heads|
  {
    && SameBut(heads[x], h1[x])
    && h1[x].next == (if x == a then first else heads[x].next)
    && h1[x].prev == (if x == first then a else if x == a then NONE else heads[x].prev)
  }

  lemma PushChainAt(heads: seq<ArenaHead>, first: int, a: nat, x: nat)
    requires a < |heads| && first < |heads| && x < |heads|
    ensures ChainedAt(heads, PushChain(heads, first, a), first, a, x)
  {
  }

  /** chainDelink, and arenaPopHead, which is the same at the head of the chain. */
  function Delink(heads: seq<ArenaHead>, a: nat): (r: seq<ArenaHead>)
    requires a < |heads| && heads[a].prev < |heads| && heads[a].next < |heads|
    ensures |r| == |heads|
  {
    var prev, next := heads[a].prev, heads[a].next;
    var h := if 0 <= prev then heads[prev := heads[prev].(next := next)] else heads;
    var h1 := if 0 <= next then h[next := h[next].(prev := prev)] else h;
    h1[a := h1[a].(next := UNLINKED, prev := UNLINKED)]
  }

  function Without(list: seq<nat>, i: nat): (r: seq<nat>)
    requires i < |list|
    ensures |r| == |list| - 1
  {
    list[..i] + list[i + 1..]
  }

  lemma WithoutHas(list: seq<nat>, i: nat)
    requires NoDup(list) && i < |list|
    ensures NoDup(Without(list, i)) && forall x :: x in Without(list, i) <==> x in list && x != list[i]
  {
    var l1 := Without(list, i);
    forall x | x in l1 ensures x in list && x != list[i] {
      var j :| 0 <= j < |l1| && l1[j] == x;
      assert l1[j] == list[if j < i then j else j + 1];
    }
    forall x | x in list && x != list[i] ensures x in l1 {
      var j :| 0 <= j < |list| && list[j] == x;
      assert l1[if j < i then j else j - 1] == x;
    }
  }

  lemma DelinkKeeps(heads: seq<ArenaHead>, list: seq<nat>, first: int, i: nat)
    requires IsChain(heads, list, first) && i < |list|
    ensures var a := list[i];
            heads[a].prev < |heads| && heads[a].next < |heads| &&
            IsChain(Delink(heads, a), Without(list, i), if i == 0 then heads[a].next else first)
    ensures Relinked(heads, Delink(heads, list[i]), list, list[i])
    ensures Delink(heads, list[i])[list[i]].next == UNLINKED == Delink(heads, list[i])[list[i]].prev
  {
    hide Delink, At, Without;
    var a := list[i];
    var l1 := Without(list, i);
    WithoutHas(list, i);
    AtMember(list, i - 1);
    AtMember(list, i + 1);
    assert heads[a].prev == At(list, i - 1) && heads[a].next == At(list, i + 1);
    var h1 := Delink(heads, a);
    forall x: nat | x < |heads| ensures DelinkedAt(heads, h1, a, x) { DelinkAt(heads, a, x); }
    forall j | 0 <= j < |l1| ensures l1[j] < |heads| { assert l1[j] in l1; }
    forall j | 0 <= j < |l1| ensures h1[l1[j]].next == At(l1, j + 1) && h1[l1[j]].prev == At(l1, j - 1) {
      DelinkedLink(heads, h1, list, first, i, j);
    }
    DelinkedOthers(heads, h1, list, a);
    WithoutFirst(list, i);
  }

  lemma AtMember(list: seq<nat>, i: int)
    ensures At(list, i) == NONE || (At(list, i) >= 0 && At(list, i) in list)
    ensures 0 <= i < |list| ==> At(list, i) == list[i]
  {
  }

  lemma WithoutFirst(list: seq<nat>, i: nat)
    requires i < |list|
    ensures At(Without(list, i), 0) == if i == 0 then At(list, 1) else At(list, 0)
  {
  }

  lemma DelinkedLink(heads: seq<ArenaHead>, h1: seq<ArenaHead>, list: seq<nat>, first: int, i: nat, j: nat)
    requires IsChain(heads, list, first) && i < |list| && j < |list| - 1 && |h1| == |heads|
    requires forall x: nat :: x < |heads| ==> DelinkedAt(heads, h1, list[i], x)
    ensures var l1 := Without(list, i);
            l1[j] < |heads| && h1[l1[j]].next == At(l1, j + 1) && h1[l1[j]].prev == At(l1, j - 1)
  {
    hide At, Without, SameBut;
    var k := if j < i then j else j + 1;
    WithoutNeighbours(list, i, j);
    assert DelinkedAt(heads, h1, list[i], list[k]);
  }

  lemma DelinkedOthers(heads: seq<ArenaHead>, h1: seq<ArenaHead>, list: seq<nat>, a: nat)
    requires a < |heads| == |h1|
    requires forall x: nat :: x < |heads| ==> DelinkedAt(heads, h1, a, x)
    requires heads[a].prev == NONE || heads[a].prev in list
    requires heads[a].next == NONE || heads[a].next in list
    ensures Relinked(heads, h1, list, a) && h1[a].next == UNLINKED == h1[a].prev
  {
    assert DelinkedAt(heads, h1, a, a);
    forall x | 0 <= x < |heads| ensures SameBut(heads[x], h1[x]) && (x !in list && x != a ==> h1[x] == heads[x]) {
      assert DelinkedAt(heads, h1, a, x);
    }
  }

  /** The neighbours of what is left: those it had, except that the neighbours of the one that left are joined. */
  lemma WithoutNeighbours(list: seq<nat>, i: nat, j: nat)
    requires NoDup(list) && i < |list| && j < |list| - 1
    ensures var l1 := Without(list, i);
            var k := if j < i then j else j + 1;
            && l1[j] == list[k] && list[k] != list[i]
            && At(l1, j + 1) == (if k + 1 == i then At(list, i + 1) else At(list, k + 1))
            && At(l1, j - 1) == (if k == i + 1 then At(list, i - 1) else At(list, k - 1))
            && (list[k] == At(list, i - 1) <==> k + 1 == i)
            && (list[k] == At(list, i + 1) <==> k == i + 1)
  {
    var k := if j < i then j else j + 1;
    NoDupAway(list, k, i);
    if i > 0 { NoDupAway(list, k, i - 1); }
    if i + 1 < |list| { NoDupAway(list, k, i + 1); }
  }

  predicate DelinkedAt(heads: seq<ArenaHead>, h1: seq<ArenaHead>, a: nat, x: nat)
    requires a < |heads| == |h1| && x < |heads|
  {
    var prev, next := heads[a].prev, heads[a].next;
    && SameBut(heads[x], h1[x])
    && h1[x].next == (if x == a then UNLINKED else if x == prev then next else heads[x].next)
    && h1[x].prev == (if x == a then UNLINKED else if x == next then prev else heads[x].prev)
  }

  lemma DelinkAt(heads: seq<ArenaHead>, a: nat, x: nat)
    requires a < |heads| && heads[a].prev < |heads| && heads[a].next < |heads| && x < |heads|
    ensures DelinkedAt(heads, Delink(heads, a), a, x)
  {
  }

  lemma NoDupAway(list: seq<nat>, i: nat, j: nat)
    requires NoDup(list) && i < |list| && j < |list|
    ensures list[i] == list[j] <==> i == j
  {
  }

  // ---- The resident ring ----

  ghost predicate IsRing(heads: seq<ArenaHead>, list: seq<nat>, first: int) {
    && NoDup(list) && Within(heads, list) && first == At(list, 0)
    && forall i :: 0 <= i < |list| ==>
         heads[list[i]].next == list[if i + 1 < |list| then i + 1 else 0] &&
         heads[list[i]].prev == list[if i == 0 then |list| - 1 else i - 1]
  }

  lemma KeptRing(heads: seq<ArenaHead>, heads1: seq<ArenaHead>, list: seq<nat>, first: int)
    requires IsRing(heads, list, first) && |heads| <= |heads1|
    requires forall x :: x in list ==> heads1[x].next == heads[x].next && heads1[x].prev == heads[x].prev
    ensures IsRing(heads1, list, first)
  {
  }

  /** segmentRingPush. */
  function RingPush(heads: seq<ArenaHead>, first: int, count: nat, a: nat): (r: seq<ArenaHead>)
    requires a < |heads|
    requires count > 0 ==> 0 <= first < |heads| && 0 <= heads[first].prev < |heads|
    ensures |r| == |heads|
  {
    if count == 0 then heads[a := heads[a].(next := a, prev := a)]
    else
      var last := heads[first].prev;
      var h := heads[a := heads[a].(next := first, prev := last)];
      var h1 := h[last := h[last].(next := a)];
      h1[first := h1[first].(prev := a)]
  }

  lemma RingPushKeeps(heads: seq<ArenaHead>, list: seq<nat>, first: int, a: nat)
    requires IsRing(heads, list, first) && a < |heads| && a !in list
    ensures |list| > 0 ==> 0 <= first < |heads| && 0 <= heads[first].prev < |heads|
    ensures IsRing(RingPush(heads, first, |list|, a), [a] + list, a)
    ensures Relinked(heads, RingPush(heads, first, |list|, a), list, a)
  {
    if |list| > 0 {
      assert list[0] in list && list[|list| - 1] in list;
      RingPushMore(heads, list, first, a);
    }
  }

  lemma RingPushMore(heads: seq<ArenaHead>, list: seq<nat>, first: int, a: nat)
    requires IsRing(heads, list, first) && a < |heads| && a !in list && |list| > 0
    requires 0 <= first < |heads| && 0 <= heads[first].prev < |heads|
    ensures IsRing(RingPush(heads, first, |list|, a), [a] + list, a)
    ensures Relinked(heads, RingPush(heads, first, |list|, a), list, a)
  {
    hide RingPush, PushedAt, Relinked;
    var l1 := [a] + list;
    var h1 := RingPush(heads, first, |list|, a);
    forall x: nat | x < |heads| ensures PushedAt(heads, h1, first, a, x) { RingPushAt(heads, first, |list|, a, x); }
    forall i | 0 <= i < |l1|
      ensures h1[l1[i]].next == l1[if i + 1 < |l1| then i + 1 else 0] && h1[l1[i]].prev == l1[if i == 0 then |l1| - 1 else i - 1]
    {
      RingLink(heads, h1, list, first, a, i);
    }
    RingPushRelinks(heads, h1, list, first, a);
  }

  lemma RingLink(heads: seq<ArenaHead>, h1: seq<ArenaHead>, list: seq<nat>, first: nat, a: nat, i: nat)
    requires IsRing(heads, list, first) && a < |heads| == |h1| && a !in list && 0 < |list| && i <= |list| && first < |heads|
    requires forall x: nat :: x < |heads| ==> PushedAt(heads, h1, first, a, x)
    ensures var l1 := [a] + list;
            h1[l1[i]].next == l1[if i + 1 < |l1| then i + 1 else 0] && h1[l1[i]].prev == l1[if i == 0 then |l1| - 1 else i - 1]
  {
    var n := |list|;
    assert list[n - 1] in list && heads[first].prev == list[n - 1];
    if i > 0 {
      assert list[i - 1] in list;
      assert i > 1 ==> list[i - 1] != list[0];
      assert i < n ==> list[i - 1] != list[n - 1];
      assert PushedAt(heads, h1, first, a, list[i - 1]);
    } else {
      assert PushedAt(heads, h1, first, a, a);
    }
  }

  lemma RingPushRelinks(heads: seq<ArenaHead>, h1: seq<ArenaHead>, list: seq<nat>, first: nat, a: nat)
    requires IsRing(heads, list, first) && a < |heads| == |h1| && 0 < |list| && first < |heads|
    requires forall x: nat :: x < |heads| ==> PushedAt(heads, h1, first, a, x)
    ensures Relinked(heads, h1, list, a)
  {
    assert list[0] in list && list[|list| - 1] in list && heads[list[0]].prev == list[|list| - 1];
    forall x | 0 <= x < |heads| ensures SameBut(heads[x], h1[x]) && (x !in list && x != a ==> h1[x] == heads[x]) {
      assert PushedAt(heads, h1, first, a, x);
    }
  }

  predicate PushedAt(heads: seq<ArenaHead>, h1: seq<ArenaHead>, first: nat, a: nat, x: nat)
    requires a < |heads| == |h1| && x < |heads| && first < |heads|
  {
    var last := heads[first].prev;
    && SameBut(heads[x], h1[x])
    && h1[x].next == (if x == last then a else if x == a then first else heads[x].next)
    && h1[x].prev == (if x == first then a else if x == a then last else heads[x].prev)
  }

  lemma RingPushAt(heads: seq<ArenaHead>, first: nat, count: nat, a: nat, x: nat)
    requires a < |heads| && count > 0 && first < |heads| && 0 <= heads[first].prev < |heads| && x < |heads|
    ensures PushedAt(heads, RingPush(heads, first, count, a), first, a, x)
  {
  }

  /** segmentRingDelink: the same relinking for the head, the tail and a singleton. */
  function RingDelink(heads: seq<ArenaHead>, a: nat): (r: seq<ArenaHead>)
    requires a < |heads| && 0 <= heads[a].prev < |heads| && 0 <= heads[a].next < |heads|
    ensures |r| == |heads|
  {
    var prev, next := heads[a].prev, heads[a].next;
    var h := heads[next := heads[next].(prev := prev)];
    var h1 := h[prev := h[prev].(next := next)];
    h1[a := h1[a].(next := UNLINKED, prev := UNLINKED)]
  }

  predicate RingDelinkedAt(heads: seq<ArenaHead>, h1: seq<ArenaHead>, a: nat, x: nat)
    requires a < |heads| == |h1| && x < |heads|
  {
    var prev, next := heads[a].prev, heads[a].next;
    && SameBut(heads[x], h1[x])
    && h1[x].next == (if x == a then UNLINKED else if x == prev then next else heads[x].next)
    && h1[x].prev == (if x == a then UNLINKED else if x == next then prev else heads[x].prev)
  }

  lemma RingDelinkAt(heads: seq<ArenaHead>, a: nat, x: nat)
    requires a < |heads| && 0 <= heads[a].prev < |heads| && 0 <= heads[a].next < |heads| && x < |heads|
    ensures RingDelinkedAt(heads, RingDelink(heads, a), a, x)
  {
  }

  /** The head of the ring leaves: its successor becomes the head. */
  lemma RingPopHead(heads: seq<ArenaHead>, list: seq<nat>, first: int)
    requires IsRing(heads, list, first) && |list| > 0
    ensures var a := list[0];
            0 <= heads[a].prev < |heads| && 0 <= heads[a].next < |heads| &&
            IsRing(RingDelink(heads, a), list[1..], if heads[a].next == a then NONE else heads[a].next)
    ensures Relinked(heads, RingDelink(heads, list[0]), list, list[0])
    ensures RingDelink(heads, list[0])[list[0]].next == UNLINKED == RingDelink(heads, list[0])[list[0]].prev
  {
    var a := list[0];
    var n := |list|;
    assert list[n - 1] in list && list[if n > 1 then 1 else 0] in list;
    hide RingDelink;
    var h1 := RingDelink(heads, a);
    forall x: nat | x < |heads| ensures RingDelinkedAt(heads, h1, a, x) { RingDelinkAt(heads, a, x); }
    assert RingDelinkedAt(heads, h1, a, a);
    RingDelinked(heads, h1, list, a);
    var l1 := list[1..];
    forall j | 0 <= j < |l1|
      ensures h1[l1[j]].next == l1[if j + 1 < |l1| then j + 1 else 0] && h1[l1[j]].prev == l1[if j == 0 then |l1| - 1 else j - 1]
    {
      assert l1[j] == list[j + 1] && RingDelinkedAt(heads, h1, a, list[j + 1]);
      NoDupAway(list, j + 1, 0);
      NoDupAway(list, j + 1, n - 1);
      NoDupAway(list, j + 1, 1);
    }
  }

  lemma RingDelinked(heads: seq<ArenaHead>, h1: seq<ArenaHead>, list: seq<nat>, a: nat)
    requires |h1| == |heads| && a < |heads| && heads[a].prev in list && heads[a].next in list
    requires forall x: nat :: x < |heads| ==> RingDelinkedAt(heads, h1, a, x)
    ensures Relinked(heads, h1, list, a)
  {
    forall x | 0 <= x < |heads| ensures SameBut(heads[x], h1[x]) && (x !in list && x != a ==> h1[x] == heads[x]) {
      assert RingDelinkedAt(heads, h1, a, x);
    }
  }

  /** The tail of the ring leaves: the head stays, or there is none any more. */
  lemma RingPopTail(heads: seq<ArenaHead>, list: seq<nat>, first: int)
    requires IsRing(heads, list, first) && |list| > 0
    ensures var n := |list|;
            var a := list[n - 1];
            0 <= first < |heads| && heads[first].prev == a && 0 <= heads[a].prev < |heads| && 0 <= heads[a].next < |heads| &&
            IsRing(RingDelink(heads, a), list[..n - 1], if heads[a].next == a then NONE else heads[a].next)
    ensures var a := list[|list| - 1];
            && Relinked(heads, RingDelink(heads, a), list, a)
            && RingDelink(heads, a)[a].next == UNLINKED == RingDelink(heads, a)[a].prev
  {
    var n := |list|;
    var a := list[n - 1];
    assert list[0] in list && list[n - 1] in list && list[if n > 1 then n - 2 else 0] in list;
    hide RingDelink;
    var h1 := RingDelink(heads, a);
    forall x: nat | x < |heads| ensures RingDelinkedAt(heads, h1, a, x) { RingDelinkAt(heads, a, x); }
    assert RingDelinkedAt(heads, h1, a, a);
    RingDelinked(heads, h1, list, a);
    var l1 := list[..n - 1];
    NoDupAway(list, 0, n - 1);
    forall j | 0 <= j < |l1|
      ensures h1[l1[j]].next == l1[if j + 1 < |l1| then j + 1 else 0] && h1[l1[j]].prev == l1[if j == 0 then |l1| - 1 else j - 1]
    {
      assert l1[j] == list[j] && RingDelinkedAt(heads, h1, a, list[j]);
      NoDupAway(list, j, 0);
      NoDupAway(list, j, n - 1);
      if n > 1 { NoDupAway(list, j, n - 2); }
    }
  }

  // ---- The revive chain ----

  ghost predicate IsStack(heads: seq<ArenaHead>, list: seq<nat>, first: int) {
    && NoDup(list) && Within(heads, list) && first == At(list, 0)
    && forall i :: 0 <= i < |list| ==> heads[list[i]].next == At(list, i + 1) && heads[list[i]].prev == UNLINKED
  }

  lemma KeptStack(heads: seq<ArenaHead>, heads1: seq<ArenaHead>, list: seq<nat>, first: int)
    requires IsStack(heads, list, first) && |heads| <= |heads1|
    requires forall x :: x in list ==> heads1[x].next == heads[x].next && heads1[x].prev == heads[x].prev
    ensures IsStack(heads1, list, first)
  {
  }

  /** segmentPushRevive. */
  lemma StackPush(heads: seq<ArenaHead>, list: seq<nat>, first: int, a: nat)
    requires IsStack(heads, list, first) && a < |heads| && a !in list
    ensures IsStack(heads[a := heads[a].(next := first, prev := UNLINKED)], [a] + list, a)
  {
    var h1 := heads[a := heads[a].(next := first, prev := UNLINKED)];
    var l1 := [a] + list;
    forall i | 0 <= i < |l1| ensures h1[l1[i]].next == At(l1, i + 1) && h1[l1[i]].prev == UNLINKED {
      if i > 0 { assert l1[i] == list[i - 1] && list[i - 1] in list; }
    }
  }

  /** segmentPopRevive. */
  lemma StackPop(heads: seq<ArenaHead>, list: seq<nat>, first: int)
    requires IsStack(heads, list, first) && |list| > 0
    ensures var a := list[0];
            IsStack(heads[a := heads[a].(next := UNLINKED)], list[1..], heads[a].next)
  {
    var a := list[0];
    var h1 := heads[a := heads[a].(next := UNLINKED)];
    var l1 := list[1..];
    forall i | 0 <= i < |l1| ensures h1[l1[i]].next == At(l1, i + 1) && h1[l1[i]].prev == UNLINKED {
      assert l1[i] == list[i + 1];
    }
  }
}
