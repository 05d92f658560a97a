/** Resizable blocks: small ones in the slab, others on the heap, moved from one to the other as they grow. */
module Blocks {
  import opened Types
  import opened Links
  import opened Arenas
  import opened Segments
  import opened Slab

  /** A block's address: one within the slab's segment, or one that the standard allocator gave out. */
  datatype Pointer = InSlab(p: nat) | OnHeap(id: nat)

  /** The contents of every block, as its owner sees them. */
  type Contents = map<Pointer, seq<byte>>

  // ---- Accounting ----

  ghost function Total(blocks: Contents): nat {
    if blocks == map[] then 0
    else var q :| q in blocks; |blocks[q]| + Total(blocks - {q})
  }

  lemma {:induction false} TotalWithout(blocks: Contents, q: Pointer)
    requires q in blocks
    ensures Total(blocks) == |blocks[q]| + Total(blocks - {q})
    decreases |blocks|
  {
    var r :| r in blocks && Total(blocks) == |blocks[r]| + Total(blocks - {r});
    if r != q {
      TotalWithout(blocks - {r}, q);
      TotalWithout(blocks - {q}, r);
      assert blocks - {r} - {q} == blocks - {q} - {r};
    }
  }

  lemma TotalWith(blocks: Contents, q: Pointer, b: seq<byte>)
    requires q !in blocks
    ensures Total(blocks[q := b]) == Total(blocks) + |b|
  {
    TotalWithout(blocks[q := b], q);
    assert blocks[q := b] - {q} == blocks;
  }

  // ---- What the slab holds ----

  ghost predicate SlabShows(G: Segment, mem: seq<byte>, blocks: Contents) {
    && (forall p: nat :: InSlab(p) in blocks ==>
          IsLive(G, p) && |blocks[InSlab(p)]| <= BlockSize(G, p) && p + |blocks[InSlab(p)]| <= |mem|
          && mem[p..p + |blocks[InSlab(p)]|] == blocks[InSlab(p)])
    && (forall p: nat :: IsLive(G, p) ==> InSlab(p) in blocks)
  }

  lemma ShowsNew(G: Segment, G1: Segment, mem: seq<byte>, blocks: Contents, q: nat, c: class_, size: nat)
    requires SegmentOk(G1, mem, -1) && SlabShows(G, mem, blocks) && Grew(G, G1, q, c)
    requires size <= BlockSize(G1, q)
    ensures InSlab(q) !in blocks && q + size <= |mem|
    ensures SlabShows(G1, mem, blocks[InSlab(q) := mem[q..q + size]])
  {
    hide SegmentOk, IsLive, BlockSize;
    LivePlaced(G1, mem, q);
  }

  lemma ShowsSame(G: Segment, G1: Segment, mem: seq<byte>, blocks: Contents)
    requires SlabShows(G, mem, blocks) && SameBlocks(G, G1)
    ensures SlabShows(G1, mem, blocks)
  {
    hide IsLive, BlockSize;
  }

  lemma ShowsTrimmed(G: Segment, G1: Segment, mem: seq<byte>, mem1: seq<byte>, blocks: Contents)
    requires SlabShows(G, mem, blocks) && SameBlocks(G, G1) && SameBytes(G, mem, mem1)
    ensures SlabShows(G1, mem1, blocks)
  {
    hide IsLive, BlockSize;
    forall p: nat | InSlab(p) in blocks ensures mem1[p..p + |blocks[InSlab(p)]|] == blocks[InSlab(p)] {
      var b := blocks[InSlab(p)];
      forall i: nat | i < |b| ensures mem1[p..p + |b|][i] == b[i] { assert mem[p..p + |b|][i] == mem[p + i]; }
    }
  }

  lemma ShowsHeap(G: Segment, mem: seq<byte>, blocks: Contents, blocks1: Contents)
    requires SlabShows(G, mem, blocks)
    requires forall p: nat :: InSlab(p) in blocks1 <==> InSlab(p) in blocks
    requires forall p: nat :: InSlab(p) in blocks ==> blocks1[InSlab(p)] == blocks[InSlab(p)]
    ensures SlabShows(G, mem, blocks1)
  {
    hide IsLive, BlockSize;
  }

  /** The bytes of a block other than p are still there. */
  lemma StillThere(G: Segment, mem: seq<byte>, mem1: seq<byte>, blocks: Contents, p: nat, r: nat)
    requires SlabShows(G, mem, blocks) && OthersKept(G, mem, mem1, p) && InSlab(r) in blocks && r != p
    ensures mem1[r..r + |blocks[InSlab(r)]|] == blocks[InSlab(r)]
  {
    hide IsLive, BlockSize;
    var b := blocks[InSlab(r)];
    forall i: nat | i < |b| ensures mem1[r..r + |b|][i] == b[i] {
      assert mem[r..r + |b|][i] == mem[r + i];
    }
  }

  lemma ShowsGone(G: Segment, G1: Segment, mem: seq<byte>, mem1: seq<byte>, blocks: Contents, p: nat)
    requires SlabShows(G, mem, blocks) && Shrank(G, G1, p) && OthersKept(G, mem, mem1, p)
    ensures SlabShows(G1, mem1, blocks - {InSlab(p)})
  {
    hide IsLive, BlockSize;
    forall r: nat | InSlab(r) in blocks - {InSlab(p)} ensures mem1[r..r + |blocks[InSlab(r)]|] == blocks[InSlab(r)] {
      StillThere(G, mem, mem1, blocks, p, r);
    }
  }

  lemma ShowsStays(G: Segment, G1: Segment, mem: seq<byte>, blocks: Contents, p: nat, newSize: nat)
    requires SegmentOk(G, mem, -1) && SlabShows(G, mem, blocks) && SameBlocks(G, G1) && InSlab(p) in blocks
    requires newSize <= BlockSize(G, p)
    ensures p + newSize <= |mem| && SlabShows(G1, mem, blocks[InSlab(p) := mem[p..p + newSize]])
  {
    hide SegmentOk, IsLive, BlockSize;
    LivePlaced(G, mem, p);
  }

  lemma ShowsMoved(G: Segment, G1: Segment, mem: seq<byte>, mem1: seq<byte>, blocks: Contents, p: nat, q: nat,
                   newSize: nat)
    requires SegmentOk(G1, mem1, -1) && SlabShows(G, mem, blocks) && InSlab(p) in blocks
    requires 0 < newSize <= SLOT_SIZE_MAX && BlockSize(G, p) < newSize
    requires Resized(G, G1, mem, mem1, p, newSize, Some(q))
    ensures InSlab(q) !in blocks && q + newSize <= |mem1|
    ensures SlabShows(G1, mem1, (blocks - {InSlab(p)})[InSlab(q) := mem1[q..q + newSize]])
    ensures mem1[q..q + |blocks[InSlab(p)]|] == blocks[InSlab(p)]
  {
    hide SegmentOk, IsLive, BlockSize;
    LivePlaced(G1, mem1, q);
    var b := blocks[InSlab(p)];
    assert mem1[q..q + BlockSize(G, p)][..|b|] == mem1[q..q + |b|];
    assert mem[p..p + BlockSize(G, p)][..|b|] == mem[p..p + |b|];
    forall r: nat | InSlab(r) in blocks && r != p ensures mem1[r..r + |blocks[InSlab(r)]|] == blocks[InSlab(r)] {
      StillThere(G, mem, mem1, blocks, p, r);
    }
  }

  // ---- What the heap holds ----

  ghost predicate HeapShows(heap: map<nat, seq<byte>>, blocks: Contents) {
    forall id: nat :: (OnHeap(id) in blocks <==> id in heap) && (id in heap ==> blocks[OnHeap(id)] == heap[id])
  }

  // ---- Resizing ----

  /** The block at pointer, if there is one, is gone, and r has newSize bytes, which begin with its bytes. */
  ghost predicate Reallocated(blocks: Contents, blocks1: Contents, pointer: Option<Pointer>, newSize: nat,
                              r: Option<Pointer>)
  {
    var others := if pointer.Some? then blocks - {pointer.value} else blocks;
    if newSize == 0 then r.None? && blocks1 == others
    else
      && r.Some? && r.value !in others && r.value in blocks1
      && |blocks1[r.value]| == newSize && blocks1 == others[r.value := blocks1[r.value]]
      && (pointer.Some? && pointer.value in blocks ==>
            var n := if |blocks[pointer.value]| < newSize then |blocks[pointer.value]| else newSize;
            blocks1[r.value][..n] == blocks[pointer.value][..n])
  }

  /** Where the new block is: a block of the heap stays there, sizes beyond the small ones go there, and all others do only
      when the slab is exhausted. */
  ghost predicate Routed(G: Segment, capacity: nat, committed: nat, os: Os, pointer: Option<Pointer>, newSize: nat,
                         r: Option<Pointer>) {
    r.Some? ==>
      if (pointer.Some? && pointer.value.OnHeap?) || newSize > SLOT_SIZE_MAX then r.value.OnHeap?
      else r.value.OnHeap? ==> Exhausted(G, ClassFor(newSize), os, capacity, committed)
  }

  lemma TotalAfter(blocks: Contents, blocks1: Contents, pointer: Option<Pointer>, newSize: nat, r: Option<Pointer>)
    requires Reallocated(blocks, blocks1, pointer, newSize, r) && (pointer.Some? ==> pointer.value in blocks)
    ensures Total(blocks1) + (if pointer.Some? then |blocks[pointer.value]| else 0) == Total(blocks) + newSize
  {
    var others := if pointer.Some? then blocks - {pointer.value} else blocks;
    if pointer.Some? { TotalWithout(blocks, pointer.value); }
    if newSize > 0 { TotalWith(others, r.value, blocks1[r.value]); }
  }

  // ---- Collections ----

  const GC_HEAP_GROW_FACTOR: nat := 2

  /** What a collection finds, if there is one: the blocks of unreachable objects, in the order in which they are freed,
      with their sizes, and the pages that the operating system drops afterwards. */
  datatype Collection = Collection(garbage: seq<Pointer>, sizes: seq<nat>, pageSize: nat, drops: nat -> bool)

  /** The garbage consists of blocks, each once, and the block being resized is not among them. */
  ghost predicate Collectable(blocks: Contents, gc: Collection, pointer: Option<Pointer>) {
    && |gc.sizes| == |gc.garbage|
    && (forall i :: 0 <= i < |gc.garbage| ==>
          gc.garbage[i] in blocks && Some(gc.garbage[i]) != pointer && |blocks[gc.garbage[i]]| == gc.sizes[i])
    && forall i, j :: 0 <= i < j < |gc.garbage| ==> gc.garbage[i] != gc.garbage[j]
  }

  ghost function Swept(blocks: Contents, garbage: seq<Pointer>): Contents {
    blocks - set q | q in garbage
  }

  /** A block that grows beyond the threshold starts a collection. */
  predicate Collects(total: nat, nextGC: nat, oldSize: nat, newSize: nat) {
    newSize > oldSize && total + newSize - oldSize > nextGC
  }

  function Threshold(total: nat, beginGC: nat): nat {
    if total * GC_HEAP_GROW_FACTOR > beginGC then total * GC_HEAP_GROW_FACTOR else beginGC
  }

  /** The heap may double before the next collection, and grow to the size at which collections begin. */
  lemma ThresholdMeans(total: nat, beginGC: nat)
    ensures Threshold(total, beginGC) >= total + total && Threshold(total, beginGC) >= beginGC
    ensures Threshold(total, beginGC) > beginGC ==> Threshold(total, beginGC) == total + total
  {
  }

  lemma SweptNext(blocks: Contents, gc: Collection, i: nat, pointer: Option<Pointer>)
    requires i < |gc.garbage| && Collectable(blocks, gc, pointer)
    ensures var q := gc.garbage[i]; var left := Swept(blocks, gc.garbage[..i]);
            && i < |gc.sizes| && q in left && |left[q]| == gc.sizes[i]
            && left - {q} == Swept(blocks, gc.garbage[..i + 1])
  {
    assert gc.garbage[..i + 1] == gc.garbage[..i] + [gc.garbage[i]];
  }

  lemma SweptOthers(blocks: Contents, gc: Collection, pointer: Option<Pointer>)
    requires Collectable(blocks, gc, pointer) && pointer.Some? && pointer.value in blocks
    ensures pointer.value in Swept(blocks, gc.garbage)
    ensures Swept(blocks, gc.garbage)[pointer.value] == blocks[pointer.value]
  {
  }

  class BlockAllocator {
    const slab: Slab
    var heap: map<nat, seq<byte>>
    var bytesAllocated: nat
    var nextGC: nat
    const beginGC: nat
    ghost var blocks: Contents

    /** Each owner has exactly its own blocks, with their contents. */
    ghost predicate Holding()
      reads this, slab, slab.mem
    {
      slab.Valid() && SlabShows(slab.Now(), slab.mem[..], blocks) && HeapShows(heap, blocks)
    }

    ghost predicate Valid()
      reads this, slab, slab.mem
    {
      Holding() && bytesAllocated == Total(blocks)
    }

    constructor (slab: Slab, beginGC: nat)
      requires slab.Valid() && forall p: nat :: !IsLive(slab.Now(), p)
      ensures Valid() && blocks == map[] && this.slab == slab && nextGC == this.beginGC == beginGC
    {
      this.slab := slab;
      this.beginGC := beginGC;
      nextGC := beginGC;
      heap := map[];
      bytesAllocated := 0;
      blocks := map[];
    }

    function Address(q: Pointer): int {
      if q.InSlab? then q.p else -1 - q.id
    }

    predicate SlabOwns(q: Pointer)
      reads slab
    {
      0 <= Address(q) < |slab.heads| * ARENA_SIZE
    }

    lemma Ownership(q: Pointer)
      requires Holding() && q in blocks
      ensures SlabOwns(q) <==> q.InSlab?
      ensures q.InSlab? ==> IsLive(slab.Now(), q.p) && slab.Resolves(q.p) && slab.SegmentResolveArena(q.p) != NONE
      ensures q.OnHeap? ==> q.id in heap && heap[q.id] == blocks[q] && slab.SegmentResolveArena(Address(q)) == NONE
    {
      hide SegmentOk, IsLive, BlockSize;
      if q.InSlab? {
        BlockThere(slab.Now(), slab.mem[..], q.p);
        slab.LiveResolves(q.p);
        InCarved(q.p, |slab.heads|);
      }
    }

    method FreeHeapBlock(id: nat)
      requires Holding() && id in heap
      modifies this`heap, this`blocks
      ensures Holding() && blocks == old(blocks) - {OnHeap(id)} && heap.Keys <= old(heap.Keys)
    {
      hide SegmentOk, IsLive, BlockSize;
      ShowsHeap(slab.Now(), slab.mem[..], blocks, blocks - {OnHeap(id)});
      heap := heap - {id};
      blocks := blocks - {OnHeap(id)};
    }

    method FreeSlabBlock(p: nat)
      requires Holding() && InSlab(p) in blocks
      modifies this`blocks, slab, slab.mem
      ensures Holding() && blocks == old(blocks) - {InSlab(p)}
    {
      hide SegmentOk, IsLive, BlockSize, SlabShows, Shrank, OthersKept;
      Ownership(InSlab(p));
      ghost var G, bytes := slab.Now(), slab.mem[..];
      var ok := slab.Free(Some(p));
      FreedOthers(G, slab.Now(), bytes, slab.mem[..], p);
      ShowsGone(G, slab.Now(), bytes, slab.mem[..], blocks, p);
      blocks := blocks - {InSlab(p)};
    }

    lemma FreedOthers(G: Segment, G1: Segment, mem: seq<byte>, mem1: seq<byte>, p: nat)
      requires SegmentOk(G, mem, -1) && Shrank(G, G1, p) && |mem1| == |mem|
      requires forall y :: 0 <= y < |mem| && !(p <= y < p + 4) ==> mem1[y] == mem[y]
      ensures OthersKept(G, mem, mem1, p)
    {
      hide SegmentOk, IsLive;
      FreedBytes(G, G1, mem, mem1, p, 0);
    }

    /** A new heap block at an address that was free, beginning with the given bytes. */
    method NewHeapBlock(place: nat, bytes: seq<byte>, size: nat, junk: nat -> byte) returns (r: Pointer)
      requires Holding() && place !in heap && |bytes| <= size
      modifies this`heap, this`blocks
      ensures Holding() && r == OnHeap(place) && r !in old(blocks)
      ensures r in blocks && blocks == old(blocks)[r := blocks[r]] && |blocks[r]| == size
      ensures blocks[r][..|bytes|] == bytes
      ensures r.OnHeap?
    {
      hide SegmentOk, IsLive, BlockSize;
      var all := bytes + seq(size - |bytes|, i requires 0 <= i => junk(i));
      ShowsHeap(slab.Now(), slab.mem[..], blocks, blocks[OnHeap(place) := all]);
      heap := heap[place := all];
      r := OnHeap(place);
      blocks := blocks[r := all];
    }

    /** The standard reallocation, which may move the block. */
    method HeapRealloc(id: nat, newSize: nat, place: nat, junk: nat -> byte) returns (r: Pointer)
      requires Holding() && id in heap && newSize > 0 && (place == id || place !in heap)
      modifies this`heap, this`blocks
      ensures Holding() && Reallocated(old(blocks), blocks, Some(OnHeap(id)), newSize, Some(r))
      ensures r.OnHeap?
    {
      hide SegmentOk, IsLive, BlockSize, SlabShows;
      var bytes := if |heap[id]| < newSize then heap[id] else heap[id][..newSize];
      FreeHeapBlock(id);
      r := NewHeapBlock(place, bytes, newSize, junk);
    }

    function SlabBytes(p: nat, n: nat): seq<byte>
      reads slab, slab.mem
      requires p + n <= slab.mem.Length
    {
      slab.mem[p..p + n]
    }

    lemma BlockBytes(p: nat)
      requires Holding() && InSlab(p) in blocks
      ensures p + |blocks[InSlab(p)]| <= slab.mem.Length
      ensures SlabBytes(p, |blocks[InSlab(p)]|) == blocks[InSlab(p)]
    {
      hide SegmentOk, IsLive, BlockSize;
      assert slab.mem[..][p..p + |blocks[InSlab(p)]|] == slab.mem[p..p + |blocks[InSlab(p)]|];
    }

    /** A slab block's bytes go to the heap. */
    method MoveToHeap(p: nat, oldSize: nat, newSize: nat, place: nat, junk: nat -> byte) returns (r: Pointer)
      requires Holding() && InSlab(p) in blocks && |blocks[InSlab(p)]| == oldSize && newSize > 0 && place !in heap
      modifies this`heap, this`blocks, slab, slab.mem
      ensures Holding() && Reallocated(old(blocks), blocks, Some(InSlab(p)), newSize, Some(r))
      ensures r.OnHeap?
    {
      hide SegmentOk, IsLive, BlockSize, SlabShows, HeapShows;
      BlockBytes(p);
      var n := if oldSize < newSize then oldSize else newSize;
      var bytes := SlabBytes(p, n);
      assert bytes == SlabBytes(p, oldSize)[..n];
      r := NewHeapBlock(place, bytes, newSize, junk);
      FreeSlabBlock(p);
    }

    /** A new block; the slab serves it if it can. */
    method NewBlock(newSize: nat, os: Os, place: nat, junk: nat -> byte) returns (r: Pointer)
      requires Holding() && newSize > 0 && place !in heap
      modifies this`heap, this`blocks, slab, slab.mem
      ensures Holding() && Reallocated(old(blocks), blocks, None, newSize, Some(r))
      ensures Routed(old(slab.Now()), slab.capacity, old(slab.committed), os, None, newSize, Some(r))
    {
      hide SegmentOk, IsLive, BlockSize, SlabShows, HeapShows, Grew, SameBlocks;
      ghost var G, bytes := slab.Now(), slab.mem[..];
      var q := slab.Realloc(None, newSize, os);
      assert slab.mem[..] == bytes;
      if q.None? {
        ShowsSame(G, slab.Now(), bytes, blocks);
        r := NewHeapBlock(place, [], newSize, junk);
      } else {
        r := InSlab(q.value);
        ShowsNew(G, slab.Now(), bytes, blocks, q.value, ClassFor(newSize), newSize);
        ShowsSlabOnly(heap, blocks, q.value, bytes[q.value..q.value + newSize]);
        blocks := blocks[r := bytes[q.value..q.value + newSize]];
      }
    }

    lemma ShowsSlabOnly(heap: map<nat, seq<byte>>, blocks: Contents, p: nat, b: seq<byte>)
      requires HeapShows(heap, blocks)
      ensures HeapShows(heap, blocks[InSlab(p) := b]) && HeapShows(heap, blocks - {InSlab(p)})
    {
    }

    /** The contents after the slab resized a block. */
    lemma BlocksResized(heap: map<nat, seq<byte>>, G: Segment, G1: Segment, mem: seq<byte>, mem1: seq<byte>,
                        blocks: Contents, p: nat, q: nat, newSize: nat)
      returns (blocks1: Contents)
      requires SegmentOk(G, mem, -1) && SegmentOk(G1, mem1, -1) && SlabShows(G, mem, blocks) && HeapShows(heap, blocks)
      requires InSlab(p) in blocks && 0 < newSize <= SLOT_SIZE_MAX && Resized(G, G1, mem, mem1, p, newSize, Some(q))
      ensures SlabShows(G1, mem1, blocks1) && HeapShows(heap, blocks1)
      ensures Reallocated(blocks, blocks1, Some(InSlab(p)), newSize, Some(InSlab(q)))
    {
      hide SegmentOk, IsLive, BlockSize, HeapShows;
      if newSize <= BlockSize(G, p) {
        ShowsStays(G, G1, mem, blocks, p, newSize);
        var b := mem[p..p + newSize];
        blocks1 := blocks[InSlab(p) := b];
        ShowsSlabOnly(heap, blocks, p, b);
        InPlace(mem, blocks, p, newSize);
      } else {
        ShowsMoved(G, G1, mem, mem1, blocks, p, q, newSize);
        var b := mem1[q..q + newSize];
        blocks1 := (blocks - {InSlab(p)})[InSlab(q) := b];
        ShowsSlabOnly(heap, blocks, p, b);
        ShowsSlabOnly(heap, blocks - {InSlab(p)}, q, b);
        assert b[..|blocks[InSlab(p)]|] == mem1[q..q + |blocks[InSlab(p)]|];
      }
    }

    lemma InPlace(mem: seq<byte>, blocks: Contents, p: nat, newSize: nat)
      requires InSlab(p) in blocks && p + |blocks[InSlab(p)]| <= |mem| && p + newSize <= |mem| && newSize > 0
      requires mem[p..p + |blocks[InSlab(p)]|] == blocks[InSlab(p)]
      ensures Reallocated(blocks, blocks[InSlab(p) := mem[p..p + newSize]], Some(InSlab(p)), newSize, Some(InSlab(p)))
    {
      var old_, new_ := blocks[InSlab(p)], mem[p..p + newSize];
      var n := if |old_| < newSize then |old_| else newSize;
      assert new_[..n] == mem[p..p + n] == old_[..n];
      assert blocks[InSlab(p) := new_] == (blocks - {InSlab(p)})[InSlab(p) := new_];
    }

    /** A slab block of a size that the slab serves: it stays, or moves within the slab, or to the heap. */
    method ResizeInSlab(p: nat, oldSize: nat, newSize: nat, os: Os, place: nat, junk: nat -> byte) returns (r: Pointer)
      requires Holding() && InSlab(p) in blocks && |blocks[InSlab(p)]| == oldSize && place !in heap
      requires 0 < newSize <= SLOT_SIZE_MAX
      modifies this`heap, this`blocks, slab, slab.mem
      ensures Holding() && Reallocated(old(blocks), blocks, Some(InSlab(p)), newSize, Some(r))
      ensures Routed(old(slab.Now()), slab.capacity, old(slab.committed), os, Some(InSlab(p)), newSize, Some(r))
    {
      hide SegmentOk, IsLive, BlockSize, SlabShows, HeapShows, SameBlocks;
      ghost var G, bytes := slab.Now(), slab.mem[..];
      Ownership(InSlab(p));
      BlockBytes(p);
      var q := slab.Realloc(Some(p), newSize, os);
      if q.None? {
        ShowsSame(G, slab.Now(), bytes, blocks);
        r := MoveToHeap(p, oldSize, newSize, place, junk);
      } else {
        r := InSlab(q.value);
        blocks := BlocksResized(heap, G, slab.Now(), bytes, slab.mem[..], blocks, p, q.value, newSize);
      }
    }

    /** The block gets a new size: its bytes stay or move, its old place is given back to its owner, and the bytes
        allocated follow.  When it grows, a collection may come first, and free the blocks of other objects. */
    method ReallocateSlab(pointer: Option<Pointer>, oldSize: nat, newSize: nat, gc: Collection, os: Os, place: nat,
                          junk: nat -> byte) returns (r: Option<Pointer>)
      requires Valid() && (place !in heap || pointer == Some(OnHeap(place)))
      requires if pointer.Some? then pointer.value in blocks && |blocks[pointer.value]| == oldSize else oldSize == 0
      requires Collectable(blocks, gc, pointer)
      modifies this, slab, slab.mem
      ensures Valid()
      ensures var collects := Collects(old(bytesAllocated), old(nextGC), oldSize, newSize);
        var left := if collects then Swept(old(blocks), gc.garbage) else old(blocks);
        && Reallocated(left, blocks, pointer, newSize, r)
        && bytesAllocated == Total(left) - oldSize + newSize
        && nextGC == if collects then Threshold(bytesAllocated, beginGC) else old(nextGC)
      ensures !Collects(old(bytesAllocated), old(nextGC), oldSize, newSize) ==>
                Routed(old(slab.Now()), slab.capacity, old(slab.committed), os, pointer, newSize, r)
      ensures r.Some? && (newSize > SLOT_SIZE_MAX || (pointer.Some? && pointer.value.OnHeap?)) ==> r.value.OnHeap?
    {
      hide SegmentOk, IsLive, BlockSize, SlabShows, HeapShows, Reallocated;
      if pointer.Some? { TotalWithout(blocks, pointer.value); }
      bytesAllocated := bytesAllocated + newSize - oldSize;
      if newSize > oldSize && bytesAllocated > nextGC {
        if pointer.Some? { SweptOthers(blocks, gc, pointer); }
        GarbageCollect(gc, junk, newSize - oldSize, pointer);
      }
      ghost var before := blocks;
      r := Resize(pointer, oldSize, newSize, os, place, junk);
      TotalAfter(before, blocks, pointer, newSize, r);
    }

    /** The collection as far as blocks are concerned; the requested bytes are counted already. */
    method GarbageCollect(gc: Collection, junk: nat -> byte, ghost requested: nat, ghost pointer: Option<Pointer>)
      requires Holding() && bytesAllocated == Total(blocks) + requested && Collectable(blocks, gc, pointer)
      modifies this, slab, slab.mem
      ensures Holding() && blocks == Swept(old(blocks), gc.garbage) && heap.Keys <= old(heap.Keys)
      ensures bytesAllocated == Total(blocks) + requested
      ensures nextGC == Threshold(bytesAllocated, beginGC)
    {
      hide SegmentOk, IsLive, BlockSize, SlabShows, HeapShows, SameBlocks, SameBytes, Swept, Collectable;
      NothingFreed(blocks, gc.garbage);
      for i := 0 to |gc.garbage|
        invariant Holding() && blocks == Swept(old(blocks), gc.garbage[..i]) && heap.Keys <= old(heap.Keys)
        invariant bytesAllocated == Total(blocks) + requested
      {
        SweptNext(old(blocks), gc, i, pointer);
        FreeObject(gc.garbage[i], gc.sizes[i], requested);
      }
      assert gc.garbage[..|gc.garbage|] == gc.garbage;
      ghost var G, bytes := slab.Now(), slab.mem[..];
      var dropped := slab.Trim(gc.pageSize, gc.drops, junk);
      ShowsTrimmed(G, slab.Now(), bytes, slab.mem[..], blocks);
      nextGC := bytesAllocated * GC_HEAP_GROW_FACTOR;
      if nextGC < beginGC { nextGC := beginGC; }
    }

    method FreeObject(q: Pointer, size: nat, ghost requested: nat)
      requires Holding() && q in blocks && |blocks[q]| == size && bytesAllocated == Total(blocks) + requested
      modifies this`heap, this`blocks, this`bytesAllocated, slab, slab.mem
      ensures Holding() && blocks == old(blocks) - {q} && heap.Keys <= old(heap.Keys)
      ensures bytesAllocated == Total(blocks) + requested
    {
      hide SegmentOk, IsLive, BlockSize, SlabShows, HeapShows;
      TotalWithout(blocks, q);
      bytesAllocated := bytesAllocated - size;
      Release(q);
    }

    lemma NothingFreed(blocks: Contents, garbage: seq<Pointer>)
      ensures Swept(blocks, garbage[..0]) == blocks
    {
    }

    method Resize(pointer: Option<Pointer>, oldSize: nat, newSize: nat, os: Os, place: nat, junk: nat -> byte)
      returns (r: Option<Pointer>)
      requires Holding() && (place !in heap || pointer == Some(OnHeap(place)))
      requires pointer.Some? ==> pointer.value in blocks && |blocks[pointer.value]| == oldSize
      modifies this`heap, this`blocks, slab, slab.mem
      ensures Holding() && Reallocated(old(blocks), blocks, pointer, newSize, r)
      ensures Routed(old(slab.Now()), slab.capacity, old(slab.committed), os, pointer, newSize, r)
    {
      hide Exhausted, SegmentOk, IsLive, BlockSize, SlabShows, HeapShows, Reallocated;
      if pointer.Some? { Ownership(pointer.value); }
      if newSize == 0 {
        if pointer.Some? { Release(pointer.value); }
        Gone(old(blocks), pointer);
        return None;
      }
      var q: Pointer;
      if pointer.Some? && !SlabOwns(pointer.value) {
        q := HeapRealloc(pointer.value.id, newSize, place, junk);
      } else if pointer.Some? && newSize > SLOT_SIZE_MAX {
        q := MoveToHeap(pointer.value.p, oldSize, newSize, place, junk);
      } else if pointer.Some? {
        q := ResizeInSlab(pointer.value.p, oldSize, newSize, os, place, junk);
      } else {
        q := NewBlock(newSize, os, place, junk);
      }
      r := Some(q);
    }

    lemma Gone(blocks: Contents, pointer: Option<Pointer>)
      ensures Reallocated(blocks, if pointer.Some? then blocks - {pointer.value} else blocks, pointer, 0, None)
    {
    }

    /** The slab takes the block back if the address is one of its own, and otherwise the standard allocator does. */
    method Release(q: Pointer)
      requires Holding() && q in blocks
      modifies this`heap, this`blocks, slab, slab.mem
      ensures Holding() && blocks == old(blocks) - {q} && heap.Keys <= old(heap.Keys)
    {
      hide SegmentOk, IsLive, BlockSize, SlabShows, HeapShows, SameBlocks, Shrank;
      Ownership(q);
      ghost var G, bytes := slab.Now(), slab.mem[..];
      var ok := slab.Free(Some(Address(q)));
      if ok {
        FreedOthers(G, slab.Now(), bytes, slab.mem[..], q.p);
        ShowsGone(G, slab.Now(), bytes, slab.mem[..], blocks, q.p);
        ShowsSlabOnly(heap, blocks, q.p, []);
        blocks := blocks - {q};
      } else {
        ShowsSame(G, slab.Now(), bytes, blocks);
        assert slab.mem[..] == bytes;
        FreeHeapBlock(q.id);
      }
    }
  }
}
