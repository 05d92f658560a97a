/** The mark-and-sweep collector.  The mark that means "reached" flips with every cycle, so the marks of the objects
    that stay need no clearing. */
module Collector {
  import opened Heap

  const GC_HEAP_GROW_FACTOR: nat := 2
  const GC_HEAP_BEGIN: nat := 1024 * 1024

  /** Marking only sets marks, and an object that becomes gray was not marked before. */
  ghost predicate Advanced(unmarked: set<Obj>, gray: seq<Obj>, unmarked': set<Obj>, gray': seq<Obj>) {
    unmarked' <= unmarked && (gray' == gray || unmarked' < unmarked)
  }

  lemma AdvancedOn(u: set<Obj>, g: seq<Obj>, u': set<Obj>, g': seq<Obj>, u'': set<Obj>, g'': seq<Obj>)
    requires Advanced(u, g, u', g') && Advanced(u', g', u'', g'')
    ensures Advanced(u, g, u'', g'')
  {
  }

  class Vm {
    var stack: seq<Value>
    var frames: seq<Obj>       // the closures of the call frames
    var openUpvalues: Obj?
    var globals: seq<Value>
    var objects: Obj?
    var grayStack: seq<Obj>
    var gcMark: bool
    var gcWorking: bool
    var bytesAllocated: nat
    var beginGC: nat
    var nextGC: nat

    ghost var heap: set<Obj>   // everything there is
    ghost var list: seq<Obj>   // the objects the collector owns
    ghost var open: seq<Obj>   // the open upvalues
    ghost var extra: nat       // bytes accounted for that belong to no listed object

    ghost function Roots(): set<Obj>
      reads this`stack, this`frames, this`open, this`globals
    {
      RefsOf(stack) + NonNull(frames) + NonNull(open) + RefsOf(globals)
    }

    /** Everything referred to exists, and what the collector does not own refers to nothing. */
    ghost predicate Closed(heap: set<Obj>, list: seq<Obj>)
      reads this`stack, this`frames, this`open, this`globals, this`openUpvalues, heap`payload, heap`nextOpen
    {
      && (forall o :: o in list ==> o in heap && Collectable(o))
      && (forall i :: 0 <= i < |open| ==> open[i] in heap) && LinkedOpen(open, openUpvalues)
      && Roots() <= heap
      && (forall p :: p in heap ==> Children(p) <= heap)
      && (forall p :: p in heap && p !in list ==> Children(p) == {})
    }

    /** The object list is well linked, and the bytes allocated are those of its members and the extra ones. */
    ghost predicate Listed()
      reads this`list, this`objects, this`bytesAllocated, this`extra, list`next, list`size
    {
      Distinct(list) && Linked(list, objects, null) && bytesAllocated == SizeOf(list) + extra
    }

    ghost predicate Shape()
      reads this`stack, this`frames, this`open, this`globals, this`heap, this`list, this`objects, this`openUpvalues,
            this`bytesAllocated, this`extra, heap`payload, heap`next, heap`nextOpen, heap`size
    {
      Closed(heap, list) && Listed()
    }

    ghost predicate Valid()
      reads this, heap
    {
      Shape() && grayStack == [] && forall o :: o in list ==> o.isMarked != gcMark
    }

    /** All of these exist and are marked, if the collector marks their kind. */
    ghost predicate Done(os: set<Obj>)
      reads this`heap, this`gcMark, os`payload, os`isMarked
    {
      forall o :: o in os ==> o in heap && (Collectable(o) ==> o.isMarked == gcMark)
    }

    ghost predicate Found(os: set<Obj>)
      reads this`stack, this`frames, this`open, this`globals, this`heap, heap`payload
    {
      forall o :: o in os ==> o in heap && Reachable(heap, Roots(), o)
    }

    /** The tricolour invariant: only reachable objects are marked, and every marked object but the gray ones, and the
        one being scanned, has its children marked. */
    ghost predicate Tracing(busy: Obj?)
      reads this, heap
    {
      && Shape()
      && (forall o :: o in grayStack ==> o in heap && o.isMarked == gcMark)
      && (forall o :: o in list && o.isMarked == gcMark ==> Reachable(heap, Roots(), o))
      && (forall p :: p in heap && p.isMarked == gcMark && p !in grayStack && p != busy ==>
            Children(p) <= heap && Done(Children(p)))
    }

    ghost function Unmarked(): set<Obj>
      reads this`heap, this`gcMark, heap`isMarked
    {
      set o | o in heap && o.isMarked != gcMark
    }

    lemma FoundPart(os: set<Obj>, part: set<Obj>)
      requires Found(os) && part <= os
      ensures Found(part)
    {
    }

    constructor ()
      ensures Valid() && heap == {} && list == [] && nextGC == beginGC == GC_HEAP_BEGIN
    {
      stack, frames, openUpvalues, globals, objects, grayStack := [], [], null, [], null, [];
      gcMark, gcWorking := true, false;
      bytesAllocated, beginGC, nextGC := 0, GC_HEAP_BEGIN, GC_HEAP_BEGIN;
      heap, list, open, extra := {}, [], [], 0;
    }

    /** What the program does to an object between collections. */
    method Store(object_: Obj, payload: Payload)
      requires Valid() && object_ in list && RefsIn(payload) <= heap
      requires !payload.Text? && !payload.Native? && !payload.Function?
      modifies object_`payload
      ensures Valid() && object_.payload == payload
    {
      hide RefsIn, Roots, Linked, Distinct, SizeOf;
      object_.payload := payload;
    }

    // ---- Marking ----

    method MarkObject(object_: Obj?, ghost busy: Obj?, ghost done: set<Obj>)
      requires Tracing(busy) && Found(NonNull([object_])) && Done(done)
      modifies this`grayStack, heap`isMarked
      ensures Tracing(busy) && Advanced(old(Unmarked()), old(grayStack), Unmarked(), grayStack)
      ensures Done(done + NonNull([object_]))
    {
      hide Shape, Children, Reachable;
      if object_ == null { return; }
      assert object_ in NonNull([object_]);
      if object_.isMarked == gcMark { return; }
      if !Collectable(object_) { return; }
      object_.isMarked := gcMark;
      grayStack := grayStack + [object_];
      assert object_ in old(Unmarked()) && object_ !in Unmarked();
      forall p | p in heap && p.isMarked == gcMark && p !in grayStack && p != busy
        ensures Children(p) <= heap && Done(Children(p))
      {
        assert p != object_ && old(p.isMarked) == gcMark && p !in old(grayStack);
        assert old(Done(Children(p)));
      }
    }

    method MarkValue(value: Value, ghost busy: Obj?, ghost done: set<Obj>)
      requires Tracing(busy) && Found(RefsOf([value])) && Done(done)
      modifies this`grayStack, heap`isMarked
      ensures Tracing(busy) && Advanced(old(Unmarked()), old(grayStack), Unmarked(), grayStack)
      ensures Done(done + RefsOf([value]))
    {
      hide Tracing, Found, Reachable, Children;
      if value.Ref? {
        assert RefsOf([value]) == {value.o} by { RefsOfStep([value], 0, {}); }
        assert NonNull([value.o]) == {value.o};
        MarkObject(value.o, busy, done);
      }
    }

    /** What markTable does with a table's values, and the walk over the stack. */
    method MarkValues(values: seq<Value>, ghost busy: Obj?, ghost done: set<Obj>)
      requires Tracing(busy) && Found(RefsOf(values)) && Done(done)
      modifies this`grayStack, heap`isMarked
      ensures Tracing(busy) && Advanced(old(Unmarked()), old(grayStack), Unmarked(), grayStack)
      ensures Done(done + RefsOf(values))
    {
      hide Tracing, Found, Children, Done, Unmarked;
      assert done + RefsOf([]) == done;
      hide RefsOf;
      for i := 0 to |values|
        invariant Tracing(busy) && Advanced(old(Unmarked()), old(grayStack), Unmarked(), grayStack)
        invariant Done(done + RefsOf(values[..i]))
      {
        RefsOfStep(values, i, done);
        FoundPart(RefsOf(values), RefsOf([values[i]]));
        MarkValue(values[i], busy, done + RefsOf(values[..i]));
      }
      assert values[..|values|] == values;
    }

    method MarkObjects(objs: seq<Obj?>, ghost busy: Obj?, ghost done: set<Obj>)
      requires Tracing(busy) && Found(NonNull(objs)) && Done(done)
      modifies this`grayStack, heap`isMarked
      ensures Tracing(busy) && Advanced(old(Unmarked()), old(grayStack), Unmarked(), grayStack)
      ensures Done(done + NonNull(objs))
    {
      hide Tracing, Found, Children, Done, Unmarked;
      assert done + NonNull([]) == done;
      hide NonNull;
      for i := 0 to |objs|
        invariant Tracing(busy) && Advanced(old(Unmarked()), old(grayStack), Unmarked(), grayStack)
        invariant Done(done + NonNull(objs[..i]))
      {
        NonNullStep(objs, i, done);
        FoundPart(NonNull(objs), NonNull([objs[i]]));
        MarkObject(objs[i], busy, done + NonNull(objs[..i]));
      }
      assert objs[..|objs|] == objs;
    }

    lemma OpenLinked(done: set<Obj>)
      requires Tracing(null)
      ensures done + NonNull([]) == done
      ensures LinkedOpen(open, openUpvalues) && openUpvalues == ObjAt(open, 0, null)
    {
    }

    lemma OpenStep(i: nat, done: set<Obj>)
      requires LinkedOpen(open, openUpvalues) && Found(NonNull(open)) && i < |open|
      ensures open[i].nextOpen == ObjAt(open, i + 1, null) && Found(NonNull([open[i]]))
      ensures done + NonNull(open[..i]) + NonNull([open[i]]) == done + NonNull(open[..i + 1])
    {
      NonNullStep(open, i, done);
    }

    method MarkOpenUpvalues(ghost done: set<Obj>)
      requires Tracing(null) && Found(NonNull(open)) && Done(done)
      modifies this`grayStack, heap`isMarked
      ensures Tracing(null) && Advanced(old(Unmarked()), old(grayStack), Unmarked(), grayStack)
      ensures Done(done + NonNull(open))
    {
      assert Advanced(Unmarked(), grayStack, Unmarked(), grayStack);
      OpenLinked(done);
      hide Tracing, Found, Children, Done, Unmarked, NonNull, Advanced, LinkedOpen;
      var upvalue := openUpvalues;
      ghost var i := 0;
      while upvalue != null
        invariant Tracing(null) && Advanced(old(Unmarked()), old(grayStack), Unmarked(), grayStack)
        invariant i <= |open| && upvalue == ObjAt(open, i, null)
        invariant LinkedOpen(open, openUpvalues) && Found(NonNull(open)) && Done(done + NonNull(open[..i]))
        decreases |open| - i
      {
        OpenStep(i, done);
        ghost var unmarked, gray := Unmarked(), grayStack;
        MarkObject(upvalue, null, done + NonNull(open[..i]));
        AdvancedOn(old(Unmarked()), old(grayStack), unmarked, gray, Unmarked(), grayStack);
        upvalue := upvalue.nextOpen;
        i := i + 1;
      }
      assert open[..|open|] == open;
    }

    lemma RootsFound()
      requires Tracing(null)
      ensures Found(RefsOf(stack)) && Found(NonNull(frames)) && Found(NonNull(open)) && Found(RefsOf(globals))
      ensures Done({}) && Roots() == {} + RefsOf(stack) + NonNull(frames) + NonNull(open) + RefsOf(globals)
    {
      forall r | r in Roots() ensures Reachable(heap, Roots(), r) { RootReached(heap, Roots(), r); }
    }

    method MarkStacks()
      requires Tracing(null) && Found(RefsOf(stack)) && Found(NonNull(frames)) && Done({})
      modifies this`grayStack, heap`isMarked
      ensures Tracing(null) && Done({} + RefsOf(stack) + NonNull(frames))
    {
      hide Tracing, Done, Found, Advanced, RefsOf, NonNull, Unmarked;
      MarkValues(stack, null, {});
      MarkObjects(frames, null, {} + RefsOf(stack));
    }

    method MarkRoots()
      requires Tracing(null)
      modifies this`grayStack, heap`isMarked
      ensures Tracing(null) && Done(Roots())
    {
      RootsFound();
      hide Tracing, Done, Found, Advanced, RefsOf, NonNull, Unmarked, Roots;
      MarkStacks();
      MarkOpenUpvalues({} + RefsOf(stack) + NonNull(frames));
      MarkValues(globals, null, {} + RefsOf(stack) + NonNull(frames) + NonNull(open));
    }

    lemma ChildrenFound(o: Obj)
      requires Tracing(o) && o in heap && o.isMarked == gcMark
      ensures Found(Children(o))
    {
      forall c | c in Children(o) ensures c in heap && Reachable(heap, Roots(), c) {
        assert o in list;
        ChildReached(heap, Roots(), o, c);
      }
    }

    lemma ChildrenParts(o: Obj, done: set<Obj>)
      requires Found(Children(o))
      ensures var p := o.payload;
        && (p.Text? || p.Native? || p.Function? || (p.Instance? && p.klass == null) ==> done + Children(o) == done)
        && (p.Upvalue? ==> Found(RefsOf([p.closed])) && done + RefsOf([p.closed]) == done + Children(o))
        && (p.Closure? ==> Found(NonNull(p.upvalues)) && done + NonNull(p.upvalues) == done + Children(o))
        && (p.BoundMethod? ==>
              Found(RefsOf([p.receiver])) && Found(NonNull([p.method_])) &&
              done + RefsOf([p.receiver]) + NonNull([p.method_]) == done + Children(o))
        && (p.Class? ==>
              Found(RefsOf([p.initializer])) && Found(RefsOf(p.methods)) &&
              done + RefsOf([p.initializer]) + RefsOf(p.methods) == done + Children(o))
        && (p.Instance? && p.klass != null ==>
              Found(NonNull([p.klass])) && Found(RefsOf(p.fields)) &&
              done + NonNull([p.klass]) + RefsOf(p.fields) == done + Children(o))
    {
      if o.payload.Instance? && o.payload.klass != null {
        NonNullStep([o.payload.klass], 0, {});
      }
    }

    lemma Blackened(o: Obj, done: set<Obj>)
      requires Tracing(o) && o in heap && Done(done + Children(o))
      ensures Tracing(null) && Done(done)
    {
    }

    method MarkValueAndValues(value: Value, values: seq<Value>, ghost busy: Obj, ghost done: set<Obj>)
      requires Tracing(busy) && Found(RefsOf([value])) && Found(RefsOf(values)) && Done(done)
      modifies this`grayStack, heap`isMarked
      ensures Tracing(busy) && Done(done + RefsOf([value]) + RefsOf(values))
      ensures Advanced(old(Unmarked()), old(grayStack), Unmarked(), grayStack)
    {
      hide Tracing, Found, Done, RefsOf, Unmarked;
      MarkValue(value, busy, done);
      MarkValues(values, busy, done + RefsOf([value]));
    }

    method MarkObjectAndValues(object_: Obj, values: seq<Value>, ghost busy: Obj, ghost done: set<Obj>)
      requires Tracing(busy) && Found(NonNull([object_])) && Found(RefsOf(values)) && Done(done)
      modifies this`grayStack, heap`isMarked
      ensures Tracing(busy) && Done(done + NonNull([object_]) + RefsOf(values))
      ensures Advanced(old(Unmarked()), old(grayStack), Unmarked(), grayStack)
    {
      hide Tracing, Found, Done, RefsOf, NonNull, Unmarked;
      MarkObject(object_, busy, done);
      MarkValues(values, busy, done + NonNull([object_]));
    }

    method MarkValueAndObject(value: Value, object_: Obj?, ghost busy: Obj, ghost done: set<Obj>)
      requires Tracing(busy) && Found(RefsOf([value])) && Found(NonNull([object_])) && Done(done)
      modifies this`grayStack, heap`isMarked
      ensures Tracing(busy) && Done(done + RefsOf([value]) + NonNull([object_]))
      ensures Advanced(old(Unmarked()), old(grayStack), Unmarked(), grayStack)
    {
      hide Tracing, Found, Done, RefsOf, NonNull, Unmarked;
      MarkValue(value, busy, done);
      MarkObject(object_, busy, done + RefsOf([value]));
    }

    /** Marks the children of one marked object. */
    method Blacken(object_: Obj, ghost done: set<Obj>)
      requires Tracing(object_) && object_ in heap && object_.isMarked == gcMark && Done(done)
      modifies this`grayStack, heap`isMarked
      ensures Tracing(null) && Done(done) && Advanced(old(Unmarked()), old(grayStack), Unmarked(), grayStack)
    {
      ChildrenFound(object_);
      ChildrenParts(object_, done);
      assert Advanced(Unmarked(), grayStack, Unmarked(), grayStack);
      hide Tracing, Found, Done, RefsOf, NonNull, Unmarked, Children, Advanced;
      match object_.payload {
        case Upvalue(closed) => MarkValue(closed, object_, done);
        case Closure(upvalues) => MarkObjects(upvalues, object_, done);
        case BoundMethod(receiver, m) => MarkValueAndObject(receiver, m, object_, done);
        case Class(initializer, methods) => MarkValueAndValues(initializer, methods, object_, done);
        case Instance(klass, fields) => if klass != null { MarkObjectAndValues(klass, fields, object_, done); }
        case _ =>
      }
      Blackened(object_, done);
    }

    method TraceReferences()
      requires Tracing(null) && Done(Roots())
      modifies this`grayStack, heap`isMarked
      ensures Tracing(null) && Done(Roots()) && grayStack == []
    {
      hide Tracing, Done, Unmarked, Roots;
      ghost var roots := Roots();
      while |grayStack| > 0
        invariant Tracing(null) && Done(roots) && roots == Roots()
        decreases Unmarked(), |grayStack|
      {
        var object_ := PopGray(roots);
        Blacken(object_, roots);
      }
    }

    method PopGray(ghost done: set<Obj>) returns (object_: Obj)
      requires Tracing(null) && |grayStack| > 0 && Done(done)
      modifies this`grayStack
      ensures Done(done) && Tracing(object_) && object_ in heap && object_.isMarked == gcMark
      ensures grayStack == old(grayStack)[..|old(grayStack)| - 1]
    {
      hide Shape, Reachable, Children, Roots;
      object_ := grayStack[|grayStack| - 1];
      grayStack := grayStack[..|grayStack| - 1];
    }

    // ---- Sweeping ----

    ghost function Marked(): set<Obj>
      reads this`heap, this`gcMark, heap`isMarked
    {
      set o | o in heap && o.isMarked == gcMark
    }

    /** Takes the first of rest out of the list. */
    method Unlink(previous: Obj?, object_: Obj, ghost kept: seq<Obj>, ghost rest: seq<Obj>)
      requires rest != [] && rest[0] == object_ && Distinct(kept + rest)
      requires Linked(kept, objects, object_) && Linked(rest, object_, null)
      requires previous == if kept == [] then null else kept[|kept| - 1]
      modifies this`objects, kept`next
      ensures Linked(kept, objects, object_.next) && Linked(rest[1..], object_.next, null)
      ensures object_.next == old(object_.next)
    {
      LinkedGrow(kept, objects, rest);
      forall i, j | 0 <= i < |kept| && 0 <= j < |rest| ensures kept[i] != rest[j] {
        assert (kept + rest)[i] == kept[i] && (kept + rest)[|kept| + j] == rest[j];
      }
      forall i, j | 0 <= i < j < |kept| ensures kept[i] != kept[j] {
        assert (kept + rest)[i] == kept[i] && (kept + rest)[j] == kept[j];
      }
      if previous != null { previous.next := object_.next; } else { objects := object_.next; }
    }

    lemma NothingSwept()
      ensures Linked([], objects, objects) && Kept(list[..0], Marked()) == [] && SizeOf([]) == 0 && list[0..] == list
    {
    }

    /** The list loses the objects that are not marked, and keeps the others in order. */
    method Sweep()
      requires Listed() && forall o :: o in list ==> o in heap
      modifies this`objects, this`bytesAllocated, this`list, heap`next
      ensures Listed() && list == Kept(old(list), Marked())
    {
      hide Linked, Distinct, Kept, SizeOf;
      ghost var all, marked := list, Marked();
      var previous: Obj? := null;
      var object_ := objects;
      ghost var i, kept: seq<Obj> := 0, [];
      NothingSwept();
      LinkedFirst(list, objects, null);
      while object_ != null
        invariant i <= |all| && object_ == ObjAt(all[i..], 0, null) && kept == Kept(all[..i], marked)
        invariant Linked(kept, objects, object_) && Linked(all[i..], object_, null)
        invariant previous == if kept == [] then null else kept[|kept| - 1]
        invariant bytesAllocated == SizeOf(kept) + SizeOf(all[i..]) + extra
        decreases |all| - i
      {
        SweepStep(all, i, marked);
        KeptApart(all, i, marked);
        assert forall o :: o in kept ==> o in heap;
        if object_.isMarked == gcMark {
          LinkedGrow(kept, objects, all[i..]);
          previous := object_;
          object_ := object_.next;
          kept := kept + [previous];
        } else {
          var unreached := object_;
          Unlink(previous, object_, kept, all[i..]);
          object_ := object_.next;
          FreeObject(unreached);
        }
        i := i + 1;
        LinkedFirst(all[i..], object_, null);
      }
      assert all[..i] == all;
      KeptDistinct(all, marked);
      list := kept;
    }

    method FreeObject(object_: Obj)
      requires object_.size <= bytesAllocated
      modifies this`bytesAllocated
      ensures bytesAllocated == old(bytesAllocated) - object_.size
    {
      bytesAllocated := bytesAllocated - object_.size;
    }

    // ---- The cycle ----

    ghost function Live(): set<Obj>
      reads this`stack, this`frames, this`open, this`globals, this`heap, this`list, heap`payload
    {
      set o | o in list && o in heap && Reachable(heap, Roots(), o)
    }

    ghost function Garbage(): set<Obj>
      reads this`stack, this`frames, this`open, this`globals, this`heap, this`list, heap`payload
    {
      set o | o in list && o !in Live()
    }

    ghost function Unreached(all: seq<Obj>): set<Obj>
      reads this`heap, this`gcMark, heap`isMarked
    {
      set o | o in all && o !in Marked()
    }

    /** Every root and every child of a marked object is marked. */
    ghost predicate Traced()
      reads this`stack, this`frames, this`open, this`globals, this`heap, this`gcMark, heap`payload, heap`isMarked
    {
      && Roots() <= heap && Done(Roots())
      && forall p :: p in heap && p.isMarked == gcMark ==> Children(p) <= heap && Done(Children(p))
    }

    /** When nothing is gray, the marked objects are the reachable ones. */
    lemma MarkedAreLive()
      requires Tracing(null) && Done(Roots()) && grayStack == []
      ensures Kept(list, Marked()) == Kept(list, Live()) && Garbage() == Unreached(list)
      ensures Traced() && Closed(heap, list) && Listed() && forall o :: o in list ==> o in heap
    {
      forall o | o in list ensures o in Live() <==> o in Marked() {
        if Reachable(heap, Roots(), o) {
          var n: nat :| ReachedIn(heap, Roots(), o, n);
          assert forall r :: r in Roots() && Collectable(r) ==> r in Marked();
          ReachableWithin(heap, Roots(), Marked(), o, n);
        }
      }
      KeptSame(list, Marked(), Live());
    }

    /** The objects that stay refer to none of those that go. */
    lemma Survivors(all: seq<Obj>, garbage: set<Obj>)
      requires Closed(heap, all) && Traced()
      requires garbage == Unreached(all)
      requires list == Kept(all, Marked())
      ensures Closed(heap - garbage, list) && forall o :: o in list ==> o.isMarked == gcMark
    {
      forall o ensures o in list <==> o in all && o in Marked() { KeptHas(all, Marked(), o); }
      forall p | p in heap - garbage ensures Children(p) <= heap - garbage && (p !in list ==> Children(p) == {}) {
        if p in all {
          assert Done(Children(p));
        }
      }
    }

    method Mark()
      requires Valid()
      modifies this`grayStack, heap`isMarked
      ensures grayStack == [] && Kept(list, Marked()) == Kept(list, Live())
      ensures Garbage() == Unreached(list)
      ensures Traced() && Closed(heap, list) && Listed() && forall o :: o in list ==> o in heap
    {
      assert Tracing(null);
      hide Tracing, Done, Valid, Roots;
      MarkRoots();
      TraceReferences();
      MarkedAreLive();
    }

    lemma NoGarbageLeft(before: set<Obj>)
      requires heap <= before && Closed(heap, list)
      requires forall o :: o in list ==> Reachable(before, Roots(), o)
      ensures Garbage() == {}
    {
      forall o | o in list ensures Reachable(heap, Roots(), o) {
        var n: nat :| ReachedIn(before, Roots(), o, n);
        ReachableAfter(before, heap, Roots(), o, n);
      }
    }

    lemma KeptLive()
      ensures forall o :: o in Kept(list, Live()) ==> o in heap && Reachable(heap, Roots(), o)
    {
      forall o | o in Kept(list, Live()) ensures o in Live() { KeptHas(list, Live(), o); }
    }

    method SweepUnreached()
      requires Traced() && Closed(heap, list) && Listed() && forall o :: o in list ==> o in heap
      modifies this`objects, this`bytesAllocated, this`list, this`heap, heap`next
      ensures Closed(heap, list) && Listed() && forall o :: o in list ==> o.isMarked == gcMark
      ensures list == Kept(old(list), old(Marked())) && heap == old(heap) - old(Unreached(list))
    {
      hide Closed, Listed, Traced, Kept, Unreached, Marked;
      ghost var all, garbage := list, Unreached(list);
      Sweep();
      Survivors(all, garbage);
      heap := heap - garbage;
    }

    method Reclaim()
      requires Valid()
      modifies this`grayStack, this`objects, this`bytesAllocated, this`list, this`heap, heap`isMarked, heap`next
      ensures Closed(heap, list) && Listed() && grayStack == [] && forall o :: o in list ==> o.isMarked == gcMark
      ensures list == Kept(old(list), old(Live())) && heap == old(heap) - old(Garbage())
    {
      hide Closed, Listed, Traced, Kept, Live, Garbage, Valid, Unreached, Marked;
      ghost var live, garbage := Live(), Garbage();
      Mark();
      assert Live() == live && Garbage() == garbage;
      SweepUnreached();
    }

    /** One collection: exactly the unreachable objects leave the list, so nothing unreachable is left, and the marks of
        the others already mean "not reached" to the next collection. */
    method GarbageCollect()
      requires Valid()
      modifies this`grayStack, this`objects, this`bytesAllocated, this`nextGC, this`gcMark, this`gcWorking,
               this`list, this`heap, heap`isMarked, heap`next
      ensures Valid() && gcMark == !old(gcMark) && !gcWorking
      ensures list == Kept(old(list), old(Live())) && heap == old(heap) - old(Garbage()) && Garbage() == {}
      ensures nextGC == if bytesAllocated * GC_HEAP_GROW_FACTOR > beginGC then bytesAllocated * GC_HEAP_GROW_FACTOR
                        else beginGC
    {
      KeptLive();
      hide Closed, Listed, Kept, Live, Garbage, Reachable, Roots;
      ghost var before := heap;
      gcWorking := true;
      Reclaim();
      NoGarbageLeft(before);
      nextGC := bytesAllocated * GC_HEAP_GROW_FACTOR;
      if nextGC < beginGC { nextGC := beginGC; }
      gcMark := !gcMark;
      gcWorking := false;
    }

    // ---- Allocation ----

    lemma FoundStays(os: set<Obj>)
      requires Valid() && Found(os)
      ensures os <= heap - Garbage()
    {
      forall o | o in os ensures o !in Garbage() { assert Reachable(heap, Roots(), o); }
    }

    /** The bytes of a new object are accounted for before the object is in the list, and may start a collection. */
    method ReserveObject(size: nat)
      requires Valid()
      modifies this`grayStack, this`objects, this`bytesAllocated, this`nextGC, this`gcMark, this`gcWorking,
               this`list, this`heap, this`extra, heap`isMarked, heap`next
      ensures Valid() && extra == old(extra) + size
      ensures if old(bytesAllocated) + size > old(nextGC)
              then list == Kept(old(list), old(Live())) && heap == old(heap) - old(Garbage()) && gcMark == !old(gcMark)
              else list == old(list) && heap == old(heap) && gcMark == old(gcMark)
    {
      hide Closed, Kept, Live, Garbage;
      bytesAllocated := bytesAllocated + size;
      extra := extra + size;
      assert Valid();
      if bytesAllocated > nextGC { GarbageCollect(); }
    }

    lemma Enlisted(o: Obj, rest: seq<Obj>, others: set<Obj>)
      requires list == [o] + rest && heap == others + {o} && o !in others && Closed(others, rest)
      requires Distinct(rest) && Linked(rest, o.next, null) && objects == o && Collectable(o) && Children(o) <= others
      requires bytesAllocated == SizeOf(rest) + o.size + extra
      ensures Shape()
    {
      assert list[1..] == rest;
      assert forall i :: 0 < i < |list| ==> list[i] == rest[i - 1];
    }

    method Enlist(payload: Payload, size: nat) returns (object_: Obj)
      requires Valid() && RefsIn(payload) <= heap && !payload.Text? && !payload.Native? && !payload.Function?
      requires extra >= size
      modifies this`objects, this`list, this`heap, this`extra
      ensures Valid() && fresh(object_) && object_.payload == payload && object_.size == size
      ensures list == [object_] + old(list) && heap == old(heap) + {object_} && extra == old(extra) - size
    {
      hide Linked, Distinct, Roots, RefsIn, SizeOf;
      ghost var rest, others := list, heap;
      object_ := new Obj(!gcMark, objects, payload, size);
      objects := object_;
      list := [object_] + list;
      heap := heap + {object_};
      extra := extra - size;
      Enlisted(object_, rest, others);
    }

    /** The new object's references are held by roots, as the collection that the allocation may start cannot see the
        object yet. */
    method AllocateObject(payload: Payload, size: nat) returns (object_: Obj)
      requires Valid() && Found(RefsIn(payload)) && !payload.Text? && !payload.Native? && !payload.Function?
      modifies this`grayStack, this`objects, this`bytesAllocated, this`nextGC, this`gcMark, this`gcWorking,
               this`list, this`heap, this`extra, heap`isMarked, heap`next
      ensures Valid() && fresh(object_) && object_.payload == payload && object_.size == size && extra == old(extra)
      ensures if old(bytesAllocated) + size > old(nextGC)
              then list == [object_] + Kept(old(list), old(Live())) && heap == old(heap) - old(Garbage()) + {object_}
              else list == [object_] + old(list) && heap == old(heap) + {object_}
    {
      FoundStays(RefsIn(payload));
      hide Valid, Live, Kept, Garbage, Found;
      ReserveObject(size);
      object_ := Enlist(payload, size);
    }
  }
}
