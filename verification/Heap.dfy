/** The objects of the garbage-collected heap and what they refer to. */
module Heap {
  datatype Value = Plain | Ref(o: Obj)

  /** The fields of each kind of object that can hold references.  Texts, natives and functions take no part in
      collection. */
  datatype Payload =
    | Text | Native | Function
    | Upvalue(closed: Value)
    | Closure(upvalues: seq<Obj?>)
    | BoundMethod(receiver: Value, method_: Obj?)
    | Class(initializer: Value, methods: seq<Value>)
    | Instance(klass: Obj?, fields: seq<Value>)

  class Obj {
    var isMarked: bool
    var next: Obj?
    var nextOpen: Obj?   // of an open upvalue
    var payload: Payload
    var size: nat        // bytes that freeing it gives back

    constructor (isMarked: bool, next: Obj?, payload: Payload, size: nat)
      ensures this.isMarked == isMarked && this.next == next && this.payload == payload && this.size == size
      ensures nextOpen == null
    {
      this.isMarked := isMarked;
      this.next := next;
      this.payload := payload;
      this.size := size;
      nextOpen := null;
    }
  }

  predicate Collectable(o: Obj)
    reads o`payload
  {
    !o.payload.Text? && !o.payload.Native? && !o.payload.Function?
  }

  ghost function RefsOf(values: seq<Value>): set<Obj> {
    set v | v in values && v.Ref? :: v.o
  }

  ghost function NonNull(objs: seq<Obj?>): set<Obj> {
    set o: Obj | o in objs
  }

  lemma RefsOfStep(values: seq<Value>, i: nat, others: set<Obj>)
    requires i < |values|
    ensures RefsOf([values[i]]) == if values[i].Ref? then {values[i].o} else {}
    ensures RefsOf([values[i]]) <= RefsOf(values)
    ensures others + RefsOf(values[..i]) + RefsOf([values[i]]) == others + RefsOf(values[..i + 1])
  {
    assert values[..i + 1] == values[..i] + [values[i]];
    assert forall v :: v in values[..i + 1] <==> v in values[..i] || v == values[i];
    if values[i].Ref? {
      assert values[i] in values[..i + 1] && values[i] in [values[i]];
    }
  }

  lemma NonNullStep(objs: seq<Obj?>, i: nat, others: set<Obj>)
    requires i < |objs|
    ensures NonNull([objs[i]]) == if objs[i] != null then {objs[i]} else {}
    ensures NonNull([objs[i]]) <= NonNull(objs)
    ensures others + NonNull(objs[..i]) + NonNull([objs[i]]) == others + NonNull(objs[..i + 1])
  {
    assert objs[..i + 1] == objs[..i] + [objs[i]];
  }

  /** What an object with this payload keeps alive.  An instance without a class keeps nothing. */
  ghost function RefsIn(payload: Payload): set<Obj> {
    match payload
    case Text => {}
    case Native => {}
    case Function => {}
    case Upvalue(closed) => RefsOf([closed])
    case Closure(upvalues) => NonNull(upvalues)
    case BoundMethod(receiver, m) => RefsOf([receiver]) + NonNull([m])
    case Class(initializer, methods) => RefsOf([initializer]) + RefsOf(methods)
    case Instance(klass, fields) => if klass == null then {} else {klass} + RefsOf(fields)
  }

  ghost function Children(o: Obj): set<Obj>
    reads o`payload
  {
    RefsIn(o.payload)
  }

  /** o is a root, or a child of what can be reached in fewer steps. */
  ghost predicate ReachedIn(heap: set<Obj>, roots: set<Obj>, o: Obj, n: nat)
    reads heap`payload
    decreases n
  {
    o in roots ||
    (n > 0 && exists p :: p in heap && ReachedIn(heap, roots, p, n - 1) && o in Children(p))
  }

  ghost predicate Reachable(heap: set<Obj>, roots: set<Obj>, o: Obj)
    reads heap`payload
  {
    exists n: nat :: ReachedIn(heap, roots, o, n)
  }

  lemma RootReached(heap: set<Obj>, roots: set<Obj>, o: Obj)
    requires o in roots
    ensures Reachable(heap, roots, o)
  {
    assert ReachedIn(heap, roots, o, 0);
  }

  lemma ChildReached(heap: set<Obj>, roots: set<Obj>, p: Obj, o: Obj)
    requires p in heap && Reachable(heap, roots, p) && o in Children(p)
    ensures Reachable(heap, roots, o)
  {
    var n: nat :| ReachedIn(heap, roots, p, n);
    assert ReachedIn(heap, roots, o, n + 1);
  }

  /** A set that has the collectable roots and, with each of its members, that one's collectable children, has every
      reachable collectable object. */
  lemma {:induction false} ReachableWithin(heap: set<Obj>, roots: set<Obj>, marked: set<Obj>, o: Obj, n: nat)
    requires forall r :: r in roots && Collectable(r) ==> r in marked
    requires forall p, c :: p in heap && p in marked && c in Children(p) && Collectable(c) ==> c in marked
    requires ReachedIn(heap, roots, o, n) && Collectable(o)
    ensures o in marked
    decreases n
  {
    if o !in roots {
      var p :| p in heap && ReachedIn(heap, roots, p, n - 1) && o in Children(p);
      ReachableWithin(heap, roots, marked, p, n - 1);
    }
  }

  /** Dropping objects that nothing kept refers to changes no reachability. */
  lemma {:induction false} ReachableAfter(heap: set<Obj>, kept: set<Obj>, roots: set<Obj>, o: Obj, n: nat)
    requires kept <= heap && roots <= kept && forall p :: p in kept ==> Children(p) <= kept
    requires ReachedIn(heap, roots, o, n)
    ensures ReachedIn(kept, roots, o, n) && o in kept
    decreases n
  {
    if o !in roots {
      var p :| p in heap && ReachedIn(heap, roots, p, n - 1) && o in Children(p);
      ReachableAfter(heap, kept, roots, p, n - 1);
    }
  }

  // ---- The list of objects ----

  function ObjAt(list: seq<Obj>, i: nat, tail: Obj?): Obj? {
    if i < |list| then list[i] else tail
  }

  /** The objects of `list` are linked in this order, from first, and the last one to tail. */
  ghost predicate Linked(list: seq<Obj>, first: Obj?, tail: Obj?)
    reads list`next
  {
    first == ObjAt(list, 0, tail) &&
    forall i :: 0 <= i < |list| ==> list[i].next == ObjAt(list, i + 1, tail)
  }

  lemma LinkedFirst(list: seq<Obj>, first: Obj?, tail: Obj?)
    requires Linked(list, first, tail)
    ensures first == ObjAt(list, 0, tail)
  {
  }

  lemma LinkedGrow(kept: seq<Obj>, first: Obj?, rest: seq<Obj>)
    requires rest != [] && Linked(kept, first, rest[0]) && Linked(rest, rest[0], null)
    ensures Linked(kept + [rest[0]], first, rest[0].next) && Linked(rest[1..], rest[0].next, null)
  {
    assert forall i :: 0 <= i < |rest| - 1 ==> rest[1..][i] == rest[i + 1];
  }

  ghost predicate LinkedOpen(list: seq<Obj>, first: Obj?)
    reads list`nextOpen
  {
    first == ObjAt(list, 0, null) &&
    forall i :: 0 <= i < |list| ==> list[i].nextOpen == ObjAt(list, i + 1, null)
  }

  ghost predicate Distinct(list: seq<Obj>) {
    forall i, j :: 0 <= i < j < |list| ==> list[i] != list[j]
  }

  /** The members of keep, in the order of the list. */
  ghost function Kept(list: seq<Obj>, keep: set<Obj>): seq<Obj> {
    if list == [] then [] else (if list[0] in keep then [list[0]] else []) + Kept(list[1..], keep)
  }

  lemma {:induction false} KeptHas(list: seq<Obj>, keep: set<Obj>, o: Obj)
    ensures o in Kept(list, keep) <==> o in list && o in keep
  {
    if list != [] {
      KeptHas(list[1..], keep, o);
      assert list == [list[0]] + list[1..];
    }
  }

  function SizeOf(list: seq<Obj>): nat
    reads list`size
  {
    if list == [] then 0 else list[0].size + SizeOf(list[1..])
  }

  lemma {:induction false} KeptAppend(list: seq<Obj>, o: Obj, keep: set<Obj>)
    ensures Kept(list + [o], keep) == Kept(list, keep) + (if o in keep then [o] else [])
  {
    if list == [] {
      assert list + [o] == [o] && [o][1..] == [];
    } else {
      assert (list + [o])[1..] == list[1..] + [o] && (list + [o])[0] == list[0];
      KeptAppend(list[1..], o, keep);
      var first, last := if list[0] in keep then [list[0]] else [], if o in keep then [o] else [];
      assert first + (Kept(list[1..], keep) + last) == first + Kept(list[1..], keep) + last;
    }
  }

  lemma {:induction false} KeptSame(list: seq<Obj>, keep: set<Obj>, live: set<Obj>)
    requires forall i :: 0 <= i < |list| ==> (list[i] in keep <==> list[i] in live)
    ensures Kept(list, keep) == Kept(list, live)
  {
    if list != [] {
      KeptSame(list[1..], keep, live);
    }
  }

  lemma {:induction false} KeptDistinct(list: seq<Obj>, keep: set<Obj>)
    requires Distinct(list)
    ensures Distinct(Kept(list, keep))
  {
    if list != [] {
      KeptDistinct(list[1..], keep);
      KeptHas(list[1..], keep, list[0]);
      assert list[0] !in list[1..];
    }
  }

  lemma {:induction false} SizeAppend(list: seq<Obj>, o: Obj)
    ensures SizeOf(list + [o]) == SizeOf(list) + o.size
  {
    if list == [] {
      assert list + [o] == [o];
    } else {
      assert (list + [o])[1..] == list[1..] + [o];
      SizeAppend(list[1..], o);
    }
  }

  lemma KeptApart(all: seq<Obj>, i: nat, keep: set<Obj>)
    requires i <= |all| && Distinct(all)
    ensures Distinct(Kept(all[..i], keep) + all[i..])
  {
    var kept := Kept(all[..i], keep);
    KeptDistinct(all[..i], keep);
    forall j, k | 0 <= j < k < |kept + all[i..]| ensures (kept + all[i..])[j] != (kept + all[i..])[k] {
      if j < |kept| <= k {
        KeptHas(all[..i], keep, kept[j]);
      }
    }
  }

  /** What one step of a sweep over `all` relies on. */
  lemma SweepStep(all: seq<Obj>, i: nat, keep: set<Obj>)
    requires i < |all|
    ensures all[i..] != [] && all[i..][0] == all[i] && all[i..][1..] == all[i + 1..]
    ensures Kept(all[..i + 1], keep) == Kept(all[..i], keep) + (if all[i] in keep then [all[i]] else [])
    ensures forall j :: 0 <= j < |Kept(all[..i], keep)| ==> Kept(all[..i], keep)[j] in all
    ensures SizeOf(all[i..]) == all[i].size + SizeOf(all[i + 1..])
    ensures SizeOf(Kept(all[..i], keep) + [all[i]]) == SizeOf(Kept(all[..i], keep)) + all[i].size
  {
    var kept := Kept(all[..i], keep);
    assert all[..i + 1] == all[..i] + [all[i]];
    KeptAppend(all[..i], all[i], keep);
    SizeAppend(kept, all[i]);
    forall j | 0 <= j < |kept| ensures kept[j] in all {
      KeptHas(all[..i], keep, kept[j]);
    }
  }
}
