/** Captured variables.  An open upvalue stands for a stack slot, a closed one holds the value itself; what a program
    sees is that every variable is one cell, whoever refers to it. */
module Upvalues {
  import opened Values

  const CLOSED: int := -1

  class Upvalue {
    ghost const cell: nat   // the variable it was made for
    var location: int       // the stack slot, or CLOSED
    var closed: Value
    var next: Upvalue?      // the open upvalue of a lower slot

    constructor (location: int, ghost cell: nat)
      ensures this.location == location && this.cell == cell && closed == Nil && next == null
    {
      this.location, this.cell, closed, next := location, cell, Nil, null;
    }
  }

  /** Every variable is a cell: the slots of the stack name the cells of the variables in scope. */
  datatype View = View(slots: seq<nat>, store: map<nat, Value>, unused: nat)

  /** No two slots name the same cell, and cells that were never used are not in the store. */
  ghost predicate Proper(v: View) {
    && (forall i, j :: 0 <= i < j < |v.slots| ==> v.slots[i] != v.slots[j])
    && (forall i :: 0 <= i < |v.slots| ==> v.slots[i] in v.store)
    && (forall c :: c in v.store ==> c < v.unused)
  }

  ghost function Pushed(v: View, value: Value): View {
    v.(slots := v.slots + [v.unused], store := v.store[v.unused := value], unused := v.unused + 1)
  }

  ghost function Cut(v: View, top: nat): View
    requires top <= |v.slots|
  {
    v.(slots := v.slots[..top])
  }

  ghost function CellSet(v: View, cell: nat, value: Value): View {
    v.(store := v.store[cell := value])
  }

  ghost predicate StackShows(stack: seq<Value>, v: View) {
    && |v.slots| <= |stack|
    && forall i :: 0 <= i < |v.slots| ==> v.slots[i] in v.store && stack[i] == v.store[v.slots[i]]
  }

  /** The upvalues name different cells of the store. */
  ghost predicate Named(all: set<Upvalue>, v: View) {
    && (forall u :: u in all ==> u.cell in v.store)
    && (forall u, w :: u in all && w in all && u.cell == w.cell ==> u == w)
  }

  /** An upvalue at the location, with the value, shows its cell: through its slot, or by itself. */
  ghost predicate Shows(cell: nat, location: int, closed: Value, v: View) {
    if location == CLOSED then cell !in v.slots && cell in v.store && v.store[cell] == closed
    else 0 <= location < |v.slots| && v.slots[location] == cell
  }

  ghost predicate AllShow(all: set<Upvalue>, v: View)
    reads all`location, all`closed
  {
    forall u :: u in all ==> Shows(u.cell, u.location, u.closed, v)
  }

  function At(list: seq<Upvalue>, i: nat): Upvalue? {
    if i < |list| then list[i] else null
  }

  ghost predicate Linked(open: seq<Upvalue>, first: Upvalue?)
    reads open`next
  {
    first == At(open, 0) && forall i :: 0 <= i < |open| ==> open[i].next == At(open, i + 1)
  }

  /** From the top of the stack down, one for a slot. */
  ghost predicate Descending(open: seq<Upvalue>)
    reads open`location
  {
    forall i, j :: 0 <= i < j < |open| ==> open[i].location > open[j].location
  }

  /** The upvalues in the list are those that are open. */
  ghost predicate Listed(open: seq<Upvalue>, all: set<Upvalue>)
    reads all`location
  {
    && (forall u :: u in open ==> u in all)
    && (forall u :: u in all ==> (u in open <==> u.location != CLOSED))
  }

  // ---- What each step keeps ----

  lemma PushKeeps(stack: seq<Value>, all: set<Upvalue>, v: View, value: Value)
    requires Proper(v) && StackShows(stack, v) && Named(all, v) && AllShow(all, v) && |v.slots| < |stack|
    ensures var v' := Pushed(v, value);
      Proper(v') && StackShows(stack[|v.slots| := value], v') && Named(all, v') && AllShow(all, v')
  {
  }

  lemma CutKeeps(stack: seq<Value>, all: set<Upvalue>, v: View, top: nat)
    requires Proper(v) && StackShows(stack, v) && Named(all, v) && AllShow(all, v) && top <= |v.slots|
    requires forall u :: u in all ==> u.location < top
    ensures var v' := Cut(v, top); Proper(v') && StackShows(stack, v') && Named(all, v') && AllShow(all, v')
  {
  }

  lemma SlotSetKeeps(stack: seq<Value>, all: set<Upvalue>, v: View, slot: nat, value: Value)
    requires Proper(v) && StackShows(stack, v) && Named(all, v) && AllShow(all, v) && slot < |v.slots|
    ensures var v' := CellSet(v, v.slots[slot], value);
      Proper(v') && StackShows(stack[slot := value], v') && Named(all, v') && AllShow(all, v')
  {
  }

  lemma ClosedSetKeeps(stack: seq<Value>, all: set<Upvalue>, v: View, u: Upvalue, value: Value)
    requires Proper(v) && StackShows(stack, v) && Named(all, v) && AllShow(all, v) && u in all && u.location == CLOSED
    ensures var v' := CellSet(v, u.cell, value);
      Proper(v') && StackShows(stack, v') && Named(all, v') && AllShow(all - {u}, v') && Shows(u.cell, CLOSED, value, v')
  {
    assert Shows(u.cell, u.location, u.closed, v);
  }

  lemma AllShowBut(all: set<Upvalue>, u: Upvalue, v: View)
    requires AllShow(all - {u}, v) && Shows(u.cell, u.location, u.closed, v)
    ensures AllShow(all, v)
  {
    hide Shows;
    forall w | w in all ensures Shows(w.cell, w.location, w.closed, v) {
      if w != u { assert w in all - {u}; }
    }
  }

  lemma LinkedFirst(open: seq<Upvalue>, first: Upvalue?)
    requires Linked(open, first) && first != null
    ensures open != [] && first == open[0]
  {
  }

  lemma CutCut(v: View, a: nat, b: nat)
    requires b <= a <= |v.slots|
    ensures |Cut(v, a).slots| == a && |Cut(v, b).slots| == b && Cut(Cut(v, a), b) == Cut(v, b)
  {
  }

  lemma CutAll(v: View)
    ensures Cut(v, |v.slots|) == v
  {
  }

  lemma CutSize(v: View, a: nat)
    requires a <= |v.slots|
    ensures |Cut(v, a).slots| == a
  {
  }

  lemma LinkedStart(open: seq<Upvalue>, first: Upvalue?)
    requires Linked(open, first) && open != []
    ensures first == open[0]
  {
  }

  // ---- A new upvalue in the list ----

  ghost predicate Distinct(open: seq<Upvalue>) {
    forall i, j :: 0 <= i < j < |open| ==> open[i] != open[j]
  }

  ghost function Inserted(open: seq<Upvalue>, k: nat, u: Upvalue): seq<Upvalue>
    requires k <= |open|
  {
    open[..k] + [u] + open[k..]
  }

  lemma LinkedInserted(open: seq<Upvalue>, k: nat, u: Upvalue, first: Upvalue?)
    requires k <= |open| && first == (if k == 0 then u else open[0]) && u.next == At(open, k)
    requires forall i :: 0 <= i < |open| ==> open[i].next == if i + 1 == k then u else At(open, i + 1)
    ensures Linked(Inserted(open, k, u), first)
  {
    var list := Inserted(open, k, u);
    forall i | 0 <= i < |list| ensures list[i].next == At(list, i + 1) {
      if i < k { assert list[i] == open[i]; } else if i > k { assert list[i] == open[i - 1]; }
    }
  }

  lemma DescendingInserted(open: seq<Upvalue>, k: nat, u: Upvalue)
    requires k <= |open| && Descending(open)
    requires k > 0 ==> open[k - 1].location > u.location
    requires k < |open| ==> open[k].location < u.location
    ensures Descending(Inserted(open, k, u))
  {
    var list := Inserted(open, k, u);
    forall i, j | 0 <= i < j < |list| ensures list[i].location > list[j].location {
      var i', j' := if i < k then i else i - 1, if j < k then j else j - 1;
      if i == k {
        assert list[j] == open[j'] && j' >= k;
        assert j' == k || open[k].location > open[j'].location;
      } else if j == k {
        assert list[i] == open[i'] && i' <= k - 1;
        assert i' == k - 1 || open[i'].location > open[k - 1].location;
      } else {
        assert list[i] == open[i'] && list[j] == open[j'] && i' < j';
      }
    }
  }

  lemma ListedInserted(open: seq<Upvalue>, all: set<Upvalue>, k: nat, u: Upvalue)
    requires k <= |open| && Listed(open, all) && u.location != CLOSED
    ensures Listed(Inserted(open, k, u), all + {u}) && u in Inserted(open, k, u)
  {
    assert open == open[..k] + open[k..];
    assert forall w :: w in Inserted(open, k, u) <==> w in open || w == u;
  }

  lemma NamedInserted(all: set<Upvalue>, v: View, u: Upvalue)
    requires Proper(v) && Named(all, v) && AllShow(all, v) && u !in all
    requires 0 <= u.location < |v.slots| && v.slots[u.location] == u.cell
    requires forall w :: w in all ==> w.cell != u.cell
    ensures Named(all + {u}, v) && AllShow(all + {u}, v)
  {
  }

  /** The variable that a closure's upvalue is for: one of the enclosing function, or one that it captured itself. */
  ghost function CellWanted(v: View, slots: nat, wanted: (bool, nat), enclosing: seq<Upvalue>): nat
    requires if wanted.0 then slots + wanted.1 < |v.slots| else wanted.1 < |enclosing|
  {
    if wanted.0 then v.slots[slots + wanted.1] else enclosing[wanted.1].cell
  }

  class Machine {
    const stack: array<Value>
    var stackTop: nat
    var openUpvalues: Upvalue?
    ghost var all: set<Upvalue>
    ghost var open: seq<Upvalue>
    ghost var view: View

    /** The view has the variables up to some slot; above it closures may already have taken theirs. */
    ghost predicate Settled()
      reads this, stack, all, open
    {
      Placed() && Linked(open, openUpvalues)
    }

    /** All but the links of the list. */
    ghost predicate Placed()
      reads this`view, this`stackTop, this`all, this`open, stack, all`location, all`closed, open`location
    {
      && Proper(view) && |view.slots| <= stackTop <= stack.Length && StackShows(stack[..], view)
      && Named(all, view) && AllShow(all, view) && Descending(open) && Listed(open, all)
    }

    ghost predicate Valid()
      reads this, stack, all, open
    {
      Settled() && stackTop == |view.slots|
    }

    constructor (size: nat)
      ensures Valid() && view == View([], map[], 0) && fresh(stack) && stack.Length == size && all == {}
    {
      stack := new Value[size](_ => Nil);
      stackTop := 0;
      openUpvalues := null;
      all, open := {}, [];
      view := View([], map[], 0);
    }

    method Store(slot: nat, value: Value)
      requires slot < stack.Length
      modifies stack
      ensures stack[..] == old(stack[..])[slot := value]
    {
      stack[slot] := value;
    }

    method Push(value: Value)
      requires Valid() && stackTop < stack.Length
      modifies this`stackTop, this`view, stack
      ensures Valid() && view == Pushed(old(view), value)
    {
      hide Proper, StackShows, Named, AllShow, Linked, Descending, Listed;
      PushKeeps(stack[..], all, view, value);
      Store(stackTop, value);
      stackTop := stackTop + 1;
      view := Pushed(view, value);
    }

    /** Only a slot that no open upvalue shows may be popped this way; Activations.Execute shows that none else is. */
    method Pop() returns (value: Value)
      requires Valid() && stackTop > 0 && forall u :: u in all ==> u.location < stackTop - 1
      modifies this`stackTop, this`view
      ensures Valid() && view == Cut(old(view), old(stackTop) - 1)
      ensures value == old(view).store[old(view).slots[old(stackTop) - 1]]
    {
      hide Proper, StackShows, Named, AllShow, Linked, Descending, Listed;
      TopShows(stackTop - 1);
      CutKeeps(stack[..], all, view, stackTop - 1);
      stackTop := stackTop - 1;
      value := stack[stackTop];
      view := Cut(view, stackTop);
    }

    /** The n values on top go; no open upvalue shows one of them. */
    method PopN(n: nat)
      requires Valid() && n <= stackTop && forall u :: u in all ==> u.location < stackTop - n
      modifies this`stackTop, this`view
      ensures Valid() && view == Cut(old(view), old(stackTop) - n)
    {
      hide Proper, StackShows, Named, AllShow, Linked, Descending, Listed;
      CutKeeps(stack[..], all, view, stackTop - n);
      stackTop := stackTop - n;
      view := Cut(view, stackTop);
    }

    /** The upvalue of a variable in the stack is at its slot. */
    lemma AtSlot(u: Upvalue, slot: nat)
      requires Settled() && u in all && slot < |view.slots| && u.cell == view.slots[slot]
      ensures u.location == slot
    {
      assert Shows(u.cell, u.location, u.closed, view);
    }

    lemma TopShows(slot: nat)
      requires Settled() && slot < |view.slots|
      ensures view.slots[slot] in view.store && stack[slot] == view.store[view.slots[slot]]
    {
    }

    method GetLocal(slot: nat) returns (value: Value)
      requires Valid() && slot < stackTop
      ensures value == view.store[view.slots[slot]]
    {
      value := stack[slot];
    }

    method SetLocal(slot: nat, value: Value)
      requires Valid() && slot < stackTop
      modifies this`view, stack
      ensures Valid() && view == CellSet(old(view), old(view).slots[slot], value)
    {
      hide Proper, StackShows, Named, AllShow, Linked, Descending, Listed;
      SlotSetKeeps(stack[..], all, view, slot, value);
      Store(slot, value);
      view := CellSet(view, view.slots[slot], value);
    }

    lemma UpvalueShows(u: Upvalue)
      requires Settled() && u in all
      ensures u.cell in view.store && Shows(u.cell, u.location, u.closed, view)
      ensures u.location != CLOSED ==> stack[u.location] == view.store[u.cell]
    {
    }

    /** Reading a captured variable, in the stack or not, is reading its cell. */
    method GetUpvalue(u: Upvalue) returns (value: Value)
      requires Valid() && u in all
      ensures u.cell in view.store && value == view.store[u.cell]
    {
      UpvalueShows(u);
      value := if u.location == CLOSED then u.closed else stack[u.location];
    }

    /** Assigning to a captured variable assigns to its cell, and so to every view of it. */
    method SetUpvalue(u: Upvalue, value: Value)
      requires Valid() && u in all
      modifies this`view, stack, u`closed
      ensures Valid() && view == CellSet(old(view), u.cell, value)
    {
      hide Proper, StackShows, Named, AllShow, Linked, Descending, Listed;
      UpvalueShows(u);
      if u.location == CLOSED { SetClosed(u, value); } else { SetLocal(u.location, value); }
    }

    method SetClosed(u: Upvalue, value: Value)
      requires Valid() && u in all && u.location == CLOSED
      modifies this`view, u`closed
      ensures Valid() && view == CellSet(old(view), u.cell, value)
    {
      hide Proper, StackShows, Named, AllShow, Linked, Descending, Listed, Shows;
      ghost var v := CellSet(view, u.cell, value);
      ClosedSetKeeps(stack[..], all, view, u, value);
      u.closed := value;
      AllShowBut(all, u, v);
      view := v;
    }

    // ---- Capturing ----

    /** The upvalue of the slot's variable: the open one, if there is one, or else a new one in its place in the list. */
    method CaptureUpvalue(local: nat) returns (u: Upvalue)
      requires Valid() && local < stackTop
      modifies this`openUpvalues, this`open, this`all, open`next
      ensures Valid() && view == old(view) && u in all && u.cell == view.slots[local]
      ensures if exists w :: w in old(all) && w.cell == view.slots[local] then all == old(all)
              else fresh(u) && all == old(all) + {u}
    {
      hide Proper, StackShows, Named, AllShow, Descending, Listed;
      var prevUpvalue: Upvalue? := null;
      var upvalue := openUpvalues;
      ghost var k: nat := 0;
      while upvalue != null && upvalue.location > local
        invariant k <= |open| && upvalue == At(open, k) && prevUpvalue == if k == 0 then null else open[k - 1]
        invariant k > 0 ==> open[k - 1].location > local
        decreases |open| - k
      {
        prevUpvalue := upvalue;
        upvalue := upvalue.next;
        k := k + 1;
      }
      if upvalue != null && upvalue.location == local {
        OpenShows(k);
        return upvalue;
      }
      NotNamed(local, k);
      u := Insert(local, prevUpvalue, upvalue, k);
    }

    lemma OpenShows(k: nat)
      requires Settled() && k < |open|
      ensures open[k] in all && 0 <= open[k].location < |view.slots| && open[k].cell == view.slots[open[k].location]
    {
      assert Shows(open[k].cell, open[k].location, open[k].closed, view);
    }

    /** A slot without an open upvalue is named by no upvalue. */
    lemma NotNamed(local: nat, k: nat)
      requires Settled() && local < |view.slots| && k <= |open|
      requires k > 0 ==> open[k - 1].location > local
      requires k < |open| ==> open[k].location < local
      ensures forall w :: w in all ==> w.cell != view.slots[local]
    {
      forall w | w in all ensures w.cell != view.slots[local] {
        assert Shows(w.cell, w.location, w.closed, view);
        if w in open {
          var j :| 0 <= j < |open| && open[j] == w;
          assert j < k - 1 ==> open[j].location > open[k - 1].location;
          assert j > k ==> open[k].location > open[j].location;
        }
      }
    }

    method Insert(local: nat, prevUpvalue: Upvalue?, upvalue: Upvalue?, ghost k: nat) returns (u: Upvalue)
      requires Valid() && local < stackTop && k <= |open|
      requires upvalue == At(open, k) && prevUpvalue == if k == 0 then null else open[k - 1]
      requires k > 0 ==> open[k - 1].location > local
      requires upvalue != null ==> upvalue.location < local
      requires forall w :: w in all ==> w.cell != view.slots[local]
      modifies this`openUpvalues, this`open, this`all, open`next
      ensures Valid() && view == old(view) && fresh(u) && all == old(all) + {u} && u.cell == view.slots[local]
    {
      hide Placed, Linked, Inserted, Distinct;
      NoneTwice();
      SlotOf(local);
      u := new Upvalue(local, view.slots[local]);
      Link(u, prevUpvalue, upvalue, k);
      Enter(u, k);
    }

    lemma SlotOf(local: nat)
      requires Valid() && local < stackTop
      ensures local < |view.slots| && stackTop == |view.slots| && (forall u :: u in open ==> u in all)
    {
    }

    /** A linked upvalue becomes one of those in the list. */
    ghost method Enter(u: Upvalue, k: nat)
      requires Placed() && stackTop == |view.slots| && k <= |open| && Linked(Inserted(open, k, u), openUpvalues)
      requires u !in all && 0 <= u.location < stackTop && u.cell == view.slots[u.location]
      requires k > 0 ==> open[k - 1].location > u.location
      requires k < |open| ==> open[k].location < u.location
      requires forall w :: w in all ==> w.cell != u.cell
      modifies this`open, this`all
      ensures Valid() && all == old(all) + {u} && view == old(view)
    {
      hide Proper, StackShows, Named, AllShow, Linked, Descending, Listed, Inserted;
      DescendingInserted(open, k, u);
      ListedInserted(open, all, k, u);
      NamedInserted(all, view, u);
      open := Inserted(open, k, u);
      all := all + {u};
    }

    lemma NoneTwice()
      requires Settled()
      ensures Distinct(open)
    {
    }

    /** Puts u before the list element after prevUpvalue. */
    method Link(u: Upvalue, prevUpvalue: Upvalue?, upvalue: Upvalue?, ghost k: nat)
      requires Linked(open, openUpvalues) && Distinct(open) && k <= |open| && u !in open
      requires upvalue == At(open, k) && prevUpvalue == if k == 0 then null else open[k - 1]
      modifies this`openUpvalues, u`next, open`next
      ensures Linked(Inserted(open, k, u), openUpvalues)
    {
      u.next := upvalue;
      if prevUpvalue == null { openUpvalues := u; } else { prevUpvalue.next := u; }
      LinkedInserted(open, k, u, openUpvalues);
    }

    // ---- Closing ----

    /** What closing the first upvalue of the list relies on. */
    lemma FirstCloses()
      requires Settled() && open != []
      ensures var u, v := open[0], Cut(view, open[0].location);
        && u in all && Proper(v) && StackShows(stack[..], v) && Named(all, v) && AllShow(all - {u}, v)
        && Shows(u.cell, CLOSED, stack[u.location], v)
    {
      OpenShows(0);
      var l := open[0].location;
      forall w | w in all - {open[0]} ensures Shows(w.cell, w.location, w.closed, Cut(view, l)) {
        assert Shows(w.cell, w.location, w.closed, view);
        if w in open {
          var j :| 0 <= j < |open| && open[j] == w;
        }
      }
    }

    lemma TailLinked()
      requires Settled() && open != []
      ensures Linked(open[1..], open[0].next) && Descending(open[1..]) && open[0] !in open[1..]
      ensures Listed(open[1..], all - {open[0]})
    {
      assert open == [open[0]] + open[1..];
      forall i | 0 <= i < |open[1..]| ensures open[1..][i].next == At(open[1..], i + 1) {
        assert open[1..][i] == open[i + 1];
      }
    }

    lemma ListedClosed(rest: seq<Upvalue>, u: Upvalue)
      requires Listed(rest, all - {u}) && u in all && u !in rest && u.location == CLOSED
      ensures Listed(rest, all)
    {
    }

    method CloseFirst()
      requires Settled() && open != []
      modifies this`openUpvalues, this`open, this`view, open`location, open`closed
      ensures Settled() && open == old(open)[1..] && view == Cut(old(view), old(open[0].location))
      ensures forall u :: u in all ==> u.location == old(u.location) || u.location == CLOSED
    {
      hide Proper, StackShows, Named, AllShow, Linked, Descending, Listed, Shows, Cut;
      OpenShows(0);
      FirstCloses();
      TailLinked();
      LinkedStart(open, openUpvalues);
      var upvalue := openUpvalues;
      ghost var v, rest := Cut(view, upvalue.location), open[1..];
      upvalue.closed := stack[upvalue.location];
      upvalue.location := CLOSED;
      openUpvalues := upvalue.next;
      AllShowBut(all, upvalue, v);
      ListedClosed(rest, upvalue);
      CutSize(old(view), old(open[0].location));
      view := v;
      open := rest;
    }

    lemma NoneAbove(last: nat)
      requires Settled() && (openUpvalues != null ==> openUpvalues.location < last)
      ensures forall u :: u in all ==> u.location < last
    {
      forall u | u in all ensures u.location < last {
        if u in open {
          var j :| 0 <= j < |open| && open[j] == u;
        }
      }
    }

    /** The variables from slot last on leave the stack, and the upvalues that show one of them take it over: their
        cells keep their values. */
    method CloseUpvalues(last: nat)
      requires Settled() && last <= |view.slots|
      modifies this`openUpvalues, this`open, this`view, open`location, open`closed
      ensures Settled() && view == Cut(old(view), last)
      ensures forall u :: u in all ==> u.location < last && (u.location == old(u.location) || u.location == CLOSED)
    {
      hide Proper, StackShows, Named, AllShow, Linked, Descending, Listed, Cut;
      CutAll(view);
      while openUpvalues != null && openUpvalues.location >= last
        invariant Settled() && last <= |view.slots| <= |old(view).slots| && view == Cut(old(view), |view.slots|)
        invariant |open| <= |old(open)| && open == old(open)[|old(open)| - |open|..]
        invariant forall u :: u in all ==> u.location == old(u.location) || u.location == CLOSED
        decreases |open|
      {
        LinkedFirst(open, openUpvalues);
        OpenShows(0);
        CutCut(old(view), |view.slots|, openUpvalues.location);
        CloseFirst();
      }
      NoneAbove(last);
      CutKeeps(stack[..], all, view, last);
      CutCut(old(view), |view.slots|, last);
      view := Cut(view, last);
    }

    /** The variable on top leaves the stack; the closure that captured it keeps it. */
    method CloseUpvalueAndPop()
      requires Valid() && stackTop > 0
      modifies this`stackTop, this`openUpvalues, this`open, this`view, open`location, open`closed
      ensures Valid() && view == Cut(old(view), old(stackTop) - 1)
      ensures forall u :: u in all ==> u.location < stackTop && (u.location == old(u.location) || u.location == CLOSED)
    {
      hide Proper, StackShows, Named, AllShow, Linked, Descending, Listed;
      CloseUpvalues(stackTop - 1);
      stackTop := stackTop - 1;
    }

    /** Leaves a function whose frame begins at `slots`: its variables go, and the result is a new variable in the
        caller's frame. */
    method Return(slots: nat)
      requires Valid() && slots < stackTop && forall u :: u in all ==> u.location < stackTop - 1
      modifies this`stackTop, this`openUpvalues, this`open, this`view, stack, open`location, open`closed
      ensures Valid() && stackTop == slots + 1
      ensures var result := old(view).store[old(view).slots[old(stackTop) - 1]];
        view == Pushed(Cut(old(view), slots), result)
      ensures forall u :: u in all ==> u.location < slots && (u.location == old(u.location) || u.location == CLOSED)
    {
      hide Proper, StackShows, Named, AllShow, Linked, Descending, Listed;
      ghost var before := view;
      var result := Pop();
      CloseUpvalues(slots);
      CutCut(before, |before.slots| - 1, slots);
      stackTop := slots;
      Push(result);
    }

    /** The upvalues of a new closure: of variables of the enclosing function, and those that one has itself. */
    method MakeClosure(slots: nat, wanted: seq<(bool, nat)>, enclosing: seq<Upvalue>) returns (upvalues: seq<Upvalue>)
      requires Valid() && forall i :: 0 <= i < |enclosing| ==> enclosing[i] in all
      requires forall i :: 0 <= i < |wanted| ==>
                 if wanted[i].0 then slots + wanted[i].1 < stackTop else wanted[i].1 < |enclosing|
      modifies this`openUpvalues, this`open, this`all, all`next
      ensures Valid() && view == old(view) && |upvalues| == |wanted| && old(all) <= all
      ensures forall i :: 0 <= i < |upvalues| ==> upvalues[i] in all
      ensures forall i :: 0 <= i < |upvalues| ==> upvalues[i].cell == CellWanted(view, slots, wanted[i], enclosing)
      ensures forall u :: u in all && u !in old(all) ==> fresh(u) && u in upvalues
    {
      hide Proper, StackShows, Named, AllShow, Linked, Descending;
      upvalues := [];
      for n := 0 to |wanted|
        invariant Valid() && view == old(view) && |upvalues| == n && old(all) <= all
        invariant forall u :: u in all && u !in old(all) ==> fresh(u) && u in upvalues
        invariant forall i :: 0 <= i < n ==> upvalues[i] in all
        invariant forall i :: 0 <= i < n ==> upvalues[i].cell == CellWanted(view, slots, wanted[i], enclosing)
      {
        var (isLocal, index) := wanted[n];
        var u: Upvalue;
        if isLocal { u := CaptureUpvalue(slots + index); } else { u := enclosing[index]; }
        upvalues := upvalues + [u];
      }
    }
  }
}
