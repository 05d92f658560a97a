/** Which source line each byte of code came from: a table of runs that is written forward, rolled back, and searched. */
module Lines {
  import opened Types

  const UINT32_MAX: nat := 0xFFFF_FFFF

  /** A run of bytes of one line, up to and including the offset. */
  datatype RangeLine = RangeLine(line: nat, offset: nat)

  function GrowCapacity(capacity: nat): nat {
    if capacity < 8 then 8 else capacity * 2
  }

  /** The ranges after a byte of the line is written at the offset. */
  function Written(rs: seq<RangeLine>, line: nat, offset: nat): seq<RangeLine> {
    if rs != [] && rs[|rs| - 1].line == line then rs[|rs| - 1 := RangeLine(line, offset)]
    else rs + [RangeLine(line, offset)]
  }

  /** The first range, counted down from range i, before which the ranges end by t. */
  function FirstAfter(rs: seq<RangeLine>, t: nat, i: nat): (r: nat)
    requires i < |rs|
    ensures r <= i
  {
    if i > 0 && rs[i - 1].offset > t then FirstAfter(rs, t, i - 1) else i
  }

  lemma {:induction false} FirstAfterFits(rs: seq<RangeLine>, t: nat, i: nat)
    requires i < |rs| && rs[i].offset > t
    ensures var k := FirstAfter(rs, t, i); rs[k].offset > t && (k == 0 || rs[k - 1].offset <= t)
  {
    if i > 0 && rs[i - 1].offset > t { FirstAfterFits(rs, t, i - 1); }
  }

  /** The ranges after a rollback to t. */
  function TakenBack(rs: seq<RangeLine>, t: nat): seq<RangeLine> {
    if rs == [] || t >= rs[|rs| - 1].offset then rs
    else var i := FirstAfter(rs, t, |rs| - 1); rs[..i] + [rs[i].(offset := t)]
  }

  /** The range at which the binary search between two ranges stops: the offsets alone decide. */
  function StopAt(rs: seq<RangeLine>, low: nat, high: nat, offset: nat): (k: nat)
    requires low <= high < |rs|
    ensures low <= k <= high
    decreases high - low
  {
    if low == high then low
    else
      var mid := low + (high - low) / 2;
      if offset > rs[mid].offset then StopAt(rs, mid + 1, high, offset)
      else if offset < rs[mid].offset then StopAt(rs, low, mid, offset)
      else mid
  }

  lemma StopStep(rs: seq<RangeLine>, low: nat, high: nat, offset: nat)
    requires low <= high < |rs|
    ensures var mid := low + (high - low) / 2;
            StopAt(rs, low, high, offset) ==
            if low == high then low
            else if offset > rs[mid].offset then StopAt(rs, mid + 1, high, offset)
            else if offset < rs[mid].offset then StopAt(rs, low, mid, offset)
            else mid
  {
  }

  /** What the search answers. */
  function Search(rs: seq<RangeLine>, offset: nat): nat
    requires rs != []
  {
    var k := StopAt(rs, 0, |rs| - 1, offset);
    if offset <= rs[k].offset then rs[k].line else UINT32_MAX
  }

  /** A byte written where a rollback ended can be given the line of a byte that was taken back: two bytes of line 1,
      the second taken back, and one of line 2 in its place. */
  lemma StaleOffset()
    ensures var rs := Written(TakenBack(Written(Written([], 1, 0), 1, 1), 1), 2, 1);
      |rs| == 2 && Search(rs, 1) == 1
  {
    assert Written(Written([], 1, 0), 1, 1) == [RangeLine(1, 1)];
    assert Written([RangeLine(1, 1)], 2, 1) == [RangeLine(1, 1), RangeLine(2, 1)];
  }

  /** Taken back twice to one offset, and written again with the line of the range that then is last: no range is added,
      and still the search comes to the one before it. */
  lemma StaleAgain()
    ensures var rs := TakenBack(Written(TakenBack(Written(Written([], 1, 0), 1, 1), 1), 2, 1), 1);
      |rs| == 2 && rs[1].line == 2 && Written(rs, 2, 1) == rs && Search(rs, 1) == 1
  {
    assert Written(Written([], 1, 0), 1, 1) == [RangeLine(1, 1)];
    assert Written([RangeLine(1, 1)], 2, 1) == [RangeLine(1, 1), RangeLine(2, 1)];
  }

  /** Where two ranges end at an offset, what the search answers there depends on how many ranges follow: here a later
      rollback, to an offset behind it, turns the right answer into a wrong one. */
  lemma AnswerMoves()
    ensures var rs := [RangeLine(9, 0), RangeLine(1, 1), RangeLine(2, 1)];
      && rs == Written(TakenBack(Written(Written(Written([], 9, 0), 1, 1), 1, 2), 1), 2, 1)
      && var more := Written(Written(Written(rs, 3, 2), 3, 3), 4, 4);
         Search(more, 1) == 2 && TakenBack(more, 2) != [] && Search(TakenBack(more, 2), 1) == 1
  {
    var rs := [RangeLine(9, 0), RangeLine(1, 1), RangeLine(2, 1)];
    assert Written(Written(Written([], 9, 0), 1, 1), 1, 2) == [RangeLine(9, 0), RangeLine(1, 2)];
    assert TakenBack([RangeLine(9, 0), RangeLine(1, 2)], 1) == [RangeLine(9, 0), RangeLine(1, 1)];
    var more := rs + [RangeLine(3, 3), RangeLine(4, 4)];
    assert Written(Written(rs, 3, 2), 3, 3) == rs + [RangeLine(3, 3)];
    assert Written(rs + [RangeLine(3, 3)], 4, 4) == more;
    assert FirstAfter(more, 2, 4) == FirstAfter(more, 2, 3) == 3;
    assert TakenBack(more, 2) == rs + [RangeLine(3, 2)];
    assert StopAt(more, 0, 4, 1) == 2;
    assert StopAt(rs + [RangeLine(3, 2)], 0, 3, 1) == 1;
  }

  /** Range k holds offset o: it is the first that ends at o or later. */
  ghost predicate Covers(rs: seq<RangeLine>, k: nat, o: nat) {
    k < |rs| && o <= rs[k].offset && (k == 0 || rs[k - 1].offset < o)
  }

  /** No two ranges end at o. */
  ghost predicate Single(rs: seq<RangeLine>, o: nat) {
    forall i, j :: 0 <= i < j < |rs| ==> !(rs[i].offset == o == rs[j].offset)
  }

  ghost predicate Ascending(rs: seq<RangeLine>) {
    forall i, j :: 0 <= i < j < |rs| ==> rs[i].offset <= rs[j].offset
  }

  /** The last range ends with the last of n bytes or, behind a rollback, one further: its end then claims a byte that
      is yet to be written. */
  predicate Spans(rs: seq<RangeLine>, n: nat) {
    rs != [] && (rs[|rs| - 1].offset + 1 == n || rs[|rs| - 1].offset == n)
  }

  /** The range that holds a byte gives it its line, unless its offset is stale; then it gives it another one. */
  ghost predicate Runs(rs: seq<RangeLine>, lines: seq<nat>, stale: set<nat>) {
    && Ascending(rs) && Spans(rs, |lines|)
    && (forall o: nat, k: nat :: o < |lines| && Covers(rs, k, o) ==> (o in stale <==> rs[k].line != lines[o]))
    && (forall o :: o in stale ==> o < |lines|)
  }

  /** The next byte is claimed, by the end of a range that a rollback left there, for another line. */
  predicate ClaimedElsewhere(rs: seq<RangeLine>, line: nat, offset: nat) {
    rs != [] && rs[|rs| - 1].offset == offset && rs[First(rs, offset, |rs| - 1)].line != line
  }

  /** The first range, counted down from range i, that ends at the offset of the last. */
  function First(rs: seq<RangeLine>, offset: nat, i: nat): (r: nat)
    requires i < |rs|
    ensures r <= i
  {
    if i > 0 && rs[i - 1].offset == offset then First(rs, offset, i - 1) else i
  }

  function StaleBehind(rs: seq<RangeLine>, stale: set<nat>, line: nat, offset: nat): set<nat> {
    if ClaimedElsewhere(rs, line, offset) then stale + {offset} else stale
  }

  function StaleBefore(stale: set<nat>, t: nat): set<nat> {
    set o | o in stale && o < t
  }

  lemma {:induction false} FirstCovers(rs: seq<RangeLine>, o: nat, i: nat)
    requires Ascending(rs) && i < |rs| && rs[i].offset == o
    ensures Covers(rs, First(rs, o, i), o)
  {
    if i > 0 && rs[i - 1].offset == o { FirstCovers(rs, o, i - 1); }
  }

  lemma CoversOnce(rs: seq<RangeLine>, o: nat, j: nat, k: nat)
    requires Ascending(rs) && Covers(rs, j, o) && Covers(rs, k, o)
    ensures j == k
  {
  }

  /** A byte of the same line moves the end of the last range. */
  lemma WriteSame(rs: seq<RangeLine>, lines: seq<nat>, stale: set<nat>, line: nat)
    requires Runs(rs, lines, stale) && rs[|rs| - 1].line == line
    ensures Runs(rs[|rs| - 1 := RangeLine(line, |lines|)], lines + [line], StaleBehind(rs, stale, line, |lines|))
  {
    var n, m := |rs| - 1, |lines|;
    var rs', lines', stale' := rs[n := RangeLine(line, m)], lines + [line], StaleBehind(rs, stale, line, m);
    if rs[n].offset == m { FirstCovers(rs, m, n); }
    forall o: nat, k: nat | o <= m && Covers(rs', k, o) ensures o in stale' <==> rs'[k].line != lines'[o] {
      if o < m { assert Covers(rs, k, o); }
      if o == m && rs[n].offset == m { CoversOnce(rs, m, k, First(rs, m, n)); }
    }
  }

  /** A byte of another line starts a range. */
  lemma WriteOther(rs: seq<RangeLine>, lines: seq<nat>, stale: set<nat>, line: nat)
    requires Runs(rs, lines, stale)
    ensures Runs(rs + [RangeLine(line, |lines|)], lines + [line], StaleBehind(rs, stale, line, |lines|))
  {
    var n, m := |rs| - 1, |lines|;
    var rs', lines', stale' := rs + [RangeLine(line, m)], lines + [line], StaleBehind(rs, stale, line, m);
    if rs[n].offset == m { FirstCovers(rs, m, n); }
    forall o: nat, k: nat | o <= m && Covers(rs', k, o) ensures o in stale' <==> rs'[k].line != lines'[o] {
      if k <= n { assert Covers(rs, k, o); }
      if o == m && k <= n { CoversOnce(rs, m, k, First(rs, m, n)); }
    }
  }

  lemma WrittenRuns(rs: seq<RangeLine>, lines: seq<nat>, stale: set<nat>, line: nat)
    requires if rs == [] then lines == [] && stale == {} else Runs(rs, lines, stale)
    ensures Runs(Written(rs, line, |lines|), lines + [line], StaleBehind(rs, stale, line, |lines|))
  {
    hide Runs, StaleBehind;
    if rs == [] {
      FirstRun(line);
      assert lines + [line] == [line] && rs + [RangeLine(line, 0)] == [RangeLine(line, 0)];
    } else if rs[|rs| - 1].line == line {
      WriteSame(rs, lines, stale, line);
    } else {
      WriteOther(rs, lines, stale, line);
    }
  }

  lemma FirstRun(line: nat)
    ensures Runs([RangeLine(line, 0)], [line], {}) && StaleBehind([], {}, line, 0) == {}
  {
  }

  /** i is the first range that ends after t. */
  lemma RolledBack(rs: seq<RangeLine>, lines: seq<nat>, stale: set<nat>, t: nat, i: nat)
    requires Runs(rs, lines, stale) && t < |lines|
    requires i < |rs| && t < rs[i].offset && (i == 0 || rs[i - 1].offset <= t)
    ensures Runs(rs[..i] + [rs[i].(offset := t)], lines[..t], StaleBefore(stale, t))
  {
    var rs' := rs[..i] + [rs[i].(offset := t)];
    assert forall j :: 0 <= j < i ==> rs'[j] == rs[j] && rs[j].offset <= t;
    forall o: nat, k: nat | o < t && Covers(rs', k, o) ensures o in stale <==> rs'[k].line != lines[o] {
      assert Covers(rs, k, o);
    }
  }

  /** A rollback by one byte leaves the last range as it is. */
  lemma LeftAsIs(rs: seq<RangeLine>, lines: seq<nat>, stale: set<nat>, t: nat)
    requires Runs(rs, lines, stale) && t < |lines| && rs[|rs| - 1].offset <= t
    ensures Runs(rs, lines[..t], StaleBefore(stale, t))
  {
  }

  lemma AllBefore(lines: seq<nat>, stale: set<nat>)
    requires forall o :: o in stale ==> o < |lines|
    ensures StaleBefore(stale, |lines|) == stale
  {
  }

  lemma TakenBackRuns(rs: seq<RangeLine>, lines: seq<nat>, stale: set<nat>, t: nat)
    requires (if rs == [] then lines == [] && stale == {} else Runs(rs, lines, stale)) && t <= |lines|
    ensures if rs == [] then lines[..t] == [] && StaleBefore(stale, t) == {}
            else Runs(TakenBack(rs, t), lines[..t], StaleBefore(stale, t))
  {
    hide Runs, StaleBefore;
    assert lines[..|lines|] == lines;
    if rs == [] {
      AllBefore(lines, stale);
    } else {
      LastRun(rs, lines, stale);
      if t < rs[|rs| - 1].offset {
        FirstAfterFits(rs, t, |rs| - 1);
        RolledBack(rs, lines, stale, t, FirstAfter(rs, t, |rs| - 1));
      } else if t < |lines| {
        LeftAsIs(rs, lines, stale, t);
      } else {
        AllBefore(lines, stale);
      }
    }
  }

  /** Where one range at most ends, the search comes to the range that holds the offset. */
  lemma {:induction false} StopsAtCover(rs: seq<RangeLine>, low: nat, high: nat, o: nat, k: nat)
    requires Ascending(rs) && low <= high < |rs| && Covers(rs, k, o) && low <= k <= high && Single(rs, o)
    ensures StopAt(rs, low, high, o) == k
    decreases high - low
  {
    var mid := low + (high - low) / 2;
    if low == high {
    } else if o > rs[mid].offset {
      StopsAtCover(rs, mid + 1, high, o, k);
    } else if o < rs[mid].offset {
      StopsAtCover(rs, low, mid, o, k);
    }
  }

  lemma {:induction false} CoverExists(rs: seq<RangeLine>, o: nat, i: nat) returns (k: nat)
    requires Ascending(rs) && i < |rs| && o <= rs[i].offset
    ensures Covers(rs, k, o)
  {
    k := i;
    if i > 0 && o <= rs[i - 1].offset { k := CoverExists(rs, o, i - 1); }
  }

  lemma {:induction false} StopFits(rs: seq<RangeLine>, low: nat, high: nat, o: nat)
    requires Ascending(rs) && low <= high < |rs|
    ensures o <= rs[StopAt(rs, low, high, o)].offset <==> o <= rs[high].offset
    decreases high - low
  {
    var mid := low + (high - low) / 2;
    if low == high {
    } else if o > rs[mid].offset {
      StopFits(rs, mid + 1, high, o);
    } else if o < rs[mid].offset {
      StopFits(rs, low, mid, o);
    }
  }

  /** The first midpoint of the search between two ranges that falls on one of the ranges a to b. */
  function Landing(low: nat, high: nat, a: nat, b: nat): (k: nat)
    requires low <= a <= b <= high
    ensures a <= k <= b
    decreases high - low
  {
    if low == high then low
    else
      var mid := low + (high - low) / 2;
      if mid < a then Landing(mid + 1, high, a, b) else if mid > b then Landing(low, mid, a, b) else mid
  }

  /** Exactly the ranges a to b end at o. */
  ghost predicate EndThere(rs: seq<RangeLine>, o: nat, a: nat, b: nat) {
    && a <= b < |rs| && (forall i :: a <= i <= b ==> rs[i].offset == o)
    && (a > 0 ==> rs[a - 1].offset < o) && (b + 1 < |rs| ==> rs[b + 1].offset > o)
  }

  lemma Sides(rs: seq<RangeLine>, o: nat, a: nat, b: nat, mid: nat)
    requires Ascending(rs) && EndThere(rs, o, a, b) && mid < |rs|
    ensures if mid < a then rs[mid].offset < o else if mid > b then rs[mid].offset > o else rs[mid].offset == o
  {
  }

  lemma {:induction false} StopLands(rs: seq<RangeLine>, low: nat, high: nat, o: nat, a: nat, b: nat)
    requires Ascending(rs) && EndThere(rs, o, a, b) && low <= a <= b <= high < |rs|
    ensures StopAt(rs, low, high, o) == Landing(low, high, a, b)
    decreases high - low
  {
    hide Ascending, EndThere;
    Sides(rs, o, a, b, low + (high - low) / 2);
    var mid := low + (high - low) / 2;
    if low == high {
    } else if mid < a {
      StopLands(rs, mid + 1, high, o, a, b);
    } else if mid > b {
      StopLands(rs, low, mid, o, a, b);
    }
  }

  /** Whether the line of a byte is found: where only one range can end, exactly when the offset is not stale; where
      ranges a to b end, exactly when the one on which the halving of their numbers lands has the line. */
  ghost predicate Findable(rs: seq<RangeLine>, lines: seq<nat>, stale: set<nat>, o: nat)
    requires o < |lines|
  {
    && (Single(rs, o) ==> o !in stale)
    && (forall a: nat, b: nat :: a < b && EndThere(rs, o, a, b) ==>
          rs[Landing(0, |rs| - 1, a, b)].line == lines[o])
  }

  lemma {:induction false} LastThere(rs: seq<RangeLine>, o: nat, a: nat, i: nat) returns (b: nat)
    requires Ascending(rs) && a <= i < |rs| && (forall j :: a <= j <= i ==> rs[j].offset == o)
    requires a > 0 ==> rs[a - 1].offset < o
    ensures i <= b && EndThere(rs, o, a, b)
    decreases |rs| - i
  {
    b := i;
    assert rs[i].offset == o;
    if i + 1 < |rs| && rs[i + 1].offset == o { b := LastThere(rs, o, a, i + 1); }
  }

  /** Where more than one range ends at an offset, which these are. */
  lemma Several(rs: seq<RangeLine>, o: nat) returns (a: nat, b: nat)
    requires Ascending(rs) && !Single(rs, o)
    ensures a < b && EndThere(rs, o, a, b)
  {
    var i, j :| 0 <= i < j < |rs| && rs[i].offset == o == rs[j].offset;
    a := CoverExists(rs, o, i);
    b := LastThere(rs, o, a, j);
  }

  lemma SameThere(rs: seq<RangeLine>, o: nat, a: nat, b: nat, c: nat, d: nat)
    requires Ascending(rs) && EndThere(rs, o, a, b) && EndThere(rs, o, c, d)
    ensures a == c && b == d
  {
  }

  lemma CoverFits(rs: seq<RangeLine>, k: nat, o: nat)
    requires Covers(rs, k, o)
    ensures k < |rs| && o <= rs[k].offset
  {
  }

  lemma LastFits(rs: seq<RangeLine>, lines: seq<nat>, stale: set<nat>, o: nat)
    requires Runs(rs, lines, stale) && o < |lines|
    ensures Ascending(rs) && rs != [] && o <= rs[|rs| - 1].offset
  {
  }

  lemma CoverTells(rs: seq<RangeLine>, lines: seq<nat>, stale: set<nat>, o: nat, k: nat)
    requires Runs(rs, lines, stale) && o < |lines| && Covers(rs, k, o)
    ensures k < |rs| && (o in stale <==> rs[k].line != lines[o])
  {
  }

  lemma NotSingle(rs: seq<RangeLine>, o: nat, a: nat, b: nat)
    requires a < b && EndThere(rs, o, a, b)
    ensures !Single(rs, o)
  {
    assert rs[a].offset == o == rs[b].offset;
  }

  lemma EndBounds(rs: seq<RangeLine>, o: nat, a: nat, b: nat)
    requires EndThere(rs, o, a, b)
    ensures a <= b < |rs|
  {
  }

  /** The line of a byte is found exactly when it is findable. */
  lemma LineFound(rs: seq<RangeLine>, lines: seq<nat>, stale: set<nat>, o: nat)
    requires Runs(rs, lines, stale) && o < |lines|
    ensures Search(rs, o) == lines[o] <==> Findable(rs, lines, stale, o)
  {
    hide StopAt, Landing, Runs, Ascending, Covers, Single, EndThere;
    LastFits(rs, lines, stale, o);
    forall a: nat, b: nat | a < b && EndThere(rs, o, a, b) ensures !Single(rs, o) { NotSingle(rs, o, a, b); }
    StopFits(rs, 0, |rs| - 1, o);
    if Single(rs, o) {
      var k := CoverExists(rs, o, |rs| - 1);
      CoverFits(rs, k, o);
      StopsAtCover(rs, 0, |rs| - 1, o, k);
      CoverTells(rs, lines, stale, o, k);
    } else {
      var a, b := Several(rs, o);
      EndBounds(rs, o, a, b);
      StopLands(rs, 0, |rs| - 1, o, a, b);
      forall c: nat, d: nat | c < d && EndThere(rs, o, c, d) ensures c == a && d == b { SameThere(rs, o, a, b, c, d); }
    }
  }

  /** What rollbacks leave: only at their targets can several ranges end, or a range give another line; and while the next
      byte is claimed by a range already, its offset is a target. */
  ghost predicate Marked(rs: seq<RangeLine>, n: nat, stale: set<nat>, targets: set<nat>) {
    && stale <= targets
    && (rs != [] && rs[|rs| - 1].offset == n ==> n in targets)
    && (forall o :: o !in targets ==> Single(rs, o))
    && (forall o :: o in targets ==> o <= n)
  }

  /** What a line array keeps through all writes and rollbacks. */
  ghost predicate Kept(rs: seq<RangeLine>, lines: seq<nat>, stale: set<nat>, targets: set<nat>) {
    && (if rs == [] then lines == [] && stale == {} else Runs(rs, lines, stale))
    && Marked(rs, |lines|, stale, targets)
  }

  /** The offsets to which something was taken back, of those that the rollback to t leaves. */
  function Targets(targets: set<nat>, t: nat, n: nat): set<nat> {
    if t < n then (set o | o in targets && o < t) + {t} else targets
  }

  /** After any writes and rollbacks: the line last written for a byte is found, unless its offset is the target of a
      rollback. */
  lemma UntouchedFound(rs: seq<RangeLine>, lines: seq<nat>, stale: set<nat>, targets: set<nat>, o: nat)
    requires Kept(rs, lines, stale, targets) && o < |lines| && o !in targets
    ensures rs != [] && Search(rs, o) == lines[o]
  {
    hide StopAt, Landing;
    LineFound(rs, lines, stale, o);
    assert Single(rs, o);
  }

  lemma WrittenMarked(rs: seq<RangeLine>, lines: seq<nat>, stale: set<nat>, targets: set<nat>, line: nat)
    requires if rs == [] then lines == [] && stale == {} else Runs(rs, lines, stale)
    requires Marked(rs, |lines|, stale, targets)
    ensures Marked(Written(rs, line, |lines|), |lines| + 1, StaleBehind(rs, stale, line, |lines|), targets)
  {
    var n := |lines|;
    var rs' := Written(rs, line, n);
    forall o | o !in targets ensures Single(rs', o) {
      assert Single(rs, o);
      forall i, j | 0 <= i < j < |rs'| ensures !(rs'[i].offset == o == rs'[j].offset) {
        assert rs'[i] == rs[i];
        assert rs[i].offset <= rs[|rs| - 1].offset;
        if j < |rs| && rs'[j] == rs[j] {
        } else if o == n {
          assert rs[i].offset < n;
        }
      }
    }
  }

  lemma TakenBackMarked(rs: seq<RangeLine>, lines: seq<nat>, stale: set<nat>, targets: set<nat>, t: nat)
    requires if rs == [] then lines == [] && stale == {} else Runs(rs, lines, stale)
    requires Marked(rs, |lines|, stale, targets) && t <= |lines|
    ensures Marked(TakenBack(rs, t), t, StaleBefore(stale, t), Targets(targets, t, |lines|))
  {
    var targets' := Targets(targets, t, |lines|);
    var rs' := TakenBack(rs, t);
    if t < |lines| {
      forall o | o !in targets' ensures Single(rs', o) {
        TakenBackSingle(rs, t, o);
      }
    }
  }

  lemma TakenBackSingle(rs: seq<RangeLine>, t: nat, o: nat)
    requires Ascending(rs) && o != t && (o < t ==> Single(rs, o)) && (rs != [] ==> t <= rs[|rs| - 1].offset)
    ensures Single(TakenBack(rs, t), o)
  {
    if rs != [] && t < rs[|rs| - 1].offset { FirstAfterFits(rs, t, |rs| - 1); }
  }

  lemma WrittenKept(rs: seq<RangeLine>, lines: seq<nat>, stale: set<nat>, targets: set<nat>, line: nat)
    requires Kept(rs, lines, stale, targets)
    ensures Kept(Written(rs, line, |lines|), lines + [line], StaleBehind(rs, stale, line, |lines|), targets)
  {
    hide Runs, Marked, StaleBehind;
    WrittenRuns(rs, lines, stale, line);
    WrittenMarked(rs, lines, stale, targets, line);
  }

  lemma KeptRuns(rs: seq<RangeLine>, lines: seq<nat>, stale: set<nat>, targets: set<nat>)
    requires Kept(rs, lines, stale, targets)
    ensures if rs == [] then lines == [] && stale == {} else Runs(rs, lines, stale)
  {
  }

  lemma TakenBackKept(rs: seq<RangeLine>, lines: seq<nat>, stale: set<nat>, targets: set<nat>, t: nat)
    requires Kept(rs, lines, stale, targets) && t <= |lines|
    ensures Kept(TakenBack(rs, t), lines[..t], StaleBefore(stale, t), Targets(targets, t, |lines|))
  {
    hide Runs, Marked, StaleBefore, Targets;
    TakenBackRuns(rs, lines, stale, t);
    TakenBackMarked(rs, lines, stale, targets, t);
  }

  /** The lines found below the target of a rollback stay the same, where not several ranges end. */
  lemma FoundBelow(rs: seq<RangeLine>, t: nat, o: nat)
    requires Ascending(rs) && rs != [] && o < t && o <= rs[|rs| - 1].offset && Single(rs, o)
    ensures TakenBack(rs, t) != [] && Search(TakenBack(rs, t), o) == Search(rs, o)
  {
    hide StopAt, TakenBack, Covers, Single;
    var rs' := TakenBack(rs, t);
    var k := CoverExists(rs, o, |rs| - 1);
    StopsAtCover(rs, 0, |rs| - 1, o, k);
    TakenBackCovers(rs, t, o, k);
    CoverFits(rs, k, o);
    CoverFits(rs', k, o);
    StopsAtCover(rs', 0, |rs'| - 1, o, k);
  }

  lemma TakenBackCovers(rs: seq<RangeLine>, t: nat, o: nat, k: nat)
    requires Ascending(rs) && Covers(rs, k, o) && o < t && Single(rs, o)
    ensures var rs' := TakenBack(rs, t);
            Ascending(rs') && Covers(rs', k, o) && Single(rs', o) && rs'[k].line == rs[k].line
  {
    hide FirstAfter;
    if t < rs[|rs| - 1].offset {
      FirstAfterFits(rs, t, |rs| - 1);
      TakenBackAscends(rs, t);
      TakenBackSingle(rs, t, o);
    }
  }

  lemma TakenBackAscends(rs: seq<RangeLine>, t: nat)
    requires Ascending(rs)
    ensures Ascending(TakenBack(rs, t))
  {
    if rs != [] && t < rs[|rs| - 1].offset { FirstAfterFits(rs, t, |rs| - 1); }
  }

  /** An offset beyond the last range has no line. */
  lemma LineMissing(rs: seq<RangeLine>, o: nat)
    requires Ascending(rs) && rs != [] && o > rs[|rs| - 1].offset
    ensures Search(rs, o) == UINT32_MAX
  {
    StopFits(rs, 0, |rs| - 1, o);
  }

  /** How many of the last ranges, counted down from range i, end at o. */
  function Ending(rs: seq<RangeLine>, o: nat, i: int): (c: nat)
    requires -1 <= i < |rs|
    ensures c <= i + 1
    decreases i + 1
  {
    if i >= 0 && rs[i].offset == o then 1 + Ending(rs, o, i - 1) else 0
  }

  /** The first of n / 2, n / 4, n / 8, ... that is less than c. */
  function Halved(n: nat, c: nat): (r: nat)
    requires c > 0
    ensures r < c
    decreases n
  {
    if n / 2 < c then n / 2 else Halved(n / 2, c)
  }

  lemma {:induction false} EndingThere(rs: seq<RangeLine>, o: nat, i: nat)
    requires Ascending(rs) && i < |rs| && rs[i].offset == o
    requires i == |rs| - 1 || rs[i + 1].offset >= o
    ensures var c := Ending(rs, o, i);
            && c > 0 && (forall j :: i - c < j <= i ==> rs[j].offset == o) && (i - c >= 0 ==> rs[i - c].offset < o)
  {
    if i > 0 && rs[i - 1].offset == o {
      EndingThere(rs, o, i - 1);
    } else {
      assert Ending(rs, o, i - 1) == 0;
    }
  }

  /** Among the last c ranges the search lands as many before the last as the number of ranges, halved until it is less
      than c. */
  lemma {:induction false} LandsAtEnd(low: nat, high: nat, c: nat)
    requires low <= high && 0 < c <= high + 1 - low
    ensures Landing(low, high, high + 1 - c, high) == high - Halved(high + 1 - low, c)
    decreases high - low
  {
    var mid := low + (high - low) / 2;
    if low < high {
      assert high - mid == (high + 1 - low) / 2;
      if mid < high + 1 - c { LandsAtEnd(mid + 1, high, c); }
    }
  }

  /** Whether a byte, when just written behind the ranges, is found with its line: with c ranges that end at its offset
      before, it is when the write starts a range and c is 0; else it depends on the range on which the search lands. */
  predicate FoundAtOnce(rs: seq<RangeLine>, line: nat, offset: nat)
    requires rs != []
  {
    var c := Ending(rs, offset, |rs| - 1);
    if c == 0 then true
    else if rs[|rs| - 1].line == line then rs[|rs| - 1 - Halved(|rs|, c)].line == line
    else Halved(|rs| + 1, c + 1) == 0 || rs[|rs| - Halved(|rs| + 1, c + 1)].line == line
  }

  lemma NoneEnds(rs: seq<RangeLine>, o: nat)
    requires rs != [] && rs[|rs| - 1].offset <= o && Ending(rs, o, |rs| - 1) == 0
    ensures rs[|rs| - 1].offset < o
  {
  }

  lemma WrittenEnds(rs: seq<RangeLine>, line: nat, o: nat)
    requires Ascending(rs) && rs != [] && Ending(rs, o, |rs| - 1) > 0
    ensures var rs' := Written(rs, line, o);
            var d := if rs[|rs| - 1].line == line then Ending(rs, o, |rs| - 1) else Ending(rs, o, |rs| - 1) + 1;
            && Ascending(rs') && d <= |rs'| && EndThere(rs', o, |rs'| - d, |rs'| - 1)
            && rs'[|rs'| - 1] == RangeLine(line, o) && rs'[..|rs| - 1] == rs[..|rs| - 1]
            && (rs[|rs| - 1].line != line ==> rs'[|rs| - 1] == rs[|rs| - 1])
  {
    EndingThere(rs, o, |rs| - 1);
  }

  /** A byte just written is found with its line exactly when the state before the write says so. */
  lemma WrittenFound(rs: seq<RangeLine>, lines: seq<nat>, stale: set<nat>, line: nat)
    requires Runs(rs, lines, stale)
    ensures Search(Written(rs, line, |lines|), |lines|) == line <==> FoundAtOnce(rs, line, |lines|)
  {
    hide StopAt, Runs, Landing, Halved, EndThere, Ascending, Single, Covers, Ending;
    LastRun(rs, lines, stale);
    var o, rs', n := |lines|, Written(rs, line, |lines|), |rs| - 1;
    var c := Ending(rs, o, n);
    if c == 0 {
      NoneEnds(rs, o);
      OnlyLast(rs, line, o);
      StopsAtCover(rs', 0, |rs'| - 1, o, |rs'| - 1);
      CoverFits(rs', |rs'| - 1, o);
    } else {
      var d := if rs[n].line == line then c else c + 1;
      WrittenEnds(rs, line, o);
      StopLands(rs', 0, |rs'| - 1, o, |rs'| - d, |rs'| - 1);
      LandsAtEnd(0, |rs'| - 1, d);
    }
  }

  /** With no more than one range that ends there before: found exactly when the write did not start another one. */
  lemma WrittenFoundBehindOne(rs: seq<RangeLine>, line: nat, offset: nat)
    requires rs != [] && Ending(rs, offset, |rs| - 1) <= 1
    ensures FoundAtOnce(rs, line, offset) <==> !(rs[|rs| - 1].line != line && rs[|rs| - 1].offset == offset)
  {
    if Ending(rs, offset, |rs| - 1) == 1 {
      HalvedBelow(|rs| + 1, 2);
      HalvedBelow(|rs|, 1);
    }
  }

  /** Below 2 a number greater than 1 is halved to 1, below 1 every number to 0. */
  lemma {:induction false} HalvedBelow(n: nat, c: nat)
    requires n >= c && (c == 1 || c == 2)
    ensures Halved(n, c) == c - 1
  {
    if n / 2 >= c { HalvedBelow(n / 2, c); }
  }

  lemma OnlyLast(rs: seq<RangeLine>, line: nat, o: nat)
    requires Ascending(rs) && rs != [] && rs[|rs| - 1].offset < o
    ensures var rs' := Written(rs, line, o); Ascending(rs') && Single(rs', o) && Covers(rs', |rs'| - 1, o)
  {
  }

  lemma LastRun(rs: seq<RangeLine>, lines: seq<nat>, stale: set<nat>)
    requires Runs(rs, lines, stale)
    ensures Ascending(rs) && rs != [] && rs[|rs| - 1].offset <= |lines| && forall o :: o in stale ==> o < |lines|
  {
  }

  /** What is found below the target of a rollback is the same before and after it, and the line of the byte. */
  lemma AllFoundBelow(rs: seq<RangeLine>, lines: seq<nat>, stale: set<nat>, targets: set<nat>, t: nat)
    requires Kept(rs, lines, stale, targets) && t <= |lines|
    ensures forall o: nat :: o < t && o !in targets ==>
              rs != [] && TakenBack(rs, t) != [] && Search(TakenBack(rs, t), o) == Search(rs, o) == lines[o]
  {
    hide Search, Single;
    forall o: nat | o < t && o !in targets
      ensures rs != [] && TakenBack(rs, t) != [] && Search(TakenBack(rs, t), o) == Search(rs, o) == lines[o]
    {
      UntouchedFound(rs, lines, stale, targets, o);
      FoundBelow(rs, t, o);
    }
  }

  class LineArray {
    var index: nat
    var capacity: nat
    var ranges: array<RangeLine>
    ghost var lines: seq<nat>     // of each byte written and not rolled back
    ghost var stale: set<nat>     // the offsets that the range holding them gives another line
    ghost var targets: set<nat>   // the offsets to which a rollback returned, and which none went below since

    ghost predicate Valid()
      reads this, ranges
    {
      && ranges.Length == capacity && (if capacity == 0 then index == 0 else index < capacity)
      && Kept(Ranges(), lines, stale, targets)
    }

    ghost function Ranges(): seq<RangeLine>
      reads this, ranges
    {
      if index < ranges.Length then ranges[..index + 1] else []
    }

    constructor ()
      ensures Valid() && lines == [] && stale == {} == targets && fresh(ranges)
    {
      index, capacity := 0, 0;
      ranges := new RangeLine[0];
      lines, stale, targets := [], {}, {};
    }

    method Grow()
      requires ranges.Length == capacity
      modifies this`capacity, this`ranges
      ensures capacity == GrowCapacity(old(capacity)) == ranges.Length && fresh(ranges)
      ensures ranges[..old(capacity)] == old(ranges[..])
    {
      var before := ranges[..];
      capacity := GrowCapacity(capacity);
      ranges := new RangeLine[capacity](i => if 0 <= i < |before| then before[i] else RangeLine(0, 0));
    }

    /** The line of the next byte. */
    method Write(line: nat, offset: nat)
      requires Valid() && offset == |lines|
      modifies this, ranges
      ensures Valid() && lines == old(lines) + [line] && stale == StaleBehind(old(Ranges()), old(stale), line, offset)
      ensures targets == old(targets) && capacity > 0
      ensures ranges == old(ranges) || fresh(ranges)
      ensures Ranges() == Written(old(Ranges()), line, offset)
    {
      hide Kept, StaleBehind;
      ghost var before := Ranges();
      WrittenKept(before, lines, stale, targets, line);
      ghost var rs := if capacity == 0 then [RangeLine(line, offset)] else before;
      if index + 1 >= capacity {
        var oldCapacity := capacity;
        Grow();
        if oldCapacity == 0 { ranges[index] := RangeLine(line, offset); }
      }
      assert ranges[..index + 1] == rs;
      if ranges[index].line != line {
        index := index + 1;
        ranges[index] := RangeLine(line, offset);
        assert ranges[..index + 1] == rs + [RangeLine(line, offset)];
      } else {
        ranges[index] := RangeLine(line, offset);
        assert ranges[..index + 1] == rs[index := RangeLine(line, offset)] == Written(before, line, offset);
      }
      lines := lines + [line];
      stale := StaleBehind(before, stale, line, offset);
    }

    /** The bytes from the target on are taken back. */
    method Fallback(target: nat)
      requires Valid() && target <= |lines|
      modifies this`index, this`lines, this`stale, this`targets, ranges
      ensures Valid() && lines == old(lines)[..target]
      ensures Ranges() == TakenBack(old(Ranges()), target)
      ensures stale == StaleBefore(old(stale), target) && targets == Targets(old(targets), target, |old(lines)|)
      ensures forall o: nat :: o < target && o !in old(targets) ==>
                old(Ranges()) != [] && Ranges() != [] && Search(Ranges(), o) == old(Search(Ranges(), o)) == lines[o]
    {
      hide Kept, StaleBefore, Targets, Search;
      ghost var rs := Ranges();
      TakenBackKept(rs, lines, stale, targets, target);
      AllFoundBelow(rs, lines, stale, targets, target);
      targets := Targets(targets, target, |lines|);
      stale := StaleBefore(stale, target);
      lines := lines[..target];
      if capacity == 0 { return; }
      if target < ranges[index].offset {
        var i: nat := index;
        while i > 0 && ranges[i - 1].offset > target
          invariant i <= index && target < ranges[i].offset
          invariant FirstAfter(rs, target, index) == FirstAfter(rs, target, i)
        {
          i := i - 1;
        }
        index := i;
        ranges[i] := ranges[i].(offset := target);
        assert ranges[..i + 1] == rs[..i] + [rs[i].(offset := target)];
      }
    }

    /** The line of a byte, by binary search; -1 for an offset beyond the last range. */
    method GetLine(offset: nat) returns (line: nat)
      requires Valid() && capacity > 0
      ensures offset < |lines| && offset !in targets ==> line == lines[offset]
      ensures offset < |lines| ==> (line == lines[offset] <==> Findable(Ranges(), lines, stale, offset))
      ensures offset > ranges[index].offset ==> line == UINT32_MAX
      ensures line == Search(Ranges(), offset)
    {
      hide Kept, Runs, Findable, Ascending, StopAt;
      ghost var rs := ranges[..index + 1];
      KeptRuns(rs, lines, stale, targets);
      LastRun(rs, lines, stale);
      if offset < |lines| && offset !in targets { UntouchedFound(rs, lines, stale, targets, offset); }
      if offset < |lines| { LineFound(rs, lines, stale, offset); }
      if offset > ranges[index].offset { LineMissing(rs, offset); }
      assert Ranges() == rs;
      var low: nat, high: nat := 0, index;
      while low < high
        invariant low <= high <= index && StopAt(rs, 0, index, offset) == StopAt(rs, low, high, offset)
      {
        var mid := low + (high - low) / 2;
        assert low <= mid < high && rs[mid] == ranges[mid];
        StopStep(rs, low, high, offset);
        if offset > ranges[mid].offset {
          low := mid + 1;
        } else if offset < ranges[mid].offset {
          high := mid;
        } else {
          return ranges[mid].line;
        }
      }
      assert rs[low] == ranges[low];
      StopStep(rs, low, high, offset);
      line := if offset <= ranges[low].offset then ranges[low].line else UINT32_MAX;
    }
  }

  /** Code bytes, each with its line. */
  class Chunk {
    var count: nat
    var capacity: nat
    var code: array<byte>
    const lines: LineArray

    ghost predicate Valid()
      reads this, code, lines, lines.ranges
    {
      && code.Length == capacity && count <= capacity
      && lines.Valid() && |lines.lines| == count && (count > 0 ==> lines.capacity > 0)
    }

    ghost function Bytes(): seq<byte>
      requires Valid()
      reads this, code, lines, lines.ranges
    {
      code[..count]
    }

    constructor ()
      ensures Valid() && Bytes() == [] && fresh(code) && fresh(lines) && fresh(lines.ranges)
      ensures lines.stale == {} == lines.targets
    {
      count, capacity := 0, 0;
      code := new byte[0];
      lines := new LineArray();
    }

    method Write(b: byte, line: nat)
      requires Valid()
      modifies this, code, lines, lines.ranges
      ensures Valid() && Bytes() == old(Bytes()) + [b]
      ensures lines.lines == old(lines.lines) + [line]
      ensures lines.stale == StaleBehind(old(lines.Ranges()), old(lines.stale), line, old(count))
      ensures lines.targets == old(lines.targets)
      ensures (code == old(code) || fresh(code)) && (lines.ranges == old(lines.ranges) || fresh(lines.ranges))
    {
      hide Kept, StaleBehind, Written;
      ghost var before := code[..count];
      if capacity < count + 1 {
        var bytes := code[..];
        capacity := GrowCapacity(capacity);
        code := new byte[capacity](i => if 0 <= i < |bytes| then bytes[i] else 0);
      }
      lines.Write(line, count);
      assert code[..count] == before;
      code[count] := b;
      count := count + 1;
      assert code[..count] == before + [b];
    }

    /** Takes back the last bytes; what they said is forgotten. */
    method Fallback(byteCount: nat)
      requires Valid()
      modifies this`count, lines`index, lines`lines, lines`stale, lines`targets, lines.ranges
      ensures count == (if byteCount <= old(count) then old(count) - byteCount else old(count)) && count <= old(count)
      ensures Valid() && Bytes() == old(Bytes())[..count]
      ensures lines.lines == old(lines.lines)[..count]
      ensures lines.stale == StaleBefore(old(lines.stale), count)
      ensures lines.targets == Targets(old(lines.targets), count, old(count))
    {
      hide Kept, StaleBefore;
      KeptStale();
      assert lines.lines[..count] == lines.lines;
      if count >= byteCount {
        count := count - byteCount;
        lines.Fallback(count);
      }
    }

    lemma KeptStale()
      requires Valid()
      ensures StaleBefore(lines.stale, count) == lines.stale
    {
      AllBefore(lines.lines, lines.stale);
    }

    /** The line of a byte, as a runtime error reports it. */
    method LineOf(offset: nat) returns (line: nat)
      requires Valid() && offset < count
      ensures offset !in lines.targets ==> line == lines.lines[offset]
      ensures line == lines.lines[offset] <==> Findable(lines.Ranges(), lines.lines, lines.stale, offset)
    {
      hide Kept, Findable;
      line := lines.GetLine(offset);
    }
  }
}
