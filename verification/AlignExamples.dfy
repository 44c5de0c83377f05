/** What phase 5c makes of a floor on which a single group is not aligned, and two such floors. */
module AlignExamples {
  import opened Sums
  import opened Zones
  import opened Boards
  import opened Scores
  import opened AxisGroups
  import opened Dominoes
  import opened Align
  import Guards

  // ---- What is tried is determined ----

  lemma {:induction false} FirstModeUnique(r: Layout, axis: Axis, group: seq<RoomId>, a: int, b: int)
    requires FirstMode(r, axis, group, a) && FirstMode(r, axis, group, b)
    ensures a == b
  {
    hide CountOf;
    var i :| 0 <= i < |group| && Coord(r, axis, group[i]) == a && forall j :: 0 <= j < i ==> CountOf(r, axis, group, Coord(r, axis, group[j])) < CountOf(r, axis, group, a);
    var k :| 0 <= k < |group| && Coord(r, axis, group[k]) == b && forall j :: 0 <= j < k ==> CountOf(r, axis, group, Coord(r, axis, group[j])) < CountOf(r, axis, group, b);
    assert group[i] in group && group[k] in group;
  }

  lemma {:induction false} BatchedUnique(zone: Zone, r: Layout, axis: Axis, root: map<RoomId, RoomId>, k: RoomId, group: seq<RoomId>, target: int, n: nat, a: Batch, b: Batch)
    requires Batched(zone, r, axis, root, k, group, target, n, a) && Batched(zone, r, axis, root, k, group, target, n, b)
    ensures a.delta == b.delta
  {
    BatchedWithin(zone, r, axis, root, k, group, target, n, a, b);
    BatchedWithin(zone, r, axis, root, k, group, target, n, b, a);
  }

  lemma {:induction false} BatchedWithin(zone: Zone, r: Layout, axis: Axis, root: map<RoomId, RoomId>, k: RoomId, group: seq<RoomId>, target: int, n: nat, a: Batch, b: Batch)
    requires Batched(zone, r, axis, root, k, group, target, n, a) && Batched(zone, r, axis, root, k, group, target, n, b)
    ensures forall id :: id in a.delta ==> id in b.delta && a.delta[id] == b.delta[id]
  {
    hide Reached, DragForces;
    forall id | id in a.delta ensures id in b.delta && a.delta[id] == b.delta[id] {
      var j :| 0 <= j < n && LeadsFirst(zone, r, axis, root, k, group, target, j, id) && a.delta[id] == target - Coord(r, axis, group[j]);
      assert Leads(zone, r, axis, root, k, group, target, j, id);
      var i :| 0 <= i < n && LeadsFirst(zone, r, axis, root, k, group, target, i, id) && b.delta[id] == target - Coord(r, axis, group[i]);
      assert Leads(zone, r, axis, root, k, group, target, i, id);
    }
  }

  lemma {:induction false} LedByUnique(r: Layout, axis: Axis, group: seq<RoomId>, target: int, n: nat, a: Batch, b: Batch)
    requires n <= |group| && LedBy(r, axis, group, target, n, a) && LedBy(r, axis, group, target, n, b) && a.ids != [] && b.ids != []
    ensures a.ids[0] == b.ids[0]
  {
    var i :| 0 <= i < n && FirstOutlier(r, axis, group, target, i) && group[i] == a.ids[0];
    var j :| 0 <= j < n && FirstOutlier(r, axis, group, target, j) && group[j] == b.ids[0];
    hide OnTarget;
  }

  /** No two of the rooms are equally far in the push direction. */
  ghost predicate Apart(r: Layout, axis: Axis, ids: seq<RoomId>) {
    forall x, y :: x in ids && y in ids && x != y && x in r.at && y in r.at ==> Coord(r, axis, x) != Coord(r, axis, y)
  }

  /** Then there is only one way to order them. */
  lemma {:induction false} OrderedUnique(r: Layout, axis: Axis, sign: int, s: seq<RoomId>, t: seq<RoomId>)
    requires Ordered(r, axis, sign, s) && Ordered(r, axis, sign, t) && NoDup(s) && NoDup(t) && Apart(r, axis, s)
    requires forall x :: x in s <==> x in t
    ensures s == t
    decreases |s|
  {
    if s == [] {
      DistinctWithin(t, s);
    } else {
      assert s[0] in s;
      assert t != [] && t[0] in t;
      SameFirst(r, axis, sign, s, t);
      NoDupTail(s);
      NoDupTail(t);
      hide FurtherThan;
      assert s == [s[0]] + s[1..] && t == [t[0]] + t[1..];
      assert forall x :: x in s[1..] ==> x in s;
      forall x ensures x in s[1..] <==> x in t[1..] { assert x in s <==> x == s[0] || x in s[1..]; assert x in t <==> x == t[0] || x in t[1..]; }
      OrderedUnique(r, axis, sign, s[1..], t[1..]);
    }
  }

  lemma {:induction false} SameFirst(r: Layout, axis: Axis, sign: int, s: seq<RoomId>, t: seq<RoomId>)
    requires s != [] && t != [] && Ordered(r, axis, sign, s) && Ordered(r, axis, sign, t) && Apart(r, axis, s)
    requires forall x :: x in s <==> x in t
    ensures s[0] == t[0]
  {
    assert s[0] in t && t[0] in s;
    assert forall x :: x in s ==> x == s[0] || x in s[1..];
    assert forall x :: x in t ==> x == t[0] || x in t[1..];
  }

  /** With the rooms of the batch apart, all trials of a group come to the same. */
  lemma {:induction false} TrialUnique(zone: Zone, r: Layout, cells: set<Cell>, z: int, axis: Axis, root: map<RoomId, RoomId>, k: RoomId, group: seq<RoomId>, a: Trial, b: Trial)
    requires Tries(zone, r, z, axis, root, k, group, a) && Tries(zone, r, z, axis, root, k, group, b) && Apart(r, axis, a.batch.ids)
    ensures a.target == b.target && a.batch.delta == b.batch.delta && Outcome(r, cells, z, axis, a.batch) == Outcome(r, cells, z, axis, b.batch)
  {
    hide FirstMode, Batched, LedBy, CountOf;
    FirstModeUnique(r, axis, group, a.target, b.target);
    BatchedUnique(zone, r, axis, root, k, group, a.target, |group|, a.batch, b.batch);
    LedByUnique(r, axis, group, a.target, |group|, a.batch, b.batch);
    SameOutcome(r, cells, z, axis, a.batch, b.batch);
  }

  lemma {:induction false} SameOutcome(r: Layout, cells: set<Cell>, z: int, axis: Axis, a: Batch, b: Batch)
    requires Shiftable(r, z, a) && Shiftable(r, z, b) && a.delta == b.delta && a.ids[0] == b.ids[0] && Apart(r, axis, a.ids)
    ensures Outcome(r, cells, z, axis, a) == Outcome(r, cells, z, axis, b)
  {
    var sign := PushSign(a);
    BatchParts(r, z, a);
    BatchParts(r, z, b);
    SortOrdered(r, axis, sign, a.ids);
    SortOrdered(r, axis, sign, b.ids);
    hide Ordered, BatchOk, PushAll, Apart;
    ApartSorted(r, axis, sign, a.ids);
    OrderedUnique(r, axis, sign, SortByCoord(r, axis, sign, a.ids), SortByCoord(r, axis, sign, b.ids));
  }

  lemma {:induction false} ApartSorted(r: Layout, axis: Axis, sign: int, ids: seq<RoomId>)
    requires (forall x :: x in ids ==> x in r.at) && Apart(r, axis, ids)
    ensures Apart(r, axis, SortByCoord(r, axis, sign, ids))
  {
    hide SortByCoord;
  }

  // ---- One group to align ----

  /** Only the group of k is not aligned, and whatever is tried for it aligns everything. */
  ghost predicate LoneGroup(zone: Zone, z: int, axis: Axis, root: map<RoomId, RoomId>, g: Groups, k: RoomId, s: State, r1: Layout) {
    && z in s.occ && k in g.members && k in g.roots && !Aligned(s.r, axis, g.members[k])
    && (forall j :: j in g.members && j != k ==> Aligned(s.r, axis, g.members[j]))
    && (forall j :: j in g.members ==> Aligned(r1, axis, g.members[j]))
    && (forall t :: Tries(zone, s.r, z, axis, root, k, g.members[k], t) ==> Outcome(s.r, s.occ[z], z, axis, t.batch).r == r1)
  }

  /** A turn leaves the first state alone or goes on to the second one, and that one is left alone. */
  lemma {:induction false} LoneStep(zone: Zone, z: int, axis: Axis, root: map<RoomId, RoomId>, g: Groups, k: RoomId, s: State, r1: Layout, m: Move, s1: State, s2: State)
    requires LoneGroup(zone, z, axis, root, g, k, s, r1) && Moves(zone, z, axis, root, g, m, s1, s2) && (s1 == s || s1.r == r1)
    requires GroupsPlaced(s.r, g) && (GroupsPlaced(r1, g) ==> Misaligned(r1, axis, g) < Misaligned(s.r, axis, g))
    ensures s2 == s || s2.r == r1
  {
    hide Aligned, Tries, Outcome, GroupsPlaced, Misaligned, Agrees, Harmless;
  }

  lemma {:induction false} LoneRun(zone: Zone, z: int, axis: Axis, root: map<RoomId, RoomId>, g: Groups, k: RoomId, s: State, r1: Layout,
                                   s': State, run: seq<State>, moves: seq<Move>, n: nat)
    requires LoneGroup(zone, z, axis, root, g, k, s, r1) && TurnsRun(zone, z, axis, root, g, s, s', run, moves) && n <= |moves|
    requires GroupsPlaced(s.r, g) && (GroupsPlaced(r1, g) ==> Misaligned(r1, axis, g) < Misaligned(s.r, axis, g))
    ensures run[n] == s || run[n].r == r1
    ensures run[n] == s ==> forall i :: 0 <= i <= n ==> run[i] == s
  {
    hide LoneGroup, Moves, GroupsPlaced, Misaligned;
    if n > 0 {
      LoneRun(zone, z, axis, root, g, k, s, r1, s', run, moves, n - 1);
      LoneStep(zone, z, axis, root, g, k, s, r1, moves[n - 1], run[n - 1], run[n]);
      if run[n] == s { LoneBack(zone, z, axis, root, g, k, s, r1, moves[n - 1], run[n - 1]); }
    }
  }

  /** There is no way back. */
  lemma {:induction false} LoneBack(zone: Zone, z: int, axis: Axis, root: map<RoomId, RoomId>, g: Groups, k: RoomId, s: State, r1: Layout, m: Move, s1: State)
    requires LoneGroup(zone, z, axis, root, g, k, s, r1) && Moves(zone, z, axis, root, g, m, s1, s) && (s1 == s || s1.r == r1)
    ensures s1 == s
  {
    hide Tries, Outcome, GroupsPlaced, Misaligned, Agrees, Harmless;
  }

  /** The phase then ends in the state that the shift leads to. */
  lemma {:induction false} LoneAligned(zone: Zone, z: int, axis: Axis, s: State, s': State, how: Alignment, k: RoomId, r1: Layout)
    requires AxisAligned(zone, z, axis, s.r, s.occ, how, s'.r, s'.occ) && LoneGroup(zone, z, axis, how.root, how.g, k, s, r1) && Agrees(s.r, s.occ)
    ensures s'.r == r1
  {
    hide Aligned, Tries, Outcome, Agrees, Turn, Contained, Classes, GroupsOk, InClasses, MisalignedAmong;
    var g := how.g;
    MisalignedZero(s.r, axis, g, g.roots);
    if GroupsPlaced(r1, g) { MisalignedZero(r1, axis, g, g.roots); }
    LoneRun(zone, z, axis, how.root, g, k, s, r1, s', how.run, how.moves, |how.moves|);
    if s' == s {
      LoneSettled(zone, z, axis, s, how, k, r1);
    }
  }

  /** The first state does not count as settled. */
  lemma {:induction false} LoneSettled(zone: Zone, z: int, axis: Axis, s: State, how: Alignment, k: RoomId, r1: Layout)
    requires LoneGroup(zone, z, axis, how.root, how.g, k, s, r1) && GroupsPlaced(s.r, how.g)
    ensures !AllSettled(zone, s.r, s.occ[z], z, axis, how.root, how.g)
  {
    hide Batched, FirstMode, LedBy, BatchOk, Outcome, Aligned, MisalignedAmong;
    var g := how.g;
    MisalignedZero(s.r, axis, g, g.roots);
    if GroupsPlaced(r1, g) { MisalignedZero(r1, axis, g, g.roots); }
    assert forall t :: !Settled(zone, s.r, s.occ[z], z, axis, how.root, g, k, g.members[k], t);
  }

  /** With all rooms on the floor the list is the whole order. */
  lemma {:induction false} AllOnFloor(r: Layout, z: int, ids: seq<RoomId>)
    requires forall id :: id in ids ==> r.On(id, z)
    ensures FloorRoomsOf(r, z, ids) == ids
  {
    if ids != [] {
      assert ids[0] in ids;
      AllOnFloor(r, z, ids[1..]);
      assert [ids[0]] + ids[1..] == ids;
    }
  }

  /** A group is a class of the rooms of the floor, and each of these is in one. */
  lemma {:induction false} GroupOf(r: Layout, z: int, root: map<RoomId, RoomId>, g: Groups, ids: seq<RoomId>, id: RoomId)
    requires GroupsOk(r, z, root, g) && InClasses(root, g, FloorRooms(r, z)) && ids == FloorRooms(r, z) && id in ids
    ensures id in root && root[id] in g.roots && root[id] in g.members && g.members[root[id]] == ClassIn(root, root[id], ids)
    ensures forall j, x :: j in g.members && x in g.members[j] ==> x in ids && x in root && root[x] == j
  {
    hide ClassIn, FloorRooms;
  }

  /** With one room in a class of its own and all others in another. */
  lemma {:induction false} TwoGroups(r: Layout, root: map<RoomId, RoomId>, g: Groups, ids: seq<RoomId>, group: seq<RoomId>, first: RoomId, alone: RoomId)
    requires GroupsOk(r, 0, root, g) && InClasses(root, g, FloorRooms(r, 0)) && FloorRooms(r, 0) == ids && first in ids && first in root
    requires ClassIn(root, root[first], ids) == group && forall x :: x in ids && x in root ==> root[x] == root[first] || x == alone
    ensures root[first] in g.roots && root[first] in g.members && g.members[root[first]] == group
    ensures forall j, x :: j in g.members && j != root[first] && x in g.members[j] ==> x == alone
  {
    hide GroupsOk, InClasses, FloorRooms, ClassIn;
    GroupOf(r, 0, root, g, ids, first);
    forall j, x | j in g.members && j != root[first] && x in g.members[j] ensures x == alone {
      assert x in ids && x in root && root[x] == j;
    }
  }

  /** Exits of the axis hold a row of five rooms together, and none leads to or from a sixth. */
  lemma {:induction false} FiveTogether(zone: Zone, r: Layout, root: map<RoomId, RoomId>, a: RoomId, b: RoomId, c: RoomId, d: RoomId, e: RoomId, alone: RoomId)
    requires Classes(zone, r, 0, EastWest, root) && a != alone && r.On(a, 0) && r.On(b, 0) && r.On(c, 0) && r.On(d, 0) && r.On(e, 0) && r.On(alone, 0)
    requires Adjacent(zone, r, 0, EastWest, a, b) && Adjacent(zone, r, 0, EastWest, b, c) && Adjacent(zone, r, 0, EastWest, c, d) && Adjacent(zone, r, 0, EastWest, d, e)
    requires forall x, y :: Adjacent(zone, r, 0, EastWest, x, y) ==> x != alone && y != alone
    ensures a in root && b in root && c in root && d in root && e in root && alone in root
    ensures root[b] == root[a] && root[c] == root[a] && root[d] == root[a] && root[e] == root[a] && root[alone] != root[a]
  {
    SameClass(zone, r, 0, EastWest, root, a, b);
    SameClass(zone, r, 0, EastWest, root, b, c);
    SameClass(zone, r, 0, EastWest, root, c, d);
    SameClass(zone, r, 0, EastWest, root, d, e);
    hide Adjacent, Connected;
    if Connected(zone, r, 0, EastWest, a, alone) {
      ConnectedInvariant(zone, r, 0, EastWest, a, alone, y => y == alone);
    }
  }

  /** Exits of the axis join two rooms only. */
  lemma {:induction false} TwoTogether(zone: Zone, r: Layout, root: map<RoomId, RoomId>, a: RoomId, b: RoomId)
    requires Classes(zone, r, 0, EastWest, root) && r.On(a, 0) && r.On(b, 0)
    requires forall x, y :: Adjacent(zone, r, 0, EastWest, x, y) <==> (x == a && y == b) || (x == b && y == a)
    ensures a in root && b in root && root[b] == root[a]
    ensures forall x, y :: x in root && y in root && root[x] == root[y] && x != y ==> (x == a || x == b) && (y == a || y == b)
  {
    SameClass(zone, r, 0, EastWest, root, a, b);
    hide Adjacent, Connected;
    forall x, y | Connected(zone, r, 0, EastWest, x, y) && x != y ensures (x == a || x == b) && (y == a || y == b) {
      ConnectedInvariant(zone, r, 0, EastWest, x, y, id => if id == b then a else id);
    }
  }

  lemma {:induction false} SameClass(zone: Zone, r: Layout, z: int, axis: Axis, root: map<RoomId, RoomId>, a: RoomId, b: RoomId)
    requires Classes(zone, r, z, axis, root) && Adjacent(zone, r, z, axis, a, b) && r.On(a, z) && r.On(b, z)
    ensures a in root && b in root && root[a] == root[b]
  {
    hide Adjacent, Connected;
    ConnectedStep(zone, r, z, axis, a, b);
  }

  /** With nobody in the way the room lands, and that is all. */
  lemma FreeTurn(s: Half, sign: int, rid: RoomId, c: Cell)
    requires c !in s.cells || FirstAt(s.r, 0, c, rid) == None
    ensures var h := Push(s, 0, EastWest, sign, rid, c); h.r == s.r.Put(rid, At(c, 0)) && h.cells == s.cells + {c}
  {
  }

  /** With one room in the way, that one lands a step further, and the room in its place. */
  lemma PushesOn(s: Half, sign: int, rid: RoomId, c: Cell, found: RoomId, next: Cell)
    requires c in s.cells && FirstAt(s.r, 0, c, rid) == Some(found) && next == Step(c, EastWest, sign) && next !in s.cells && next != c
    ensures var h := Push(s, 0, EastWest, sign, rid, c);
            h.r == s.r.Put(found, At(next, 0)).Put(rid, At(c, 0)) && h.cells == s.cells - {c} + {next} + {c}
  {
    hide Push, FirstAt;
    PushTurn(s, 0, EastWest, sign, {}, rid, c);
    FreeTurn(Lifted(s, c, found), sign, found, next);
  }

  /** The phase on a board with one floor. */
  method AlignOneFloor(zone: Zone, R: nat, r: Layout, cells: set<Cell>) returns (b: Board, ghost how: Alignment)
    requires ReadyState(zone, r, [0], map[0 := cells])
    ensures fresh(b) && b.zone == zone && AxisAligned(zone, 0, EastWest, r, map[0 := cells], how, b.result, b.occupied)
  {
    hide ReadyState, AxisAligned;
    b := new Board(zone, R);
    b.result, b.floors, b.occupied := r, [0], map[0 := cells];
    how := AlignAxis(b, 0, EastWest);
  }

  lemma {:induction false} AlignedGroups(zone: Zone, z: int, axis: Axis, r: Layout, occ: Occupancy, how: Alignment, s': State)
    requires AxisAligned(zone, z, axis, r, occ, how, s'.r, s'.occ)
    ensures Classes(zone, r, z, axis, how.root) && GroupsOk(r, z, how.root, how.g) && InClasses(how.root, how.g, FloorRooms(r, z))
  {
  }

  // ---- A shift that breaks agreement ----

  /** Five rooms in a row from west to east and one south of the first of them, which comes second:
      the group of the row has outliers above and below the row most of it is on. */
  datatype Row = Row(first: RoomId, below: RoomId, second: RoomId, third: RoomId, fourth: RoomId, fifth: RoomId) {
    predicate Distinct() {
      && first != below && first != second && first != third && first != fourth && first != fifth
      && below != second && below != third && below != fourth && below != fifth
      && second != third && second != fourth && second != fifth && third != fourth && third != fifth && fourth != fifth
    }

    function Ids(): seq<RoomId> { [first, below, second, third, fourth, fifth] }

    function Map(): Zone {
      Zone(Ids(), map[
        first := [Exit(East, second), Exit(South, below)], below := [], second := [Exit(East, third)], third := [Exit(East, fourth)],
        fourth := [Exit(East, fifth)], fifth := []])
    }

    function Places(a: Pos, b: Pos, d: Pos, e: Pos): map<RoomId, Pos> {
      map[first := a, below := b, second := Pos(0, 0, 0), third := Pos(1, 0, 0), fourth := d, fifth := e]
    }

    /** The rooms of the batch on the given places. */
    function Moved(a: Pos, b: Pos, d: Pos, e: Pos): Layout { Layout(Ids(), Places(a, b, d, e)) }

    function Start(): Layout { Moved(Pos(5, -1, 0), Pos(2, 0, 0), Pos(2, 1, 0), Pos(2, 2, 0)) }

    /** The group of the row. */
    function Group(): seq<RoomId> { [first, second, third, fourth, fifth] }

    function Occupied(): set<Cell> {
      {Cell(5, -1), Cell(2, 0), Cell(0, 0), Cell(1, 0), Cell(2, 1), Cell(2, 2)}
    }

    /** The first room goes one row south and takes the room below it along; the last two go north. */
    function Shift(): Batch {
      Batch([first, below, fourth, fifth], map[first := 1, below := 1, fourth := -1, fifth := -2])
    }
  }

  lemma {:induction false} RowPlaces(w: Row, a: Pos, b: Pos, d: Pos, e: Pos)
    requires w.Distinct()
    ensures var at := w.Places(a, b, d, e);
            && (forall id :: id in at <==> id == w.first || id == w.below || id == w.second || id == w.third || id == w.fourth || id == w.fifth)
            && at[w.first] == a && at[w.below] == b && at[w.second] == Pos(0, 0, 0) && at[w.third] == Pos(1, 0, 0) && at[w.fourth] == d && at[w.fifth] == e
            && forall id :: id in w.Ids() <==> id in at
  {
  }

  lemma {:induction false} RowPut(w: Row, a: Pos, b: Pos, d: Pos, e: Pos, p: Pos)
    requires w.Distinct()
    ensures w.Moved(a, b, d, e).Put(w.first, p) == w.Moved(p, b, d, e)
    ensures w.Moved(a, b, d, e).Put(w.below, p) == w.Moved(a, p, d, e)
    ensures w.Moved(a, b, d, e).Put(w.fourth, p) == w.Moved(a, b, p, e)
    ensures w.Moved(a, b, d, e).Put(w.fifth, p) == w.Moved(a, b, d, p)
  {
    var at := w.Places(a, b, d, e);
    assert at[w.first := p] == w.Places(p, b, d, e);
    assert at[w.below := p] == w.Places(a, p, d, e);
    assert at[w.fourth := p] == w.Places(a, b, p, e);
    assert at[w.fifth := p] == w.Places(a, b, d, p);
  }

  lemma {:induction false} RowStart(w: Row)
    requires w.Distinct()
    ensures var at := w.Start().at;
            && (forall id :: id in at <==> id == w.first || id == w.below || id == w.second || id == w.third || id == w.fourth || id == w.fifth)
            && at[w.first] == Pos(5, -1, 0) && at[w.below] == Pos(2, 0, 0) && at[w.second] == Pos(0, 0, 0) && at[w.third] == Pos(1, 0, 0)
            && at[w.fourth] == Pos(2, 1, 0) && at[w.fifth] == Pos(2, 2, 0)
    ensures var delta := w.Shift().delta;
            && (forall id :: id in delta <==> id == w.first || id == w.below || id == w.fourth || id == w.fifth)
            && delta[w.first] == 1 && delta[w.below] == 1 && delta[w.fourth] == -1 && delta[w.fifth] == -2
    ensures NoDup(w.Ids()) && NoDup(w.Shift().ids) && w.Start().order == w.Ids() && (forall id :: id in w.Ids() <==> id in w.Start().at)
    ensures forall id :: id in w.Shift().ids <==> id in w.Shift().delta
  {
    RowPlaces(w, Pos(5, -1, 0), Pos(2, 0, 0), Pos(2, 1, 0), Pos(2, 2, 0));
  }

  lemma {:induction false} RowTaken(w: Row)
    requires w.Distinct()
    ensures forall c :: c in w.Occupied() <==> Taken(w.Start(), 0, c)
  {
    RowStart(w);
    hide Row.Start, Row.Distinct, Row.Ids, NoDup;
    var r := w.Start();
    forall c ensures c in w.Occupied() <==> Taken(r, 0, c) {
      if c in w.Occupied() {
        var id := if c == Cell(5, -1) then w.first else if c == Cell(2, 0) then w.below else if c == Cell(0, 0) then w.second
                  else if c == Cell(1, 0) then w.third else if c == Cell(2, 1) then w.fourth else w.fifth;
        assert r.at[id] == At(c, 0);
      }
    }
  }

  /** The board agrees. */
  lemma {:induction false} RowAgrees(w: Row)
    requires w.Distinct()
    ensures Agrees(w.Start(), map[0 := w.Occupied()])
  {
    RowTaken(w);
    RowStart(w);
    hide Row.Start, Row.Distinct, Row.Occupied, NoDup, Taken;
  }

  /** The rooms to be shifted make up a batch. */
  lemma {:induction false} RowBatch(w: Row)
    requires w.Distinct()
    ensures w.Start().Valid() && Shiftable(w.Start(), 0, w.Shift()) && PushSign(w.Shift()) == 1
  {
    RowStart(w);
    hide Row.Start, Row.Distinct, NoDup;
  }

  /** The only exit of the other axis leads from the first room to the one below it. */
  lemma {:induction false} RowSouth(w: Row, e: Edge)
    requires w.Distinct() && NorthSouth.Includes(e.dir)
    ensures e in w.Map().Out(e.from) <==> e == Edge(w.first, South, w.below)
  {
    OutMembers(e.from, w.Map().ExitsOf(e.from));
    hide OutOf;
    var exits := w.Map().exits;
    assert exits[w.first] == [Exit(East, w.second), Exit(South, w.below)] && exits[w.below] == [] && exits[w.second] == [Exit(East, w.third)];
    assert exits[w.third] == [Exit(East, w.fourth)] && exits[w.fourth] == [Exit(East, w.fifth)] && exits[w.fifth] == [];
  }

  /** The exits of the row's own axis. */
  predicate RowEdge(w: Row, e: Edge) {
    e == Edge(w.first, East, w.second) || e == Edge(w.second, East, w.third) || e == Edge(w.third, East, w.fourth) || e == Edge(w.fourth, East, w.fifth)
  }

  lemma {:induction false} RowEast(w: Row, e: Edge)
    requires w.Distinct() && EastWest.Includes(e.dir)
    ensures e in w.Map().Out(e.from) <==> RowEdge(w, e)
  {
    OutMembers(e.from, w.Map().ExitsOf(e.from));
    hide OutOf;
    var exits := w.Map().exits;
    assert exits[w.first] == [Exit(East, w.second), Exit(South, w.below)] && exits[w.below] == [] && exits[w.second] == [Exit(East, w.third)];
    assert exits[w.third] == [Exit(East, w.fourth)] && exits[w.fourth] == [Exit(East, w.fifth)] && exits[w.fifth] == [];
  }

  lemma {:induction false} RowAdjacent(w: Row)
    requires w.Distinct()
    ensures forall x, y :: Adjacent(w.Map(), w.Start(), 0, EastWest, x, y) <==> RowEdge(w, Edge(x, East, y)) || RowEdge(w, Edge(y, East, x))
  {
    forall e: Edge | EastWest.Includes(e.dir) ensures e in AllEdges(w.Map()) <==> RowEdge(w, e) { RowExit(w, e); }
    forall e: Edge | RowEdge(w, e) ensures e.dir == East && Joins(w.Start(), 0, EastWest, e) { RowJoins(w, e); }
    hide Row.Map, Row.Start, Row.Distinct, RowEdge, Joins, AllEdges;
    AdjacentIff(w, w.Map(), w.Start());
  }

  lemma {:induction false} RowExit(w: Row, e: Edge)
    requires w.Distinct() && EastWest.Includes(e.dir)
    ensures e in AllEdges(w.Map()) <==> RowEdge(w, e)
  {
    var zone := w.Map();
    assert zone.ids == w.Ids();
    AllOutMembers(zone, zone.ids);
    RowEast(w, e);
    if RowEdge(w, e) { RowEnds(w, e); }
    hide Row.Map, Row.Distinct, Row.Ids, Zone.Out, RowEdge;
  }

  lemma {:induction false} RowJoins(w: Row, e: Edge)
    requires w.Distinct() && RowEdge(w, e)
    ensures e.dir == East && Joins(w.Start(), 0, EastWest, e)
  {
    RowOnFloor(w);
    hide Row.Start, Row.Distinct;
  }

  lemma {:induction false} RowEnds(w: Row, e: Edge)
    requires RowEdge(w, e)
    ensures e.dir == East && e.from in w.Ids() && e.to in w.Ids()
  {
  }

  lemma {:induction false} AdjacentIff(w: Row, zone: Zone, r: Layout)
    requires forall e: Edge :: EastWest.Includes(e.dir) ==> (e in AllEdges(zone) <==> RowEdge(w, e))
    requires forall e: Edge :: RowEdge(w, e) ==> e.dir == East && Joins(r, 0, EastWest, e)
    ensures forall x, y :: Adjacent(zone, r, 0, EastWest, x, y) <==> RowEdge(w, Edge(x, East, y)) || RowEdge(w, Edge(y, East, x))
  {
    hide AllEdges, RowEdge;
    forall x, y ensures Adjacent(zone, r, 0, EastWest, x, y) <==> RowEdge(w, Edge(x, East, y)) || RowEdge(w, Edge(y, East, x)) {
      if Adjacent(zone, r, 0, EastWest, x, y) {
        var e :| e in AllEdges(zone) && Joins(r, 0, EastWest, e) && ((e.from == x && e.to == y) || (e.from == y && e.to == x));
        assert e == Edge(e.from, East, e.to);
      }
      if RowEdge(w, Edge(x, East, y)) { assert Edge(x, East, y) in AllEdges(zone); }
      if RowEdge(w, Edge(y, East, x)) { assert Edge(y, East, x) in AllEdges(zone); }
    }
  }

  /** The row is one class, the room below it another. */
  ghost predicate RowClasses(w: Row, root: map<RoomId, RoomId>) {
    && (forall id :: id in root <==> id in w.Ids())
    && root[w.second] == root[w.first] && root[w.third] == root[w.first] && root[w.fourth] == root[w.first] && root[w.fifth] == root[w.first]
    && root[w.below] != root[w.first]
  }

  lemma {:induction false} RowIsClassed(w: Row, root: map<RoomId, RoomId>)
    requires w.Distinct() && Classes(w.Map(), w.Start(), 0, EastWest, root)
    ensures RowClasses(w, root)
  {
    var zone, r := w.Map(), w.Start();
    RowAdjacent(w);
    RowApart(w);
    RowOnFloor(w);
    RowKeys(w, root);
    hide Row.Map, Row.Start, Row.Distinct, Row.Ids, NoDup, Adjacent, Classes, RowEdge;
    FiveTogether(zone, r, root, w.first, w.second, w.third, w.fourth, w.fifth, w.below);
  }

  lemma {:induction false} RowOnFloor(w: Row)
    requires w.Distinct()
    ensures var r := w.Start(); r.On(w.first, 0) && r.On(w.below, 0) && r.On(w.second, 0) && r.On(w.third, 0) && r.On(w.fourth, 0) && r.On(w.fifth, 0)
  {
    RowStart(w);
    hide Row.Start, Row.Distinct, NoDup;
  }

  lemma {:induction false} RowKeys(w: Row, root: map<RoomId, RoomId>)
    requires w.Distinct() && Classes(w.Map(), w.Start(), 0, EastWest, root)
    ensures forall id :: id in root <==> id in w.Ids()
  {
    RowStart(w);
    hide Row.Map, Row.Start, Row.Distinct, NoDup, Connected;
  }

  /** No exit of the row's axis leads to the room below, or from it. */
  lemma {:induction false} RowApart(w: Row)
    requires w.Distinct()
    ensures RowEdge(w, Edge(w.first, East, w.second)) && RowEdge(w, Edge(w.second, East, w.third))
    ensures RowEdge(w, Edge(w.third, East, w.fourth)) && RowEdge(w, Edge(w.fourth, East, w.fifth)) && w.first != w.below
    ensures forall x, y :: RowEdge(w, Edge(x, East, y)) ==> x != w.below && y != w.below
  {
  }

  /** The groups found are the row in its order, and the room below alone. */
  lemma {:induction false} RowMembers(w: Row, root: map<RoomId, RoomId>, g: Groups)
    requires w.Distinct() && RowClasses(w, root) && GroupsOk(w.Start(), 0, root, g) && InClasses(root, g, FloorRooms(w.Start(), 0))
    ensures var k := root[w.first];
            && k in g.roots && k in g.members && g.members[k] == w.Group()
            && forall j, x :: j in g.members && j != k && x in g.members[j] ==> x == w.below
  {
    RowFloor(w);
    RowClass(w, root);
    RowOther(w, root);
    TwoGroups(w.Start(), root, g, w.Ids(), w.Group(), w.first, w.below);
  }

  lemma {:induction false} RowOther(w: Row, root: map<RoomId, RoomId>)
    requires RowClasses(w, root)
    ensures w.first in w.Ids() && w.first in root && forall x :: x in w.Ids() && x in root ==> root[x] == root[w.first] || x == w.below
  {
  }

  lemma {:induction false} RowFloor(w: Row)
    requires w.Distinct()
    ensures FloorRooms(w.Start(), 0) == w.Ids()
  {
    RowStart(w);
    hide Row.Distinct, NoDup;
    AllOnFloor(w.Start(), 0, w.Ids());
  }

  lemma {:induction false} RowClass(w: Row, root: map<RoomId, RoomId>)
    requires RowClasses(w, root)
    ensures ClassIn(root, root[w.first], w.Ids()) == w.Group()
  {
    var ids := w.Ids();
    assert ids[0] in root && ids[1] in root && ids[2] in root && ids[3] in root && ids[4] in root && ids[5] in root;
    ClassOfSix(root, root[w.first], w.first, w.below, w.second, w.third, w.fourth, w.fifth);
  }

  lemma {:induction false} ClassOfSix(root: map<RoomId, RoomId>, k: RoomId, a: RoomId, b: RoomId, c: RoomId, d: RoomId, e: RoomId, f: RoomId)
    requires a in root && b in root && c in root && d in root && e in root && f in root
    requires root[a] == k && root[b] != k && root[c] == k && root[d] == k && root[e] == k && root[f] == k
    ensures ClassIn(root, k, [a, b, c, d, e, f]) == [a, c, d, e, f]
  {
    ClassInStep(root, k, [], a);
    assert [] + [a] == [a] && [a] + [] == [a] && [a] + [b] == [a, b];
    ClassInStep(root, k, [a], b);
    assert [a, b] + [c] == [a, b, c] && [a, b, c] + [d] == [a, b, c, d] && [a, b, c, d] + [e] == [a, b, c, d, e];
    assert [a] + [c] == [a, c] && [a, c] + [d] == [a, c, d] && [a, c, d] + [e] == [a, c, d, e];
    ClassInStep(root, k, [a, b], c);
    ClassInStep(root, k, [a, b, c], d);
    ClassInStep(root, k, [a, b, c, d], e);
    ClassInStep(root, k, [a, b, c, d, e], f);
    hide ClassIn;
    assert [a, b, c, d, e] + [f] == [a, b, c, d, e, f] && [a, c, d, e] + [f] == [a, c, d, e, f];
  }

  /** So the first room takes that one along, and nobody else takes anyone along. */
  lemma {:induction false} RowDrags(w: Row, root: map<RoomId, RoomId>, cur: RoomId, x: RoomId)
    requires w.Distinct() && RowClasses(w, root)
    ensures Dragged(w.Map(), EastWest, root, root[w.first], cur, x) <==> cur == w.first && x == w.below
  {
    var zone, e0 := w.Map(), Edge(w.first, South, w.below);
    RowRoots(w, root);
    hide Row.Map, RowClasses, Row.Distinct, Zone.Out;
    forall e | e in zone.Out(cur) && NorthSouth.Includes(e.dir) ensures e == e0 && cur == w.first {
      OutFrom(zone, cur, e);
      RowSouth(w, e);
    }
    zone.InFromMembers(zone.ids, cur);
    forall e | e in zone.In(cur) && NorthSouth.Includes(e.dir) ensures e == e0 { RowSouth(w, e); }
    RowSouth(w, e0);
  }

  lemma {:induction false} RowRoots(w: Row, root: map<RoomId, RoomId>)
    requires w.Distinct() && RowClasses(w, root)
    ensures w.first in root && w.below in root && root[w.below] != root[w.first]
    ensures forall x :: x in root && root[x] == root[w.below] ==> x == w.below
  {
  }

  lemma {:induction false} RowReaches(w: Row, root: map<RoomId, RoomId>, id: RoomId, x: RoomId)
    requires w.Distinct() && RowClasses(w, root)
    ensures Reached(DragForces(w.Map(), EastWest, root, root[w.first]), id, x) <==> x == id || (id == w.first && x == w.below)
  {
    var forces := DragForces(w.Map(), EastWest, root, root[w.first]);
    forall a, b ensures forces(a, b) <==> a == w.first && b == w.below { RowDrags(w, root, a, b); }
    hide DragForces, Row.Distinct, RowClasses;
    var s := if id == w.first then [w.first, w.below] else [id];
    assert Closed(forces, id, s) && Least(forces, id, s);
    ReachedIsMember(forces, id, s);
  }

  /** The shift is tried for the group. */
  lemma {:induction false} RowIsTried(w: Row, root: map<RoomId, RoomId>)
    requires w.Distinct() && RowClasses(w, root)
    ensures Tries(w.Map(), w.Start(), 0, EastWest, root, root[w.first], w.Group(), Trial(0, w.Shift()))
  {
    RowIsTwoSided(w);
    RowBatch(w);
    RowBatched(w, root);
    RowLed(w);
    hide FirstMode, Batched, LedBy, BatchOk, Row.Map, Row.Start, Row.Group, Row.Distinct;
  }

  lemma {:induction false} RowLed(w: Row)
    requires w.Distinct()
    ensures LedBy(w.Start(), EastWest, w.Group(), 0, |w.Group()|, w.Shift())
  {
    RowStart(w);
    hide Row.Start, Row.Distinct, NoDup;
    assert FirstOutlier(w.Start(), EastWest, w.Group(), 0, 0);
  }

  lemma {:induction false} RowLeads(w: Row, root: map<RoomId, RoomId>, j: int, id: RoomId)
    requires w.Distinct() && RowClasses(w, root)
    ensures Leads(w.Map(), w.Start(), EastWest, root, root[w.first], w.Group(), 0, j, id) <==>
            (j == 0 && (id == w.first || id == w.below)) || (j == 3 && id == w.fourth) || (j == 4 && id == w.fifth)
  {
    var group := w.Group();
    if 0 <= j < |group| {
      RowReaches(w, root, group[j], id);
      RowStart(w);
      hide Row.Start, Row.Map, RowClasses, NoDup, Reached, DragForces;
    }
  }

  lemma {:induction false} RowBatched(w: Row, root: map<RoomId, RoomId>)
    requires w.Distinct() && RowClasses(w, root)
    ensures Batched(w.Map(), w.Start(), EastWest, root, root[w.first], w.Group(), 0, |w.Group()|, w.Shift())
  {
    var zone, r, k, group := w.Map(), w.Start(), root[w.first], w.Group();
    forall j, id ensures Leads(zone, r, EastWest, root, k, group, 0, j, id) <==>
      (j == 0 && (id == w.first || id == w.below)) || (j == 3 && id == w.fourth) || (j == 4 && id == w.fifth)
    {
      RowLeads(w, root, j, id);
    }
    RowStart(w);
    hide Leads, Row.Start, Row.Map, RowClasses, Row.Distinct, NoDup;
    BatchOfThree(zone, r, root, k, group, w.first, w.below, w.fourth, w.fifth, w.Shift());
  }

  /** The first, fourth and fifth room of a group are outliers, and the first takes another along. */
  lemma {:induction false} BatchOfThree(zone: Zone, r: Layout, root: map<RoomId, RoomId>, k: RoomId, group: seq<RoomId>, a: RoomId, b: RoomId, d: RoomId, e: RoomId, batch: Batch)
    requires forall j, id :: Leads(zone, r, EastWest, root, k, group, 0, j, id) <==>
      (j == 0 && (id == a || id == b)) || (j == 3 && id == d) || (j == 4 && id == e)
    requires |group| == 5 && group[0] in r.at && group[3] in r.at && group[4] in r.at && d != a && d != b && e != a && e != b && e != d
    requires forall id :: id in batch.delta <==> id == a || id == b || id == d || id == e
    requires batch.delta[a] == -r.at[group[0]].y == batch.delta[b] && batch.delta[d] == -r.at[group[3]].y && batch.delta[e] == -r.at[group[4]].y
    ensures Batched(zone, r, EastWest, root, k, group, 0, |group|, batch)
  {
    hide Leads;
    assert LeadsFirst(zone, r, EastWest, root, k, group, 0, 0, a) && LeadsFirst(zone, r, EastWest, root, k, group, 0, 0, b);
    assert LeadsFirst(zone, r, EastWest, root, k, group, 0, 3, d) && LeadsFirst(zone, r, EastWest, root, k, group, 0, 4, e);
    hide LeadsFirst;
  }

  lemma {:induction false} RowCounts(r: Layout, group: seq<RoomId>, c: int)
    requires |group| == 5 && (forall id :: id in group ==> id in r.at) && Coord(r, EastWest, group[0]) == -1 && Coord(r, EastWest, group[1]) == 0
    requires Coord(r, EastWest, group[2]) == 0 && Coord(r, EastWest, group[3]) == 1 && Coord(r, EastWest, group[4]) == 2
    ensures CountOf(r, EastWest, group, c) == if c == 0 then 2 else if c == -1 || c == 1 || c == 2 then 1 else 0
  {
    assert group[..0] == [] && group[..5] == group;
    assert CountOf(r, EastWest, group[..0], c) == 0;
    hide CountOf;
    CountStep(r, EastWest, group, 0, c);
    CountStep(r, EastWest, group, 1, c);
    CountStep(r, EastWest, group, 2, c);
    CountStep(r, EastWest, group, 3, c);
    CountStep(r, EastWest, group, 4, c);
  }

  lemma {:induction false} ModeOfFive(r: Layout, group: seq<RoomId>)
    requires |group| == 5 && (forall id :: id in group ==> id in r.at) && Coord(r, EastWest, group[0]) == -1 && Coord(r, EastWest, group[1]) == 0
    requires Coord(r, EastWest, group[2]) == 0 && Coord(r, EastWest, group[3]) == 1 && Coord(r, EastWest, group[4]) == 2
    ensures FirstMode(r, EastWest, group, 0)
  {
    forall c ensures CountOf(r, EastWest, group, c) == (if c == 0 then 2 else if c == -1 || c == 1 || c == 2 then 1 else 0) { RowCounts(r, group, c); }
    hide CountOf;
    assert Coord(r, EastWest, group[1]) == 0;
  }

  /** The group has members on both sides of its most common coordinate. */
  lemma {:induction false} RowIsTwoSided(w: Row)
    requires w.Distinct()
    ensures FirstMode(w.Start(), EastWest, w.Group(), 0) && !OneSided(w.Start(), EastWest, w.Group(), 0)
  {
    RowRows(w);
    hide Row.Start, Row.Distinct;
    assert w.Group()[0] == w.first && w.Group()[4] == w.fifth;
    ModeOfFive(w.Start(), w.Group());
  }

  lemma {:induction false} SortStep(r: Layout, axis: Axis, sign: int, id: RoomId, s: seq<RoomId>)
    requires id in r.at && forall x :: x in s ==> x in r.at
    ensures forall x :: x in [id] + s ==> x in r.at
    ensures SortByCoord(r, axis, sign, [id] + s) == InsertByCoord(r, axis, sign, id, SortByCoord(r, axis, sign, s))
  {
    assert ([id] + s)[1..] == s;
  }

  lemma {:induction false} InsertStep(r: Layout, axis: Axis, sign: int, id: RoomId, x: RoomId, s: seq<RoomId>)
    requires id in r.at && x in r.at && forall y :: y in s ==> y in r.at
    ensures forall y :: y in [x] + s ==> y in r.at
    ensures InsertByCoord(r, axis, sign, id, [x] + s) ==
            if Ahead(sign, Coord(r, axis, id), Coord(r, axis, x)) then [id] + ([x] + s) else [x] + InsertByCoord(r, axis, sign, id, s)
    ensures InsertByCoord(r, axis, sign, id, []) == [id] && SortByCoord(r, axis, sign, []) == []
  {
    assert ([x] + s)[1..] == s;
  }

  /** Rooms listed from the north to the south come back in the opposite order. */
  lemma {:induction false} SortFour(r: Layout, a: RoomId, b: RoomId, d: RoomId, e: RoomId)
    requires a in r.at && b in r.at && d in r.at && e in r.at
    requires r.at[a].y < r.at[b].y < r.at[d].y < r.at[e].y
    ensures SortByCoord(r, EastWest, 1, [a] + ([b] + ([d] + [e]))) == [e] + ([d] + ([b] + [a]))
  {
    hide SortByCoord, InsertByCoord;
    assert [e] + [] == [e] && [d] + [] == [d] && [b] + [] == [b];
    SortStep(r, EastWest, 1, e, []);
    SortStep(r, EastWest, 1, d, [e]);
    SortStep(r, EastWest, 1, b, [d] + [e]);
    SortStep(r, EastWest, 1, a, [b] + ([d] + [e]));
    InsertStep(r, EastWest, 1, e, e, []);
    InsertStep(r, EastWest, 1, d, e, []);
    InsertStep(r, EastWest, 1, b, d, []);
    InsertStep(r, EastWest, 1, b, e, [d]);
    InsertStep(r, EastWest, 1, a, b, []);
    InsertStep(r, EastWest, 1, a, d, [b]);
    InsertStep(r, EastWest, 1, a, e, [d] + [b]);
  }

  lemma {:induction false} RowOnBoard(w: Row)
    requires w.Distinct()
    ensures var at := w.Start().at;
            && w.first in at && w.below in at && w.fourth in at && w.fifth in at && at[w.first].y < at[w.below].y < at[w.fourth].y < at[w.fifth].y
    ensures forall id :: id in w.Shift().ids ==> id in w.Start().at
  {
    RowStart(w);
    hide Row.Start, Row.Distinct, NoDup;
  }

  /** The last rooms come back first. */
  lemma {:induction false} RowSorted(w: Row)
    requires w.Distinct()
    ensures (forall id :: id in w.Shift().ids ==> id in w.Start().at)
    ensures SortByCoord(w.Start(), EastWest, 1, w.Shift().ids) == [w.fifth, w.fourth, w.below, w.first]
  {
    RowOnBoard(w);
    hide Row.Start, Row.Distinct, SortByCoord;
    SortFour(w.Start(), w.first, w.below, w.fourth, w.fifth);
    assert w.Shift().ids == [w.first] + ([w.below] + ([w.fourth] + [w.fifth]));
    assert [w.fifth] + ([w.fourth] + ([w.below] + [w.first])) == [w.fifth, w.fourth, w.below, w.first];
  }

  /** The cells of the rooms that stay. */
  const STAY: set<Cell> := {Cell(0, 0), Cell(1, 0)}

  lemma {:induction false} RowHome(w: Row)
    requires w.Distinct()
    ensures var home := BatchHome(w.Start(), w.Shift());
            && (forall id :: id in home <==> id == w.first || id == w.below || id == w.fourth || id == w.fifth)
            && home[w.first] == Cell(5, -1) && home[w.below] == Cell(2, 0) && home[w.fourth] == Cell(2, 1) && home[w.fifth] == Cell(2, 2)
  {
    RowStart(w);
    hide Row.Start, Row.Distinct, NoDup;
  }

  lemma {:induction false} RowRaised(w: Row)
    requires w.Distinct()
    ensures Raised(w.Start(), w.Occupied(), w.Shift()) == Half(w.Start(), STAY, Members(w.Shift().ids))
  {
    RowHome(w);
    var home := BatchHome(w.Start(), w.Shift());
    FourCells(home, w.first, w.below, w.fourth, w.fifth);
    hide BatchHome;
    assert home.Keys == Members(w.Shift().ids);
    assert w.Occupied() - {Cell(5, -1), Cell(2, 0), Cell(2, 1), Cell(2, 2)} == STAY;
  }

  lemma {:induction false} RowTargets(w: Row)
    requires w.Distinct()
    ensures var to := Targets(w.Start(), EastWest, w.Shift());
            && w.first in to && w.below in to && w.fourth in to && w.fifth in to
            && to[w.first] == Cell(5, 0) && to[w.below] == Cell(2, 1) && to[w.fourth] == Cell(2, 0) && to[w.fifth] == Cell(2, 0)
  {
    RowStart(w);
    hide Row.Start, Row.Distinct, NoDup;
  }

  lemma FourCells(home: map<RoomId, Cell>, a: RoomId, b: RoomId, d: RoomId, e: RoomId)
    requires forall id :: id in home <==> id == a || id == b || id == d || id == e
    ensures Cells(home) == {home[a], home[b], home[d], home[e]}
  {
    forall c ensures c in Cells(home) <==> c in {home[a], home[b], home[d], home[e]} {
      if c in Cells(home) { var id :| id in home && home[id] == c; }
    }
  }

  /** The room below the first one is the first listed on its old cell, though it is off the board. */
  lemma {:induction false} RowFinds(w: Row, a: Pos, d: Pos, e: Pos)
    requires w.Distinct() && a != Pos(2, 0, 0)
    ensures FirstAt(w.Moved(a, Pos(2, 0, 0), d, e), 0, Cell(2, 0), w.fourth) == Some(w.below)
  {
    var r := w.Moved(a, Pos(2, 0, 0), d, e);
    RowPlaces(w, a, Pos(2, 0, 0), d, e);
    hide Row.Places;
    FirstOfStep(r, 0, Cell(2, 0), w.fourth, r.order, 0);
    FirstOfStep(r, 0, Cell(2, 0), w.fourth, r.order, 1);
    hide FirstOf;
  }

  lemma {:induction false} RowNobody(w: Row)
    requires w.Distinct()
    ensures FirstAt(w.Moved(Pos(5, -1, 0), Pos(2, 1, 0), Pos(2, 0, 0), Pos(2, 0, 0)), 0, Cell(2, 1), w.below) == None
  {
    RowPlaces(w, Pos(5, -1, 0), Pos(2, 1, 0), Pos(2, 0, 0), Pos(2, 0, 0));
    hide Row.Places;
  }

  /** The fifth room lands where the room below the first one still stands in the layout; the fourth
      finds that one there, pushes it on and lands on the fifth. */
  lemma {:induction false} RowShifted(w: Row)
    requires w.Distinct()
    ensures (forall id :: id in w.Shift().ids ==> id in w.Start().at)
    ensures AfterShift(w.Start(), w.Occupied(), 0, EastWest, 1, w.Shift()).r == w.Moved(Pos(5, 0, 0), Pos(2, 1, 0), Pos(2, 0, 0), Pos(2, 0, 0))
  {
    RowSorted(w);
    RowRaised(w);
    RowTargets(w);
    hide SortByCoord, Raised, Push, PushAll, Targets, FirstAt;
    var to, s := Targets(w.Start(), EastWest, w.Shift()), Raised(w.Start(), w.Occupied(), w.Shift());
    var sorted := [w.fifth, w.fourth, w.below, w.first];
    PushAllEnds(s, 0, EastWest, 1, sorted, to);
    PushAllStep(s, 0, EastWest, 1, sorted, 0, to);
    var s1 := Push(s, 0, EastWest, 1, w.fifth, Cell(2, 0));
    PushAllStep(s1, 0, EastWest, 1, sorted, 1, to);
    var s2 := Push(s1, 0, EastWest, 1, w.fourth, Cell(2, 0));
    PushAllStep(s2, 0, EastWest, 1, sorted, 2, to);
    var s3 := Push(s2, 0, EastWest, 1, w.below, Cell(2, 1));
    PushAllStep(s3, 0, EastWest, 1, sorted, 3, to);
    var s4 := Push(s3, 0, EastWest, 1, w.first, Cell(5, 0));
    PushAllEnds(s4, 0, EastWest, 1, sorted, to);
    RowTurns(w, s, s1, s2, s3, s4);
  }

  lemma {:induction false} RowTurns(w: Row, s: Half, s1: Half, s2: Half, s3: Half, s4: Half)
    requires w.Distinct() && s.r == w.Start() && s.cells == STAY
    requires s1 == Push(s, 0, EastWest, 1, w.fifth, Cell(2, 0)) && s2 == Push(s1, 0, EastWest, 1, w.fourth, Cell(2, 0))
    requires s3 == Push(s2, 0, EastWest, 1, w.below, Cell(2, 1)) && s4 == Push(s3, 0, EastWest, 1, w.first, Cell(5, 0))
    ensures s4.r == w.Moved(Pos(5, 0, 0), Pos(2, 1, 0), Pos(2, 0, 0), Pos(2, 0, 0))
  {
    hide Push, FirstAt, Row.Moved, Row.Distinct;
    FreeTurn(s, 1, w.fifth, Cell(2, 0));
    RowPut(w, Pos(5, -1, 0), Pos(2, 0, 0), Pos(2, 1, 0), Pos(2, 2, 0), Pos(2, 0, 0));
    RowFourth(w, s1, s2);
    RowNobody(w);
    FreeTurn(s2, 1, w.below, Cell(2, 1));
    RowPut(w, Pos(5, -1, 0), Pos(2, 1, 0), Pos(2, 0, 0), Pos(2, 0, 0), Pos(2, 1, 0));
    FreeTurn(s3, 1, w.first, Cell(5, 0));
    RowPut(w, Pos(5, -1, 0), Pos(2, 1, 0), Pos(2, 0, 0), Pos(2, 0, 0), Pos(5, 0, 0));
  }

  lemma {:induction false} RowFourth(w: Row, s1: Half, s2: Half)
    requires w.Distinct() && s1.r == w.Moved(Pos(5, -1, 0), Pos(2, 0, 0), Pos(2, 1, 0), Pos(2, 0, 0)) && s1.cells == STAY + {Cell(2, 0)}
    requires s2 == Push(s1, 0, EastWest, 1, w.fourth, Cell(2, 0))
    ensures s2.r == w.Moved(Pos(5, -1, 0), Pos(2, 1, 0), Pos(2, 0, 0), Pos(2, 0, 0)) && s2.cells == STAY + {Cell(2, 0), Cell(2, 1)}
  {
    RowFinds(w, Pos(5, -1, 0), Pos(2, 1, 0), Pos(2, 0, 0));
    RowPut(w, Pos(5, -1, 0), Pos(2, 0, 0), Pos(2, 1, 0), Pos(2, 0, 0), Pos(2, 1, 0));
    RowPut(w, Pos(5, -1, 0), Pos(2, 1, 0), Pos(2, 1, 0), Pos(2, 0, 0), Pos(2, 0, 0));
    hide Push, FirstAt, Row.Moved, Row.Distinct;
    PushesOn(s1, 1, w.fourth, Cell(2, 0), w.below, Cell(2, 1));
  }

  /** Where the phase leaves the rooms. */
  function RowEnd(w: Row): Layout { w.Moved(Pos(5, 0, 0), Pos(2, 1, 0), Pos(2, 0, 0), Pos(2, 0, 0)) }

  /** Of the groups only the row is not aligned at first, and all are then. */
  lemma {:induction false} RowStraightened(w: Row)
    requires w.Distinct()
    ensures !Aligned(w.Start(), EastWest, w.Group()) && Aligned(RowEnd(w), EastWest, w.Group()) && !NoOverlap(RowEnd(w))
    ensures Apart(w.Start(), EastWest, w.Shift().ids)
  {
    RowUneven(w);
    RowEven(w);
    hide Aligned, NoOverlap, Apart, Row.Start, RowEnd, Row.Group, Row.Shift, Row.Distinct;
  }

  /** The rows of the rooms at first. */
  lemma {:induction false} RowRows(w: Row)
    requires w.Distinct()
    ensures var at := w.Start().at;
            && w.first in at && w.below in at && w.second in at && w.third in at && w.fourth in at && w.fifth in at
            && at[w.first].y == -1 && at[w.below].y == 0 && at[w.second].y == 0 && at[w.third].y == 0 && at[w.fourth].y == 1 && at[w.fifth].y == 2
  {
    RowStart(w);
    hide Row.Start, Row.Distinct, NoDup;
  }

  lemma {:induction false} RowUneven(w: Row)
    requires w.Distinct()
    ensures !Aligned(w.Start(), EastWest, w.Group()) && Apart(w.Start(), EastWest, w.Shift().ids)
  {
    RowRows(w);
    hide Row.Start, Row.Distinct;
    assert w.Group()[0] == w.first && w.Group()[1] == w.second;
    hide Row.Group, Row.Ids;
  }

  lemma {:induction false} RowEven(w: Row)
    requires w.Distinct()
    ensures Aligned(RowEnd(w), EastWest, w.Group()) && !NoOverlap(RowEnd(w))
  {
    var r := RowEnd(w);
    RowPlaces(w, Pos(5, 0, 0), Pos(2, 1, 0), Pos(2, 0, 0), Pos(2, 0, 0));
    assert w.fourth != w.fifth;
    hide Row.Places, Row.Distinct;
    assert r.at[w.fourth] == r.at[w.fifth];
    hide Row.Ids;
  }

  lemma {:induction false} RowOutcome(w: Row, root: map<RoomId, RoomId>, t: Trial)
    requires w.Distinct() && RowClasses(w, root) && Tries(w.Map(), w.Start(), 0, EastWest, root, root[w.first], w.Group(), t)
    ensures Shiftable(w.Start(), 0, t.batch) && Outcome(w.Start(), w.Occupied(), 0, EastWest, t.batch).r == RowEnd(w)
  {
    RowStraightened(w);
    RowIsTried(w, root);
    RowBatch(w);
    RowShifted(w);
    TriedIsShiftable(w.Map(), w.Start(), 0, EastWest, root, root[w.first], w.Group(), t);
    hide Row.Start, Row.Map, Row.Shift, Row.Group, Row.Moved, Row.Occupied, Row.Distinct, RowClasses, Tries, Shiftable, AfterShift, Apart, Aligned, NoOverlap;
    TrialUnique(w.Map(), w.Start(), w.Occupied(), 0, EastWest, root, root[w.first], w.Group(), Trial(0, w.Shift()), t);
  }

  lemma {:induction false} TriedIsShiftable(zone: Zone, r: Layout, z: int, axis: Axis, root: map<RoomId, RoomId>, k: RoomId, group: seq<RoomId>, t: Trial)
    requires Tries(zone, r, z, axis, root, k, group, t)
    ensures Shiftable(r, z, t.batch)
  {
  }

  lemma {:induction false} OthersAligned(r: Layout, g: Groups, k: RoomId, id: RoomId)
    requires forall j, x :: j in g.members && j != k && x in g.members[j] ==> x == id
    ensures forall j :: j in g.members && j != k ==> Aligned(r, EastWest, g.members[j])
  {
    forall j | j in g.members && j != k ensures Aligned(r, EastWest, g.members[j]) { AloneIsAligned(r, EastWest, g.members[j], id); }
  }

  lemma {:induction false} RowIsLone(w: Row, root: map<RoomId, RoomId>, g: Groups)
    requires w.Distinct() && RowClasses(w, root) && GroupsOk(w.Start(), 0, root, g) && InClasses(root, g, FloorRooms(w.Start(), 0))
    ensures LoneGroup(w.Map(), 0, EastWest, root, g, root[w.first], State(w.Start(), map[0 := w.Occupied()]), RowEnd(w))
  {
    var k := root[w.first];
    RowMembers(w, root, g);
    RowStraightened(w);
    hide Row.Start, Row.Map, Row.Shift, Row.Group, RowEnd, Row.Occupied, Row.Distinct, RowClasses, GroupsOk, InClasses, Tries, Shiftable, Outcome, Apart, NoOverlap, Aligned;
    forall t | Tries(w.Map(), w.Start(), 0, EastWest, root, k, w.Group(), t)
      ensures Shiftable(w.Start(), 0, t.batch) && Outcome(w.Start(), w.Occupied(), 0, EastWest, t.batch).r == RowEnd(w)
    {
      RowOutcome(w, root, t);
    }
    OthersAligned(w.Start(), g, k, w.below);
    OthersAligned(RowEnd(w), g, k, w.below);
  }

  lemma {:induction false} AloneIsAligned(r: Layout, axis: Axis, group: seq<RoomId>, id: RoomId)
    requires forall x :: x in group ==> x == id
    ensures Aligned(r, axis, group)
  {
  }

  /** Aligning the rows of that floor ends agreement: two rooms are on one cell. */
  method AlignRow(w: Row, R: nat) returns (b: Board)
    requires w.Distinct()
    ensures fresh(b) && b.zone == w.Map() && b.result == RowEnd(w)
    ensures Agrees(w.Start(), map[0 := w.Occupied()]) && !Agrees(b.result, b.occupied)
  {
    RowAgrees(w);
    RowReady(w);
    RowStraightened(w);
    hide Agrees, Row.Start, Row.Moved, RowEnd, Row.Shift, Row.Occupied, Row.Map, Row.Distinct, Row.Group, ReadyState, AxisAligned, Aligned, Apart;
    ghost var how;
    b, how := AlignOneFloor(w.Map(), R, w.Start(), w.Occupied());
    RowAligned(w, how, State(b.result, b.occupied));
    if Agrees(b.result, b.occupied) { AgreesNoOverlap(b.result, b.occupied); }
  }

  lemma {:induction false} RowAligned(w: Row, how: Alignment, s': State)
    requires w.Distinct() && AxisAligned(w.Map(), 0, EastWest, w.Start(), map[0 := w.Occupied()], how, s'.r, s'.occ)
    ensures s'.r == RowEnd(w)
  {
    AlignedGroups(w.Map(), 0, EastWest, w.Start(), map[0 := w.Occupied()], how, s');
    hide AxisAligned, Classes, GroupsOk, InClasses, RowEnd, LoneGroup, Row.Start, Row.Map, Row.Occupied, RowClasses;
    RowIsClassed(w, how.root);
    RowIsLone(w, how.root, how.g);
    RowAgrees(w);
    LoneAligned(w.Map(), 0, EastWest, State(w.Start(), map[0 := w.Occupied()]), s', how, how.root[w.first], RowEnd(w));
  }

  lemma {:induction false} RowReady(w: Row)
    requires w.Distinct()
    ensures ReadyState(w.Map(), w.Start(), [0], map[0 := w.Occupied()])
  {
    RowStart(w);
    hide Row.Start, NoDup;
  }

  // ---- A shift that does not lower the score ----

  /** Two rooms side by side, the eastern one a row too far south; another room stands in its place,
      and the room north of that one lies far to the east. */
  datatype Corner = Corner(west: RoomId, east: RoomId, cellar: RoomId, tower: RoomId) {
    predicate Distinct() {
      west != east && west != cellar && west != tower && east != cellar && east != tower && cellar != tower
    }

    function Ids(): seq<RoomId> { [west, east, cellar, tower] }

    function Map(): Zone {
      Zone(Ids(), map[west := [Exit(East, east)], east := [], cellar := [Exit(North, tower)], tower := []])
    }

    function Places(b: Pos, c: Pos): map<RoomId, Pos> {
      map[west := Pos(0, 0, 0), east := b, cellar := c, tower := Pos(5, -1, 0)]
    }

    function Moved(b: Pos, c: Pos): Layout { Layout(Ids(), Places(b, c)) }

    function Start(): Layout { Moved(Pos(1, 1, 0), Pos(1, 0, 0)) }

    /** The eastern room in its row, and the other one pushed on. */
    function End(): Layout { Moved(Pos(1, 0, 0), Pos(1, -1, 0)) }

    function Occupied(): set<Cell> { {Cell(0, 0), Cell(1, 1), Cell(1, 0), Cell(5, -1)} }

    function Group(): seq<RoomId> { [west, east] }

    function Shift(): Batch { Batch([east], map[east := -1]) }
  }

  lemma {:induction false} CornerPlaces(w: Corner, b: Pos, c: Pos)
    requires w.Distinct()
    ensures var at := w.Places(b, c);
            && (forall id :: id in at <==> id == w.west || id == w.east || id == w.cellar || id == w.tower)
            && at[w.west] == Pos(0, 0, 0) && at[w.east] == b && at[w.cellar] == c && at[w.tower] == Pos(5, -1, 0)
            && (forall id :: id in w.Ids() <==> id in at) && NoDup(w.Ids())
  {
  }

  lemma {:induction false} CornerPut(w: Corner, b: Pos, c: Pos, p: Pos)
    requires w.Distinct()
    ensures w.Moved(b, c).Put(w.east, p) == w.Moved(p, c) && w.Moved(b, c).Put(w.cellar, p) == w.Moved(b, p)
  {
    var at := w.Places(b, c);
    assert at[w.east := p] == w.Places(p, c) && at[w.cellar := p] == w.Places(b, p);
  }

  lemma {:induction false} CornerAgrees(w: Corner)
    requires w.Distinct()
    ensures Agrees(w.Start(), map[0 := w.Occupied()]) && w.Start().Valid() && ReadyState(w.Map(), w.Start(), [0], map[0 := w.Occupied()])
  {
    var r := w.Start();
    CornerPlaces(w, Pos(1, 1, 0), Pos(1, 0, 0));
    hide Corner.Places, Corner.Distinct, NoDup;
    forall c ensures c in w.Occupied() <==> Taken(r, 0, c) {
      if c in w.Occupied() {
        var id := if c == Cell(0, 0) then w.west else if c == Cell(1, 1) then w.east else if c == Cell(1, 0) then w.cellar else w.tower;
        assert r.at[id] == At(c, 0);
      }
    }
  }

  lemma {:induction false} CornerOut(w: Corner)
    requires w.Distinct()
    ensures var zone := w.Map();
            && zone.Out(w.west) == [Edge(w.west, East, w.east)] && zone.Out(w.east) == []
            && zone.Out(w.cellar) == [Edge(w.cellar, North, w.tower)] && zone.Out(w.tower) == []
  {
    var zone := w.Map();
    assert zone.ExitsOf(w.west) == [Exit(East, w.east)] && zone.ExitsOf(w.east) == [];
    assert zone.ExitsOf(w.cellar) == [Exit(North, w.tower)] && zone.ExitsOf(w.tower) == [];
    Guards.TwoExits(w.west, Exit(East, w.east), Exit(East, w.east), w.west);
    Guards.TwoExits(w.cellar, Exit(North, w.tower), Exit(North, w.tower), w.west);
    assert OutOf(w.east, []) == [] && OutOf(w.tower, []) == [];
    hide OutOf;
  }

  lemma {:induction false} CornerEdges(w: Corner, e: Edge)
    requires w.Distinct()
    ensures e in w.Map().Out(e.from) <==> e == Edge(w.west, East, w.east) || e == Edge(w.cellar, North, w.tower)
  {
    OutMembers(e.from, w.Map().ExitsOf(e.from));
    hide OutOf;
    var exits := w.Map().exits;
    assert exits[w.west] == [Exit(East, w.east)] && exits[w.east] == [] && exits[w.cellar] == [Exit(North, w.tower)] && exits[w.tower] == [];
  }

  lemma {:induction false} CornerAdjacent(w: Corner, x: RoomId, y: RoomId)
    requires w.Distinct()
    ensures Adjacent(w.Map(), w.Start(), 0, EastWest, x, y) <==> (x == w.west && y == w.east) || (x == w.east && y == w.west)
  {
    var zone, r, e0 := w.Map(), w.Start(), Edge(w.west, East, w.east);
    CornerPlaces(w, Pos(1, 1, 0), Pos(1, 0, 0));
    assert zone.ids == w.Ids();
    AllOutMembers(zone, zone.ids);
    hide Corner.Map, Corner.Places, Corner.Distinct, NoDup, Zone.Out;
    CornerEdges(w, e0);
    assert e0 in AllEdges(zone) && Joins(r, 0, EastWest, e0);
    if Adjacent(zone, r, 0, EastWest, x, y) {
      var e :| e in AllEdges(zone) && Joins(r, 0, EastWest, e) && ((e.from == x && e.to == y) || (e.from == y && e.to == x));
      CornerEdges(w, e);
    }
  }

  /** Only the two rooms side by side share a class. */
  ghost predicate CornerClasses(w: Corner, root: map<RoomId, RoomId>) {
    && (forall id :: id in root <==> id in w.Ids()) && w.west in root && w.east in root && root[w.east] == root[w.west]
    && forall x, y :: x in root && y in root && root[x] == root[y] && x != y ==> x in w.Group() && y in w.Group()
  }

  lemma {:induction false} CornerOnFloor(w: Corner, root: map<RoomId, RoomId>)
    requires w.Distinct() && Classes(w.Map(), w.Start(), 0, EastWest, root)
    ensures w.Start().On(w.west, 0) && w.Start().On(w.east, 0) && forall id :: id in root <==> id in w.Ids()
  {
    CornerPlaces(w, Pos(1, 1, 0), Pos(1, 0, 0));
    hide Corner.Map, Corner.Places, Corner.Distinct, NoDup, Connected;
  }

  lemma {:induction false} CornerIsClassed(w: Corner, root: map<RoomId, RoomId>)
    requires w.Distinct() && Classes(w.Map(), w.Start(), 0, EastWest, root)
    ensures CornerClasses(w, root)
  {
    var zone, r := w.Map(), w.Start();
    CornerOnFloor(w, root);
    forall x, y ensures Adjacent(zone, r, 0, EastWest, x, y) <==> (x == w.west && y == w.east) || (x == w.east && y == w.west) { CornerAdjacent(w, x, y); }
    hide Corner.Map, Corner.Start, Corner.Ids, Corner.Distinct, Adjacent;
    TwoTogether(zone, r, root, w.west, w.east);
  }

  lemma {:induction false} CornerClass(w: Corner, root: map<RoomId, RoomId>)
    requires w.Distinct() && CornerClasses(w, root)
    ensures ClassIn(root, root[w.west], w.Ids()) == w.Group()
  {
    assert w.Ids()[2] in root && w.Ids()[3] in root;
    ClassOfFour(root, root[w.west], w.west, w.east, w.cellar, w.tower);
  }

  lemma {:induction false} ClassOfFour(root: map<RoomId, RoomId>, k: RoomId, a: RoomId, b: RoomId, c: RoomId, d: RoomId)
    requires a in root && b in root && c in root && d in root && root[a] == k && root[b] == k && root[c] != k && root[d] != k
    ensures ClassIn(root, k, [a, b, c, d]) == [a, b]
  {
    ClassInStep(root, k, [], a);
    assert [] + [a] == [a] && [a] + [b] == [a, b] && [a, b] + [c] == [a, b, c] && [a, b, c] + [d] == [a, b, c, d] && [a, b] + [] == [a, b];
    ClassInStep(root, k, [a], b);
    ClassInStep(root, k, [a, b], c);
    ClassInStep(root, k, [a, b, c], d);
    hide ClassIn;
  }

  lemma {:induction false} CornerMembers(w: Corner, root: map<RoomId, RoomId>, g: Groups)
    requires w.Distinct() && CornerClasses(w, root) && GroupsOk(w.Start(), 0, root, g) && InClasses(root, g, FloorRooms(w.Start(), 0))
    ensures var k := root[w.west]; k in g.roots && k in g.members && g.members[k] == w.Group()
    ensures forall j, x, y :: j in g.members && j != root[w.west] && x in g.members[j] && y in g.members[j] ==> x == y
  {
    CornerFloor(w);
    CornerClass(w, root);
    CornerAlone(w, root);
    SingleGroups(w.Start(), root, g, w.Ids(), w.Group(), w.west);
  }

  lemma {:induction false} CornerFloor(w: Corner)
    requires w.Distinct()
    ensures FloorRooms(w.Start(), 0) == w.Ids()
  {
    CornerPlaces(w, Pos(1, 1, 0), Pos(1, 0, 0));
    hide Corner.Places, Corner.Distinct, NoDup;
    AllOnFloor(w.Start(), 0, w.Ids());
  }

  lemma {:induction false} CornerAlone(w: Corner, root: map<RoomId, RoomId>)
    requires CornerClasses(w, root)
    ensures w.west in w.Ids() && forall x, y :: x in root && y in root && root[x] == root[y] && root[x] != root[w.west] ==> x == y
  {
  }

  /** With no two rooms in one class but the first's. */
  lemma {:induction false} SingleGroups(r: Layout, root: map<RoomId, RoomId>, g: Groups, ids: seq<RoomId>, group: seq<RoomId>, first: RoomId)
    requires GroupsOk(r, 0, root, g) && InClasses(root, g, FloorRooms(r, 0)) && FloorRooms(r, 0) == ids && first in ids && first in root
    requires ClassIn(root, root[first], ids) == group
    requires forall x, y :: x in root && y in root && root[x] == root[y] && root[x] != root[first] ==> x == y
    ensures root[first] in g.roots && root[first] in g.members && g.members[root[first]] == group
    ensures forall j, x, y :: j in g.members && j != root[first] && x in g.members[j] && y in g.members[j] ==> x == y
  {
    hide GroupsOk, InClasses, FloorRooms, ClassIn;
    GroupOf(r, 0, root, g, ids, first);
    forall j, x, y | j in g.members && j != root[first] && x in g.members[j] && y in g.members[j] ensures x == y {
      assert x in root && root[x] == j && y in root && root[y] == j;
    }
  }

  /** The eastern room drags nobody along. */
  lemma {:induction false} CornerReaches(w: Corner, root: map<RoomId, RoomId>, x: RoomId)
    requires w.Distinct()
    ensures Reached(DragForces(w.Map(), EastWest, root, root[w.west]), w.east, x) <==> x == w.east
    requires w.west in root
  {
    var zone := w.Map();
    var forces := DragForces(zone, EastWest, root, root[w.west]);
    zone.InFromMembers(zone.ids, w.east);
    hide Corner.Map, Zone.Out;
    forall y ensures !Dragged(zone, EastWest, root, root[w.west], w.east, y) {
      forall e | e in zone.Out(w.east) && NorthSouth.Includes(e.dir) ensures false {
        OutFrom(zone, w.east, e);
        CornerEdges(w, e);
      }
      forall e | e in zone.In(w.east) && NorthSouth.Includes(e.dir) ensures false { CornerEdges(w, e); }
    }
    hide Dragged;
    var s := [w.east];
    assert Closed(forces, w.east, s) && Least(forces, w.east, s);
    ReachedIsMember(forces, w.east, s);
  }

  lemma {:induction false} CornerStands(w: Corner)
    requires w.Distinct()
    ensures var at := w.Start().at; w.west in at && w.east in at && at[w.west] == Pos(0, 0, 0) && at[w.east] == Pos(1, 1, 0)
  {
    CornerPlaces(w, Pos(1, 1, 0), Pos(1, 0, 0));
    hide Corner.Places, Corner.Distinct, NoDup;
  }

  lemma {:induction false} CornerBatched(w: Corner, root: map<RoomId, RoomId>)
    requires w.Distinct() && CornerClasses(w, root)
    ensures Batched(w.Map(), w.Start(), EastWest, root, root[w.west], w.Group(), 0, 2, w.Shift())
  {
    var zone, r, k, group := w.Map(), w.Start(), root[w.west], w.Group();
    CornerStands(w);
    forall x ensures Reached(DragForces(zone, EastWest, root, k), w.east, x) <==> x == w.east { CornerReaches(w, root, x); }
    hide Corner.Map, Corner.Start, DragForces, Reached, CornerClasses, Corner.Distinct;
    forall j, id ensures Leads(zone, r, EastWest, root, k, group, 0, j, id) <==> j == 1 && id == w.east { }
    hide Leads;
    assert LeadsFirst(zone, r, EastWest, root, k, group, 0, 1, w.east);
  }

  lemma {:induction false} CornerIsTried(w: Corner, root: map<RoomId, RoomId>)
    requires w.Distinct() && CornerClasses(w, root)
    ensures Tries(w.Map(), w.Start(), 0, EastWest, root, root[w.west], w.Group(), Trial(0, w.Shift())) && Apart(w.Start(), EastWest, w.Shift().ids)
  {
    CornerStands(w);
    CornerBatched(w, root);
    CornerMode(w.Start(), w.west, w.east);
    OneIsDistinct(w.east);
    hide Corner.Map, Corner.Start, CornerClasses, FirstMode, Batched, Corner.Distinct, NoDup;
    assert FirstOutlier(w.Start(), EastWest, w.Group(), 0, 1);
  }

  lemma OneIsDistinct(id: RoomId)
    ensures NoDup([id])
  {
  }

  lemma {:induction false} CornerMode(r: Layout, a: RoomId, b: RoomId)
    requires a in r.at && b in r.at && r.at[a].y == 0 && r.at[b].y == 1
    ensures FirstMode(r, EastWest, [a, b], 0)
  {
    var group := [a, b];
    assert group[..0] == [] && group[..2] == group && CountOf(r, EastWest, [], 0) == 0;
    forall c ensures CountOf(r, EastWest, group, c) == if c == 0 || c == 1 then 1 else 0 {
      CountStep(r, EastWest, group, 0, c);
      CountStep(r, EastWest, group, 1, c);
    }
    hide CountOf;
    assert Coord(r, EastWest, group[0]) == 0;
  }

  /** The other room makes way to the north. */
  lemma {:induction false} CornerShifted(w: Corner)
    requires w.Distinct() && Shiftable(w.Start(), 0, w.Shift())
    ensures Outcome(w.Start(), w.Occupied(), 0, EastWest, w.Shift()).r == w.End()
  {
    var r, batch, to := w.Start(), w.Shift(), Targets(w.Start(), EastWest, w.Shift());
    CornerRaised(w);
    CornerTarget(w);
    var s := Raised(r, w.Occupied(), batch);
    CornerPushed(w, s);
    InsertStep(r, EastWest, -1, w.east, w.east, []);
    SortStep(r, EastWest, -1, w.east, []);
    assert [w.east] + [] == [w.east];
    hide Raised, Push, PushAll, FirstAt, SortByCoord, Targets, Corner.Start, Corner.End, Corner.Distinct;
    PushAllEnds(s, 0, EastWest, -1, [w.east], to);
    PushAllStep(s, 0, EastWest, -1, [w.east], 0, to);
    PushAllEnds(Push(s, 0, EastWest, -1, w.east, Cell(1, 0)), 0, EastWest, -1, [w.east], to);
  }

  lemma {:induction false} CornerTarget(w: Corner)
    requires w.Distinct()
    ensures var to := Targets(w.Start(), EastWest, w.Shift()); w.east in w.Start().at && w.east in to && to[w.east] == Cell(1, 0)
  {
    CornerPlaces(w, Pos(1, 1, 0), Pos(1, 0, 0));
    hide Corner.Places, Corner.Distinct, NoDup;
  }

  lemma {:induction false} CornerPushed(w: Corner, s: Half)
    requires w.Distinct() && s.r == w.Start() && s.cells == {Cell(0, 0), Cell(1, 0), Cell(5, -1)}
    ensures Push(s, 0, EastWest, -1, w.east, Cell(1, 0)).r == w.End()
  {
    CornerFinds(w);
    CornerPut(w, Pos(1, 1, 0), Pos(1, 0, 0), Pos(1, -1, 0));
    CornerPut(w, Pos(1, 1, 0), Pos(1, -1, 0), Pos(1, 0, 0));
    hide Push, FirstAt, Corner.Moved, Corner.Distinct;
    PushesOn(s, -1, w.east, Cell(1, 0), w.cellar, Cell(1, -1));
  }

  lemma {:induction false} CornerRaised(w: Corner)
    requires w.Distinct()
    ensures Raised(w.Start(), w.Occupied(), w.Shift()).r == w.Start()
    ensures Raised(w.Start(), w.Occupied(), w.Shift()).cells == {Cell(0, 0), Cell(1, 0), Cell(5, -1)}
  {
    var home := BatchHome(w.Start(), w.Shift());
    CornerPlaces(w, Pos(1, 1, 0), Pos(1, 0, 0));
    hide Corner.Places, Corner.Distinct, NoDup;
    assert forall id :: id in home <==> id == w.east;
    assert w.east in home && home[w.east] == Cell(1, 1);
    assert forall c :: c in Cells(home) <==> c == Cell(1, 1);
  }

  lemma {:induction false} CornerFinds(w: Corner)
    requires w.Distinct()
    ensures FirstAt(w.Start(), 0, Cell(1, 0), w.east) == Some(w.cellar)
  {
    var r := w.Start();
    CornerPlaces(w, Pos(1, 1, 0), Pos(1, 0, 0));
    hide Corner.Places;
    FirstOfStep(r, 0, Cell(1, 0), w.east, r.order, 0);
    FirstOfStep(r, 0, Cell(1, 0), w.east, r.order, 1);
    FirstOfStep(r, 0, Cell(1, 0), w.east, r.order, 2);
    hide FirstOf;
  }

  lemma {:induction false} CornerOutcome(w: Corner, root: map<RoomId, RoomId>, t: Trial)
    requires w.Distinct() && CornerClasses(w, root) && Tries(w.Map(), w.Start(), 0, EastWest, root, root[w.west], w.Group(), t)
    ensures Shiftable(w.Start(), 0, t.batch) && Outcome(w.Start(), w.Occupied(), 0, EastWest, t.batch).r == w.End()
  {
    CornerIsTried(w, root);
    TriedIsShiftable(w.Map(), w.Start(), 0, EastWest, root, root[w.west], w.Group(), t);
    TriedIsShiftable(w.Map(), w.Start(), 0, EastWest, root, root[w.west], w.Group(), Trial(0, w.Shift()));
    CornerShifted(w);
    hide Corner.Start, Corner.End, Corner.Map, Corner.Shift, Corner.Group, Corner.Occupied, Corner.Distinct, CornerClasses, Tries, Shiftable, Outcome, Apart;
    TrialUnique(w.Map(), w.Start(), w.Occupied(), 0, EastWest, root, root[w.west], w.Group(), Trial(0, w.Shift()), t);
  }

  lemma {:induction false} CornerStraightened(w: Corner)
    requires w.Distinct()
    ensures !Aligned(w.Start(), EastWest, w.Group()) && Aligned(w.End(), EastWest, w.Group())
  {
    CornerPlaces(w, Pos(1, 1, 0), Pos(1, 0, 0));
    CornerPlaces(w, Pos(1, 0, 0), Pos(1, -1, 0));
    hide Corner.Places;
    assert w.west in w.Group() && w.east in w.Group();
  }

  lemma {:induction false} SingleIsAligned(r: Layout, axis: Axis, group: seq<RoomId>)
    requires forall x, y :: x in group && y in group ==> x == y
    ensures Aligned(r, axis, group)
  {
  }

  lemma {:induction false} CornerIsLone(w: Corner, root: map<RoomId, RoomId>, g: Groups)
    requires w.Distinct() && CornerClasses(w, root) && GroupsOk(w.Start(), 0, root, g) && InClasses(root, g, FloorRooms(w.Start(), 0))
    ensures LoneGroup(w.Map(), 0, EastWest, root, g, root[w.west], State(w.Start(), map[0 := w.Occupied()]), w.End())
  {
    var k := root[w.west];
    CornerMembers(w, root, g);
    CornerStraightened(w);
    hide Corner.Start, Corner.Map, Corner.Shift, Corner.Group, Corner.End, Corner.Occupied, Corner.Distinct, CornerClasses, GroupsOk, InClasses, Tries, Shiftable, Outcome, Aligned;
    forall t | Tries(w.Map(), w.Start(), 0, EastWest, root, k, w.Group(), t)
      ensures Shiftable(w.Start(), 0, t.batch) && Outcome(w.Start(), w.Occupied(), 0, EastWest, t.batch).r == w.End()
    {
      CornerOutcome(w, root, t);
    }
    forall j | j in g.members && j != k ensures Aligned(w.Start(), EastWest, g.members[j]) && Aligned(w.End(), EastWest, g.members[j]) {
      SingleIsAligned(w.Start(), EastWest, g.members[j]);
      SingleIsAligned(w.End(), EastWest, g.members[j]);
    }
  }

  lemma {:induction false} CornerAligned(w: Corner, how: Alignment, s': State)
    requires w.Distinct() && AxisAligned(w.Map(), 0, EastWest, w.Start(), map[0 := w.Occupied()], how, s'.r, s'.occ)
    ensures s'.r == w.End()
  {
    AlignedGroups(w.Map(), 0, EastWest, w.Start(), map[0 := w.Occupied()], how, s');
    CornerAgrees(w);
    hide AxisAligned, Classes, GroupsOk, InClasses, LoneGroup, Corner.End, Corner.Start, Corner.Map, Corner.Occupied, CornerClasses, Agrees, ReadyState;
    CornerIsClassed(w, how.root);
    CornerIsLone(w, how.root, how.g);
    LoneAligned(w.Map(), 0, EastWest, State(w.Start(), map[0 := w.Occupied()]), s', how, how.root[w.west], w.End());
  }

  lemma {:induction false} CornerTotal(w: Corner, f: Edge -> int)
    requires w.Distinct()
    ensures Total(w.Map(), w.Ids(), f) == f(Edge(w.west, East, w.east)) + f(Edge(w.cellar, North, w.tower))
  {
    var zone := w.Map();
    CornerOut(w);
    hide Zone.Out, Corner.Map, Corner.Distinct, Sum;
    Guards.SumThree(w.east, w.cellar, w.tower, RowFn(zone, f));
    Guards.SumCons(w.west, [w.east, w.cellar, w.tower], RowFn(zone, f));
    assert [w.west] + [w.east, w.cellar, w.tower] == w.Ids();
    Guards.SumTwo(Edge(w.west, East, w.east), Edge(w.west, East, w.east), f);
    Guards.SumTwo(Edge(w.cellar, North, w.tower), Edge(w.cellar, North, w.tower), f);
    Guards.SumNone(f);
  }

  /** Before, both exits are diagonal; afterwards one of them points the wrong way. */
  lemma {:induction false} CornerScores(w: Corner)
    requires w.Distinct()
    ensures Score(w.Map(), w.Start(), 0, LIGHT) == 45 && Score(w.Map(), w.End(), 0, LIGHT) == 53
  {
    CornerTotal(w, CostFn(w.Start(), Snapshot(w.Start(), 0), 0, LIGHT));
    CornerTotal(w, CostFn(w.End(), Snapshot(w.End(), 0), 0, LIGHT));
    CornerCosts(w);
    hide Total, CostFn, Corner.Places, Corner.Map, Snapshot, ExitCost;
    CostIs(w.Start(), Snapshot(w.Start(), 0), Edge(w.west, East, w.east));
    CostIs(w.Start(), Snapshot(w.Start(), 0), Edge(w.cellar, North, w.tower));
    CostIs(w.End(), Snapshot(w.End(), 0), Edge(w.west, East, w.east));
    CostIs(w.End(), Snapshot(w.End(), 0), Edge(w.cellar, North, w.tower));
  }

  lemma CostIs(r: Layout, zPositions: seq<Placed>, e: Edge)
    ensures CostFn(r, zPositions, 0, LIGHT)(e) == ExitCost(r, zPositions, 0, LIGHT, e)
  {
  }

  lemma {:induction false} CornerCosts(w: Corner)
    requires w.Distinct()
    ensures ExitCost(w.Start(), Snapshot(w.Start(), 0), 0, LIGHT, Edge(w.west, East, w.east)) == 21
    ensures ExitCost(w.Start(), Snapshot(w.Start(), 0), 0, LIGHT, Edge(w.cellar, North, w.tower)) == 24
    ensures ExitCost(w.End(), Snapshot(w.End(), 0), 0, LIGHT, Edge(w.west, East, w.east)) == 0
    ensures ExitCost(w.End(), Snapshot(w.End(), 0), 0, LIGHT, Edge(w.cellar, North, w.tower)) == 53
  {
    CornerPlaces(w, Pos(1, 1, 0), Pos(1, 0, 0));
    CornerPlaces(w, Pos(1, 0, 0), Pos(1, -1, 0));
    CornerClear(w);
    hide Corner.Places, Snapshot, Blockers, Corner.Distinct, NoDup;
  }

  /** Nobody stands between the two. */
  lemma {:induction false} CornerClear(w: Corner)
    requires w.Distinct()
    ensures Blockers(Snapshot(w.End(), 0), Edge(w.cellar, North, w.tower), Pos(1, -1, 0), Pos(5, -1, 0)) == 0
  {
    var r := w.End();
    CornerPlaces(w, Pos(1, 0, 0), Pos(1, -1, 0));
    SnapshotMembers(r, 0, r.order);
    BlockersNonneg(Snapshot(r, 0), Edge(w.cellar, North, w.tower), Pos(1, -1, 0), Pos(5, -1, 0));
    hide Corner.Places, Blockers, SnapshotOf, Corner.Distinct, NoDup;
    forall o | o in Snapshot(r, 0) ensures !Blocks(Edge(w.cellar, North, w.tower), Pos(1, -1, 0), Pos(5, -1, 0), o) {
      assert o.id in r.at && o.cell == r.at[o.id].AtCell();
    }
  }

  /** Aligning the rows of that floor raises its layout score. */
  method AlignCorner(w: Corner, R: nat) returns (b: Board)
    requires w.Distinct()
    ensures fresh(b) && b.zone == w.Map() && b.result == w.End() && Agrees(w.Start(), map[0 := w.Occupied()])
    ensures Score(b.zone, w.Start(), 0, LIGHT) == 45 && Score(b.zone, b.result, 0, LIGHT) == 53
  {
    CornerAgrees(w);
    CornerScores(w);
    hide Agrees, Corner.Start, Corner.End, Corner.Occupied, Corner.Map, Corner.Distinct, ReadyState, AxisAligned, Score;
    ghost var how;
    b, how := AlignOneFloor(w.Map(), R, w.Start(), w.Occupied());
    CornerAligned(w, how, State(b.result, b.occupied));
  }
}
