/** Phases 5e and 9: resolving a crossing by opening a row or column next to one of its edges
    and moving the other edge's alignment group into it. */
module Insertions {
  import opened Sums
  import opened Zones
  import opened Boards
  import opened Scores
  import opened Guards
  import opened Segments
  import opened Isomorphism
  import opened AxisGroups
  import Align
  import Crossings
  import Relax

  const INSERTION_FIX_PASSES := 20

  /** The axis whose groups move into the gap: rows move for a new row, columns for a new column. */
  function GroupAxis(s: Insertion): Axis {
    if s.onX then NorthSouth else EastWest
  }

  // ---- Step 1: the partition shift ----

  predicate Beyond(r: Layout, z: int, s: Insertion, id: RoomId) {
    r.On(id, z) && s.Shifts(if s.onX then r.at[id].x else r.at[id].y)
  }

  function ToShift(r: Layout, z: int, s: Insertion, ids: seq<RoomId>): (t: seq<RoomId>)
    ensures forall id :: id in t <==> id in ids && Beyond(r, z, s, id)
  {
    if ids == [] then []
    else
      var rest := ToShift(r, z, s, ids[1..]);
      assert forall id :: id in ids <==> id == ids[0] || id in ids[1..];
      (if Beyond(r, z, s, ids[0]) then [ids[0]] else []) + rest
  }

  function ShiftTo(r: Layout, z: int, s: Insertion): map<RoomId, Cell> {
    map id | id in r.at && Beyond(r, z, s, id) :: s.ApplyCell(r.at[id].AtCell())
  }

  /** Moving the rooms beyond the boundary is the insertion, and they only take cells free by then. */
  lemma ShiftIsInsertion(r: Layout, occ: Occupancy, z: int, s: Insertion)
    requires r.Valid() && z in occ
    ensures OnFloor(r, z, ShiftTo(r, z, s)) && Applied(r, z, ShiftTo(r, z, s)) == Shifted(r, z, s)
    ensures Agrees(r, occ) ==> Fits(r, occ[z], ShiftTo(r, z, s))
  {
    var to := ShiftTo(r, z, s);
    assert Applied(r, z, to).at == Shifted(r, z, s).at;
    if Agrees(r, occ) {
      forall a, b | a in to && b in to && a != b ensures to[a] != to[b] {
        assert r.at[a] != r.at[b];
        s.Monotone(r.at[a].x, r.at[b].x);
        s.Monotone(r.at[a].y, r.at[b].y);
        s.Monotone(r.at[b].x, r.at[a].x);
        s.Monotone(r.at[b].y, r.at[a].y);
      }
      forall id | id in to && to[id] in occ[z] ensures to[id] in Cells(Home(r, to)) {
        assert Taken(r, z, to[id]);
        var m :| m in r.at && r.at[m] == At(to[id], z);
        assert Beyond(r, z, s, m);
        InHome(r, to, m);
      }
    }
  }

  // ---- Step 2: the group moves into the gap ----

  function IntoGap(r: Layout, s: Insertion, group: seq<RoomId>): map<RoomId, Cell> {
    map id | id in group && id in r.at :: if s.onX then Cell(s.Gap(), r.at[id].y) else Cell(r.at[id].x, s.Gap())
  }

  /** The layout after both steps. */
  function Inserted(r: Layout, z: int, s: Insertion, group: seq<RoomId>): Layout {
    var r1 := Shifted(r, z, s);
    Applied(r1, z, IntoGap(r1, s, group))
  }

  /** No two rooms of the group share their coordinate on the other axis. */
  ghost predicate Spread(r: Layout, axis: Axis, group: seq<RoomId>) {
    forall a, b :: a in group && b in group && a != b && a in r.at && b in r.at ==>
      Align.Coord(r, axis.Other(), a) != Align.Coord(r, axis.Other(), b)
  }

  /** Into an empty row or column the group fits exactly when it is spread. */
  lemma GapMove(r: Layout, occ: Occupancy, z: int, s: Insertion, group: seq<RoomId>)
    requires r.Valid() && z in occ && Agrees(r, occ) && (forall id :: id in group ==> r.On(id, z))
    requires forall id :: r.On(id, z) ==> (if s.onX then r.at[id].x else r.at[id].y) != s.Gap()
    ensures var to := IntoGap(r, s, group);
            Agrees(Applied(r, z, to), Vacated(occ, z, Cells(Home(r, to)), Cells(to))) <==> Spread(r, GroupAxis(s), group)
  {
    var to := IntoGap(r, s, group);
    var r' := Applied(r, z, to);
    if Spread(r, GroupAxis(s), group) {
      GapIsFree(r, occ, z, s, group);
      hide Agrees, Fits, Spread;
      AppliedAgrees(r, occ, z, to);
    } else {
      hide Exact;
      var a, b :| a in group && b in group && a != b && a in r.at && b in r.at
                  && Align.Coord(r, GroupAxis(s).Other(), a) == Align.Coord(r, GroupAxis(s).Other(), b);
      assert r'.at[a] == r'.at[b];
    }
  }

  /** Two rooms side by side, though one exit says that the second is south of the first. */
  function Sideways(a: RoomId, b: RoomId): Zone { Zone([a, b], map[a := [Exit(South, b)], b := []]) }

  function SidewaysPlaces(a: RoomId, b: RoomId): Layout { Layout([a, b], map[a := Pos(0, 0, 0), b := Pos(1, 0, 0)]) }

  const NEW_COLUMN := Insertion(true, false, 5)

  lemma {:induction false} SidewaysAdjacent(a: RoomId, b: RoomId)
    requires a != b
    ensures var zone, r := Sideways(a, b), SidewaysPlaces(a, b);
            && Adjacent(zone, r, 0, NorthSouth, a, b)
            && forall x, y :: Adjacent(zone, r, 0, NorthSouth, x, y) ==> (x == a || x == b) && (y == a || y == b)
  {
    var zone, r := Sideways(a, b), SidewaysPlaces(a, b);
    var e := Edge(a, South, b);
    AllOutMembers(zone, zone.ids);
    OutMembers(a, zone.ExitsOf(a));
    assert Exit(South, b) in zone.ExitsOf(a) && e in zone.Out(a);
    assert e in AllEdges(zone) && Joins(r, 0, NorthSouth, e);
  }

  lemma {:induction false} SidewaysGroup(a: RoomId, b: RoomId)
    requires a != b
    ensures IsGroup(Sideways(a, b), SidewaysPlaces(a, b), 0, NorthSouth, a, [a, b])
  {
    var zone, r := Sideways(a, b), SidewaysPlaces(a, b);
    SidewaysAdjacent(a, b);
    assert r.On(a, 0) && r.On(b, 0);
    hide Adjacent, Connected, Sideways, SidewaysPlaces;
    ConnectedStep(zone, r, 0, NorthSouth, a, b);
    ConnectedRefl(zone, r, 0, NorthSouth, a);
    forall x ensures x in [a, b] <==> Connected(zone, r, 0, NorthSouth, a, x) {
      if Connected(zone, r, 0, NorthSouth, a, x) { ConnectedInvariant(zone, r, 0, NorthSouth, a, x, y => y == a || y == b); }
    }
  }

  /** A group that is not spread: moved into a new column, its two rooms land on one cell. */
  lemma {:induction false} GroupsCanOverlap(a: RoomId, b: RoomId)
    requires a != b
    ensures var zone, r := Sideways(a, b), SidewaysPlaces(a, b);
            && r.Valid() && NoOverlap(r) && IsGroup(zone, Shifted(r, 0, NEW_COLUMN), 0, GroupAxis(NEW_COLUMN), a, [a, b])
            && !NoOverlap(Inserted(r, 0, NEW_COLUMN, [a, b]))
  {
    var zone, r := Sideways(a, b), SidewaysPlaces(a, b);
    assert Shifted(r, 0, NEW_COLUMN).at == r.at;
    SidewaysGroup(a, b);
    hide IsGroup, Sideways;
    var r' := Inserted(r, 0, NEW_COLUMN, [a, b]);
    assert a in r'.at && b in r'.at && r'.at[a] == r'.at[b];
  }

  lemma GapIsFree(r: Layout, occ: Occupancy, z: int, s: Insertion, group: seq<RoomId>)
    requires r.Valid() && z in occ && Agrees(r, occ) && (forall id :: id in group ==> r.On(id, z)) && Spread(r, GroupAxis(s), group)
    requires forall id :: r.On(id, z) ==> (if s.onX then r.at[id].x else r.at[id].y) != s.Gap()
    ensures Fits(r, occ[z], IntoGap(r, s, group)) && OnFloor(r, z, IntoGap(r, s, group))
  {
    GapCellsFree(r, occ, z, s);
    hide Exact, NoOverlap, Home;
  }

  lemma GapCellsFree(r: Layout, occ: Occupancy, z: int, s: Insertion)
    requires z in occ && Exact(r, occ)
    requires forall id :: r.On(id, z) ==> (if s.onX then r.at[id].x else r.at[id].y) != s.Gap()
    ensures forall c :: c in occ[z] ==> (if s.onX then c.x else c.y) != s.Gap()
  {
    forall c | c in occ[z] ensures (if s.onX then c.x else c.y) != s.Gap() {
      assert Taken(r, z, c);
      var id :| id in r.at && r.at[id] == At(c, z);
      assert r.On(id, z);
    }
  }

  // ---- Straight floors ----

  /** The exit keeps to a row or column if it is cardinal. */
  predicate StraightEdge(r: Layout, e: Edge)
    requires e.from in r.at && e.to in r.at
  {
    (EastWest.Includes(e.dir) ==> r.at[e.from].y == r.at[e.to].y) && (NorthSouth.Includes(e.dir) ==> r.at[e.from].x == r.at[e.to].x)
  }

  /** Every cardinal exit between rooms of the floor keeps its row or column. */
  ghost predicate Straightened(zone: Zone, r: Layout, z: int) {
    forall e: Edge :: e in AllEdges(zone) && BothOn(r, z, e) ==> StraightEdge(r, e)
  }

  /** It says the same of both axes at once. */
  lemma StraightenedIff(zone: Zone, r: Layout, z: int)
    ensures Straightened(zone, r, z) <==> Align.AxisStraight(zone, r, z, EastWest) && Align.AxisStraight(zone, r, z, NorthSouth)
  {
    if Straightened(zone, r, z) {
      forall axis: Axis ensures Align.AxisStraight(zone, r, z, axis) {
        forall a, b | Adjacent(zone, r, z, axis, a, b) && a in r.at && b in r.at
          ensures Align.Coord(r, axis, a) == Align.Coord(r, axis, b)
        {
          var e :| e in AllEdges(zone) && Joins(r, z, axis, e) && ((e.from == a && e.to == b) || (e.from == b && e.to == a));
          assert BothOn(r, z, e);
        }
      }
    }
    if Align.AxisStraight(zone, r, z, EastWest) && Align.AxisStraight(zone, r, z, NorthSouth) {
      forall e: Edge | e in AllEdges(zone) && BothOn(r, z, e)
        ensures (EastWest.Includes(e.dir) ==> r.at[e.from].y == r.at[e.to].y) && (NorthSouth.Includes(e.dir) ==> r.at[e.from].x == r.at[e.to].x)
      {
        if EastWest.Includes(e.dir) { assert Adjacent(zone, r, z, EastWest, e.from, e.to); }
        if NorthSouth.Includes(e.dir) { assert Adjacent(zone, r, z, NorthSouth, e.from, e.to); }
      }
    }
  }

  /** The group is what the breadth-first search finds from the seed after the shift. */
  ghost predicate IsGroup(zone: Zone, r1: Layout, z: int, axis: Axis, seed: RoomId, group: seq<RoomId>) {
    && NoDup(group) && seed in group
    && (forall x :: x in group <==> Connected(zone, r1, z, axis, seed, x))
    && (forall x :: x in group ==> r1.On(x, z))
  }

  /** An exit of the axis has both ends in the group or neither. */
  lemma GroupClosed(zone: Zone, r1: Layout, z: int, axis: Axis, seed: RoomId, group: seq<RoomId>, e: Edge)
    requires IsGroup(zone, r1, z, axis, seed, group) && e in AllEdges(zone) && Joins(r1, z, axis, e)
    ensures e.from in group <==> e.to in group
  {
    assert Adjacent(zone, r1, z, axis, e.from, e.to);
    AdjacentSym(zone, r1, z, axis, e.from, e.to);
    hide Connected, Adjacent;
    ConnectedStep(zone, r1, z, axis, e.from, e.to);
    ConnectedStep(zone, r1, z, axis, e.to, e.from);
    if e.from in group { ConnectedTrans(zone, r1, z, axis, seed, e.from, e.to); }
    if e.to in group { ConnectedTrans(zone, r1, z, axis, seed, e.to, e.from); }
  }

  /** An exit with both ends in the group or neither, or across the group's axis, stays straight. */
  lemma InsertedEdge(r: Layout, z: int, s: Insertion, group: seq<RoomId>, e: Edge)
    requires r.Valid() && BothOn(r, z, e) && StraightEdge(r, e)
    requires GroupAxis(s).Includes(e.dir) ==> (e.from in group <==> e.to in group)
    ensures BothOn(Inserted(r, z, s, group), z, e) && StraightEdge(Inserted(r, z, s, group), e)
  {
  }

  /** Insertion keeps a straight floor straight. */
  lemma InsertedStraight(zone: Zone, r: Layout, z: int, s: Insertion, seed: RoomId, group: seq<RoomId>)
    requires r.Valid() && Straightened(zone, r, z) && IsGroup(zone, Shifted(r, z, s), z, GroupAxis(s), seed, group)
    ensures Straightened(zone, Inserted(r, z, s, group), z)
  {
    var r1, r', axis := Shifted(r, z, s), Inserted(r, z, s, group), GroupAxis(s);
    InsertedOn(r, z, s, group);
    forall e: Edge | e in AllEdges(zone) && BothOn(r', z, e) ensures StraightEdge(r', e) {
      hide Inserted, Shifted, IsGroup;
      assert BothOn(r, z, e) && BothOn(r1, z, e);
      if axis.Includes(e.dir) { GroupClosed(zone, r1, z, axis, seed, group, e); }
      InsertedEdge(r, z, s, group, e);
    }
  }

  lemma InsertedOn(r: Layout, z: int, s: Insertion, group: seq<RoomId>)
    requires forall x :: x in group ==> Shifted(r, z, s).On(x, z)
    ensures Inserted(r, z, s, group).order == r.order
    ensures forall id, y :: Inserted(r, z, s, group).On(id, y) <==> r.On(id, y)
    ensures forall id, y :: Shifted(r, z, s).On(id, y) <==> r.On(id, y)
  {
  }

  /** On a straight floor without overlap the group is always spread. */
  lemma StraightIsSpread(zone: Zone, r1: Layout, z: int, axis: Axis, seed: RoomId, group: seq<RoomId>)
    requires Straightened(zone, r1, z) && IsGroup(zone, r1, z, axis, seed, group) && NoOverlap(r1)
    ensures Spread(r1, axis, group)
  {
    var f := (id: RoomId) => if id in r1.at then Some(Align.Coord(r1, axis, id)) else None;
    StraightenedIff(zone, r1, z);
    forall a, b | Adjacent(zone, r1, z, axis, a, b) ensures f(a) == f(b) { AdjacentOn(zone, r1, z, axis, a, b); }
    forall a, b | a in group && b in group && a != b && a in r1.at && b in r1.at
      ensures Align.Coord(r1, axis.Other(), a) != Align.Coord(r1, axis.Other(), b)
    {
      ConnectedInvariant(zone, r1, z, axis, seed, a, f);
      ConnectedInvariant(zone, r1, z, axis, seed, b, f);
      assert r1.at[a] != r1.at[b];
    }
  }

  lemma ShiftedStraight(zone: Zone, r: Layout, z: int, s: Insertion)
    requires r.Valid() && Straightened(zone, r, z)
    ensures Straightened(zone, Shifted(r, z, s), z)
  {
  }

  // ---- Step 3a: diagonals ----

  predicate GroupDiag(zone: Zone, r: Layout, z: int, group: seq<RoomId>) {
    exists id :: id in group && id in r.at && Crossings.CreatesDiag(zone, r, z, id, r.at[id].AtCell())
  }

  lemma GuardedExit(zone: Zone, r: Layout, z: int, group: seq<RoomId>, e: Edge)
    requires zone.Valid() && e.from in zone.ids && e in zone.Out(e.from) && BothOn(r, z, e) && !GroupDiag(zone, r, z, group)
    ensures e.from in group || e.to in group ==> !Diagonal(r.at[e.from], r.at[e.to])
  {
    if e.from in group { assert !Crossings.CreatesDiag(zone, r, z, e.from, r.at[e.from].AtCell()); }
    if e.to in group {
      zone.InFromMembers(zone.ids, e.to);
      assert e in zone.In(e.to);
      assert !Crossings.CreatesDiag(zone, r, z, e.to, r.at[e.to].AtCell());
    }
  }

  /** With no diagonal at the moved group there are no more diagonals than before. */
  lemma InsertedDiagonals(zone: Zone, r: Layout, z: int, s: Insertion, group: seq<RoomId>)
    requires Whole(zone, r) && !GroupDiag(zone, Inserted(r, z, s, group), z, group)
    requires forall x :: x in group ==> Shifted(r, z, s).On(x, z)
    ensures Diagonals(zone, Inserted(r, z, s, group), z) <= Diagonals(zone, r, z)
  {
    var r1, r' := Shifted(r, z, s), Inserted(r, z, s, group);
    InsertionKeepsDirections(zone, r, z, s);
    InsertedOn(r, z, s, group);
    forall id, e | id in r.order && e in zone.Out(id) ensures DiagonalFn(r', z)(e) <= DiagonalFn(r1, z)(e) {
      hide GroupDiag, Shifted;
      OutMembers(id, zone.ExitsOf(id));
      if BothOn(r', z, e) { GuardedExit(zone, r', z, group, e); }
    }
    TotalLe(zone, r.order, DiagonalFn(r', z), DiagonalFn(r1, z));
  }

  // ---- Step 3c: mismatches around the moved group ----

  /** Some exit, of any direction, leads from g to id, or a cardinal one from id to g. */
  ghost predicate Beside(zone: Zone, g: RoomId, id: RoomId) {
    || (exists x :: x in zone.ExitsOf(g) && x.target == id)
    || (exists e :: e in zone.In(g) && e.from == id)
  }

  ghost predicate Nearby(zone: Zone, r: Layout, z: int, group: seq<RoomId>, id: RoomId) {
    id in group || (r.On(id, z) && exists g :: g in group && Beside(zone, g, id))
  }

  method Neighbourhood(zone: Zone, r: Layout, z: int, group: seq<RoomId>) returns (ids: seq<RoomId>)
    requires NoDup(group)
    ensures NoDup(ids) && forall id :: id in ids <==> Nearby(zone, r, z, group, id)
  {
    hide Beside;
    ids := group;
    for i := 0 to |group|
      invariant NoDup(ids)
      invariant forall id :: id in ids <==> id in group || (r.On(id, z) && exists g :: g in group[..i] && Beside(zone, g, id))
    {
      ids := AdjoinBeside(zone, r, z, group[i], ids);
      TakeStep(group, i);
    }
    TakeAll(group);
  }

  method AdjoinBeside(zone: Zone, r: Layout, z: int, g: RoomId, start: seq<RoomId>) returns (ids: seq<RoomId>)
    requires NoDup(start)
    ensures NoDup(ids) && forall id :: id in ids <==> id in start || (r.On(id, z) && Beside(zone, g, id))
  {
    ids := start;
    var exits, back := zone.ExitsOf(g), zone.In(g);
    for j := 0 to |exits|
      invariant NoDup(ids)
      invariant forall id :: id in ids <==> id in start || (r.On(id, z) && exists x :: x in exits[..j] && x.target == id)
    {
      TakeStep(exits, j);
      if r.On(exits[j].target, z) { ids := Adjoin(ids, exits[j].target); }
    }
    TakeAll(exits);
    ghost var middle := ids;
    for j := 0 to |back|
      invariant NoDup(ids)
      invariant forall id :: id in ids <==> id in middle || (r.On(id, z) && exists e :: e in back[..j] && e.from == id)
    {
      TakeStep(back, j);
      if r.On(back[j].from, z) { ids := Adjoin(ids, back[j].from); }
    }
    TakeAll(back);
  }

  function LocalFn(zone: Zone, r: Layout, z: int): RoomId -> int {
    (id: RoomId) => if id in r.at then LocalMismatches(zone, r, z, map[], id, r.at[id].AtCell()) else 0
  }

  method SumMismatches(zone: Zone, r: Layout, z: int, ids: seq<RoomId>) returns (n: int)
    requires forall id :: id in ids ==> id in r.at
    ensures n == Sum(ids, LocalFn(zone, r, z))
  {
    n := 0;
    for i := 0 to |ids|
      invariant n == Sum(ids[..i], LocalFn(zone, r, z))
    {
      assert ids[i] in ids;
      n := n + LocalMismatches(zone, r, z, map[], ids[i], r.at[ids[i]].AtCell());
      TakeStep(ids, i);
      SumAppend(ids[..i], [ids[i]], LocalFn(zone, r, z));
    }
    TakeAll(ids);
  }

  /** Summed over target rooms, the exits into each add up to all the exits. */
  lemma {:induction false} SumByTarget(edges: seq<Edge>, ids: seq<RoomId>, f: Edge -> int, cols: RoomId -> int)
    requires NoDup(ids) && forall e :: e in edges && e.to !in ids ==> f(e) == 0
    requires forall id :: cols(id) == Sum(Into(edges, id), f)
    ensures Sum(ids, cols) == Sum(edges, f)
  {
    if edges == [] {
      SumZeros(ids, cols);
    } else {
      var e := edges[0];
      var rest := (id: RoomId) => Sum(Into(edges[1..], id), f);
      forall d | d in edges[1..] && d.to !in ids ensures f(d) == 0 { assert d in edges; }
      SumByTarget(edges[1..], ids, f, rest);
      forall id ensures cols(id) == rest(id) + if id == e.to then f(e) else 0 {
        var head := if e.to == id then [e] else [];
        SumAppend(head, Into(edges[1..], id), f);
        assert head != [] ==> head[1..] == [];
      }
      assert e in edges;
      if e.to in ids {
        SumPoint(ids, e.to, rest, cols);
      } else {
        SumEq(ids, rest, cols);
      }
    }
  }

  function InRow(zone: Zone, f: Edge -> int): RoomId -> int {
    (id: RoomId) => Sum(zone.In(id), f)
  }

  /** The exits from s into id, summed. */
  function FromTo(zone: Zone, f: Edge -> int): (RoomId, RoomId) -> int {
    (id: RoomId, s: RoomId) => Sum(Into(zone.Out(s), id), f)
  }

  lemma ByTarget(zone: Zone, f: Edge -> int, id: RoomId)
    ensures InRow(zone, f)(id) == Sum(zone.ids, Row(FromTo(zone, f), id))
  {
    InSum(zone, zone.ids, id, f);
    SumEq(zone.ids, IntoFn(zone, id, f), Row(FromTo(zone, f), id));
  }

  lemma BySource(zone: Zone, f: Edge -> int, s: RoomId)
    requires zone.Valid() && s in zone.ids && forall e :: e in zone.Out(s) && e.to !in zone.ids ==> f(e) == 0
    ensures RowFn(zone, f)(s) == Sum(zone.ids, Col(FromTo(zone, f), s))
  {
    SumByTarget(zone.Out(s), zone.ids, f, Col(FromTo(zone, f), s));
  }

  /** Every exit is counted once by its source and once by its target. */
  lemma InTotal(zone: Zone, f: Edge -> int)
    requires zone.Valid() && forall e :: e in AllEdges(zone) && e.to !in zone.ids ==> f(e) == 0
    ensures Sum(zone.ids, InRow(zone, f)) == Total(zone, zone.ids, f)
  {
    hide FromTo, InRow, RowFn;
    AllOutMembers(zone, zone.ids);
    forall id | id in zone.ids ensures InRow(zone, f)(id) == Sum(zone.ids, Row(FromTo(zone, f), id)) { ByTarget(zone, f, id); }
    forall s | s in zone.ids ensures RowFn(zone, f)(s) == Sum(zone.ids, Col(FromTo(zone, f), s)) {
      OutMembers(s, zone.ExitsOf(s));
      BySource(zone, f, s);
    }
    SumExchange(zone.ids, zone.ids, FromTo(zone, f), InRow(zone, f), RowFn(zone, f));
  }

  /** Where every exit with a change has both ends listed, the listed rooms see each change twice. */
  lemma SeenTwice(zone: Zone, ids: seq<RoomId>, d: Edge -> int)
    requires zone.Valid() && NoDup(ids)
    requires forall e :: e in AllEdges(zone) && d(e) != 0 ==> e.from in ids && e.to in ids && e.to in zone.ids
    requires forall id :: id in ids ==> id in zone.ids
    ensures Sum(ids, RowFn(zone, d)) + Sum(ids, InRow(zone, d)) == 2 * Total(zone, zone.ids, d)
  {
    AllOutMembers(zone, zone.ids);
    forall id | id in zone.ids && id !in ids ensures RowFn(zone, d)(id) == 0 && InRow(zone, d)(id) == 0 {
      OutMembers(id, zone.ExitsOf(id));
      zone.InFromMembers(zone.ids, id);
      SumZeros(zone.Out(id), d);
      SumZeros(zone.In(id), d);
    }
    SumSupport(ids, zone.ids, RowFn(zone, d));
    SumSupport(ids, zone.ids, InRow(zone, d));
    InTotal(zone, d);
  }

  /** A room's local count is that of its exits and of the exits into it. */
  lemma LocalIsRows(zone: Zone, r: Layout, z: int, id: RoomId)
    requires r.On(id, z)
    ensures LocalFn(zone, r, z)(id) == RowFn(zone, MismatchFn(r, z))(id) + InRow(zone, MismatchFn(r, z))(id)
  {
    OutMembers(id, zone.ExitsOf(id));
    zone.InFromMembers(zone.ids, id);
    var c := r.at[id].AtCell();
    SumEq(zone.Out(id), OutFn(r, z, map[], At(c, z)), MismatchFn(r, z));
    SumEq(zone.In(id), InFn(r, z, map[], At(c, z)), MismatchFn(r, z));
  }

  lemma LocalSum(zone: Zone, r: Layout, z: int, ids: seq<RoomId>)
    requires forall id :: id in ids ==> r.On(id, z)
    ensures Sum(ids, LocalFn(zone, r, z)) == Sum(ids, RowFn(zone, MismatchFn(r, z))) + Sum(ids, InRow(zone, MismatchFn(r, z)))
  {
    forall id | id in ids ensures LocalFn(zone, r, z)(id) == RowFn(zone, MismatchFn(r, z))(id) + InRow(zone, MismatchFn(r, z))(id) {
      LocalIsRows(zone, r, z, id);
    }
    SumPlus(ids, RowFn(zone, MismatchFn(r, z)), InRow(zone, MismatchFn(r, z)), LocalFn(zone, r, z));
  }

  /** An exit whose mismatch changes touches the group, so the neighbourhood holds both ends. */
  lemma ChangeIsNearby(zone: Zone, r: Layout, z: int, s: Insertion, group: seq<RoomId>, e: Edge)
    requires Whole(zone, r) && e in AllEdges(zone) && (forall x :: x in group ==> r.On(x, z))
    requires MismatchFn(Inserted(r, z, s, group), z)(e) != MismatchFn(r, z)(e)
    ensures var r' := Inserted(r, z, s, group);
            Nearby(zone, r', z, group, e.from) && Nearby(zone, r', z, group, e.to) && e.to in zone.ids
  {
    AllOutMembers(zone, zone.ids);
    OutMembers(e.from, zone.ExitsOf(e.from));
    zone.InFromMembers(zone.ids, e.to);
    assert BothOn(r, z, e);
    if e.from !in group && e.to !in group {
      DirectionIff(s, Off(e.dir), r.at[e.from], r.at[e.to]);
    } else if e.from in group {
      assert Exit(e.dir, e.to) in zone.ExitsOf(e.from) && Beside(zone, e.from, e.to);
    } else {
      assert e in zone.In(e.to) && Beside(zone, e.to, e.from);
    }
  }

  /** The local difference is twice the floor's difference. */
  lemma NeighbourhoodExact(zone: Zone, r: Layout, z: int, s: Insertion, group: seq<RoomId>, ids: seq<RoomId>)
    requires Whole(zone, r) && (forall x :: x in group ==> r.On(x, z)) && NoDup(ids)
    requires forall id :: id in ids <==> Nearby(zone, Inserted(r, z, s, group), z, group, id)
    ensures var r' := Inserted(r, z, s, group);
            Sum(ids, LocalFn(zone, r', z)) - Sum(ids, LocalFn(zone, r, z)) == 2 * (Mismatches(zone, r', z) - Mismatches(zone, r, z))
  {
    hide Inserted, Nearby, MismatchFn, Whole;
    var r' := Inserted(r, z, s, group);
    var f, f' := MismatchFn(r, z), MismatchFn(r', z);
    var d := Diff(f', f);
    NearbyPlaced(zone, r, z, s, group);
    LocalSum(zone, r, z, ids);
    LocalSum(zone, r', z, ids);
    forall e | e in AllEdges(zone) && d(e) != 0 ensures e.from in ids && e.to in ids && e.to in zone.ids {
      ChangeIsNearby(zone, r, z, s, group, e);
    }
    WholeParts(zone, r);
    SeenTwice(zone, ids, d);
    RowsOfDiff(zone, ids, f', f);
    TotalDiff(zone, r.order, f', f);
    TotalAnyOrder(zone, r.order, zone.ids, d);
  }

  lemma WholeParts(zone: Zone, r: Layout)
    requires Whole(zone, r)
    ensures zone.Valid() && NoDup(r.order) && NoDup(zone.ids) && forall id :: id in r.order <==> id in zone.ids
  {
  }

  lemma NearbyPlaced(zone: Zone, r: Layout, z: int, s: Insertion, group: seq<RoomId>)
    requires Whole(zone, r) && forall x :: x in group ==> r.On(x, z)
    ensures Inserted(r, z, s, group).order == r.order
    ensures forall id :: Nearby(zone, Inserted(r, z, s, group), z, group, id) ==>
      r.On(id, z) && Inserted(r, z, s, group).On(id, z) && id in zone.ids
  {
  }

  lemma RowsOfDiff(zone: Zone, ids: seq<RoomId>, f: Edge -> int, g: Edge -> int)
    ensures Sum(ids, RowFn(zone, Diff(f, g))) == Sum(ids, RowFn(zone, f)) - Sum(ids, RowFn(zone, g))
    ensures Sum(ids, InRow(zone, Diff(f, g))) == Sum(ids, InRow(zone, f)) - Sum(ids, InRow(zone, g))
  {
    forall id
      ensures RowFn(zone, Diff(f, g))(id) == RowFn(zone, f)(id) - RowFn(zone, g)(id)
      ensures InRow(zone, Diff(f, g))(id) == InRow(zone, f)(id) - InRow(zone, g)(id)
    {
      SumDiff(zone.Out(id), f, g);
      SumDiff(zone.In(id), f, g);
    }
    SumPlus(ids, RowFn(zone, Diff(f, g)), RowFn(zone, g), RowFn(zone, f));
    SumPlus(ids, InRow(zone, Diff(f, g)), InRow(zone, g), InRow(zone, f));
  }

  // ---- One candidate ----

  /** Floor z as it was in r0, the other floors as they are. */
  function Restored(r: Layout, r0: Layout, z: int): Layout {
    Layout(r.order, map id | id in r.at :: if r0.On(id, z) then r0.at[id] else r.at[id])
  }

  /** When only that floor differs, restoring it gives back the whole layout. */
  lemma RestoredAll(r: Layout, r0: Layout, z: int)
    requires SameFloors(r0, r) && forall id :: id in r0.at && r0.at[id].z != z ==> r.at[id] == r0.at[id]
    ensures Restored(r, r0, z) == r0
  {
    assert Restored(r, r0, z).at == r0.at;
  }

  /** Write the cells of a snapshot back. */
  method RestoreFloor(b: Board, z: int, snapshot: seq<Placed>, ghost r0: Layout)
    requires r0.Valid() && snapshot == Snapshot(r0, z) && SameFloors(r0, b.result)
    modifies b`result
    ensures b.result == Restored(old(b.result), r0, z)
  {
    ghost var start := b.result;
    SnapshotMembers(r0, z, r0.order);
    for i := 0 to |snapshot|
      invariant b.result.order == r0.order && b.result.at.Keys == r0.at.Keys
      invariant forall j :: 0 <= j < i ==> snapshot[j].id in r0.at && b.result.at[snapshot[j].id] == r0.at[snapshot[j].id]
      invariant forall id :: id in r0.at && r0.at[id].z != z ==> b.result.at[id] == start.at[id]
    {
      var o := snapshot[i];
      assert o in snapshot;
      b.result := b.result.Put(o.id, At(o.cell, z));
    }
    forall id | id in r0.at ensures b.result.at[id] == if r0.On(id, z) then r0.at[id] else start.at[id] {
      if r0.at[id].z == z {
        assert Placed(id, r0.at[id].AtCell()) in snapshot;
        var j :| 0 <= j < |snapshot| && snapshot[j] == Placed(id, r0.at[id].AtCell());
      }
    }
    assert b.result.at == Restored(start, r0, z).at;
  }

  /** Put the old cells back to count the mismatches there, then return to the new ones. */
  method MismatchesBefore(b: Board, z: int, snapshot: seq<Placed>, ids: seq<RoomId>, ghost r0: Layout) returns (n: int)
    requires r0.Valid() && b.result.Valid() && snapshot == Snapshot(r0, z) && SameFloors(r0, b.result)
    requires forall id :: id in r0.at && r0.at[id].z != z ==> b.result.at[id] == r0.at[id]
    requires forall id :: id in ids ==> id in r0.at
    modifies b`result
    ensures b.result == old(b.result) && n == Sum(ids, LocalFn(b.zone, r0, z))
  {
    hide Snapshot, LocalFn;
    ghost var r1 := b.result;
    var afterPos := Snapshot(b.result, z);
    RestoredAll(r1, r0, z);
    RestoreFloor(b, z, snapshot, r0);
    n := SumMismatches(b.zone, b.result, z, ids);
    RestoredAll(r0, r1, z);
    RestoreFloor(b, z, afterPos, r1);
  }

  /** What an accepted insertion guarantees, given the crossings at the start of its pass. */
  ghost predicate Fix(zone: Zone, z: int, weighted: bool, crossingsBefore: int, r: Layout, occ: Occupancy, r': Layout, occ': Occupancy) {
    && InsertKept(zone, z, weighted, r, occ, r', occ')
    && CountCrossings(zone, r', z) < crossingsBefore
    && Worth(zone, z, crossingsBefore, r, r')
  }

  /** Each new mismatch is paid for by two fewer crossings. */
  ghost predicate Worth(zone: Zone, z: int, crossingsBefore: int, r: Layout, r': Layout) {
    2 * (Mismatches(zone, r', z) - Mismatches(zone, r, z)) <= Max(0, crossingsBefore - CountCrossings(zone, r', z))
  }

  /** Rooms and floors are kept, no diagonal is added, in strict mode no mismatch either, and a
      board that agrees on a straight floor still does. */
  ghost predicate InsertKept(zone: Zone, z: int, weighted: bool, r: Layout, occ: Occupancy, r': Layout, occ': Occupancy) {
    && Contained(z, r, occ, r', occ')
    && Diagonals(zone, r', z) <= Diagonals(zone, r, z)
    && (!weighted ==> Mismatches(zone, r', z) <= Mismatches(zone, r, z))
    && (Agrees(r, occ) && Straightened(zone, r, z) ==> Agrees(r', occ') && Straightened(zone, r', z))
  }

  lemma InsertKeptRefl(zone: Zone, z: int, weighted: bool, r: Layout, occ: Occupancy)
    ensures InsertKept(zone, z, weighted, r, occ, r, occ)
  {
  }

  lemma InsertKeptTrans(zone: Zone, z: int, weighted: bool, r: Layout, occ: Occupancy, r1: Layout, occ1: Occupancy, r2: Layout, occ2: Occupancy)
    requires InsertKept(zone, z, weighted, r, occ, r1, occ1) && InsertKept(zone, z, weighted, r1, occ1, r2, occ2)
    ensures InsertKept(zone, z, weighted, r, occ, r2, occ2)
  {
    hide Contained, Diagonals, Mismatches, Agrees, Straightened;
    ContainedTrans(z, r, occ, r1, occ1, r2, occ2);
  }

  /** Both steps together, for the agreement of the two structures. */
  lemma InsertedAgrees(r: Layout, occ: Occupancy, z: int, s: Insertion, group: seq<RoomId>, occ1: Occupancy, occ2: Occupancy)
    requires r.Valid() && z in occ && Agrees(r, occ) && (forall id :: id in group ==> Shifted(r, z, s).On(id, z))
    requires occ1 == Vacated(occ, z, Cells(Home(r, ShiftTo(r, z, s))), Cells(ShiftTo(r, z, s)))
    requires var r1 := Shifted(r, z, s); var to := IntoGap(r1, s, group);
             occ2 == Vacated(occ1, z, Cells(Home(r1, to)), Cells(to))
    ensures Agrees(Shifted(r, z, s), occ1)
    ensures Agrees(Inserted(r, z, s, group), occ2) <==> Spread(Shifted(r, z, s), GroupAxis(s), group)
  {
    hide Agrees, Spread, Shifted, IntoGap, ShiftTo, Fits;
    ShiftIsInsertion(r, occ, z, s);
    AppliedAgrees(r, occ, z, ShiftTo(r, z, s));
    ShiftedClears(r, z, s);
    ShiftedValid(r, z, s);
    GapMove(Shifted(r, z, s), occ1, z, s, group);
  }

  lemma ShiftedValid(r: Layout, z: int, s: Insertion)
    requires r.Valid()
    ensures Shifted(r, z, s).Valid() && forall id, y :: Shifted(r, z, s).On(id, y) <==> r.On(id, y)
  {
  }

  lemma InsertedContained(r: Layout, occ: Occupancy, z: int, s: Insertion, group: seq<RoomId>, occ2: Occupancy)
    requires r.Valid() && z in occ && (forall id :: id in group ==> Shifted(r, z, s).On(id, z))
    requires occ2.Keys == occ.Keys && forall y :: y in occ && y != z ==> occ2[y] == occ[y]
    ensures Contained(z, r, occ, Inserted(r, z, s, group), occ2)
  {
  }

  /** What is accepted: no diagonal at the group, fewer crossings than at the start of the pass,
      and new mismatches only where they are allowed and two crossings pay for each. */
  ghost predicate Acceptable(zone: Zone, r: Layout, z: int, s: Insertion, group: seq<RoomId>, crossingsBefore: int, weighted: bool) {
    var r' := Inserted(r, z, s, group);
    var fewer, delta := crossingsBefore - CountCrossings(zone, r', z), 2 * (Mismatches(zone, r', z) - Mismatches(zone, r, z));
    !GroupDiag(zone, r', z, group) && fewer > 0 && (delta <= 0 || (weighted && fewer >= delta))
  }

  /** An accepted candidate is a fix. */
  lemma AcceptedFix(zone: Zone, r: Layout, occ: Occupancy, z: int, s: Insertion, seed: RoomId, group: seq<RoomId>, weighted: bool,
                    crossingsBefore: int, occ2: Occupancy)
    requires Whole(zone, r) && IsGroup(zone, Shifted(r, z, s), z, GroupAxis(s), seed, group)
    requires Contained(z, r, occ, Inserted(r, z, s, group), occ2)
    requires Agrees(r, occ) ==> (Agrees(Inserted(r, z, s, group), occ2) <==> Spread(Shifted(r, z, s), GroupAxis(s), group))
    requires Agrees(r, occ) ==> NoOverlap(Shifted(r, z, s))
    requires Acceptable(zone, r, z, s, group, crossingsBefore, weighted)
    ensures Fix(zone, z, weighted, crossingsBefore, r, occ, Inserted(r, z, s, group), occ2)
  {
    hide Contained, Agrees, NoOverlap, Spread, GroupDiag, Nearby, LocalFn, Inserted, Diagonals, Mismatches, CountCrossings, Straightened, Shifted, IsGroup, Connected, Whole;
    GroupOn(zone, r, z, s, seed, group);
    WholeValid(zone, r);
    InsertedDiagonals(zone, r, z, s, group);
    if Agrees(r, occ) && Straightened(zone, r, z) {
      InsertedStraight(zone, r, z, s, seed, group);
      ShiftedStraight(zone, r, z, s);
      StraightIsSpread(zone, Shifted(r, z, s), z, GroupAxis(s), seed, group);
    }
  }

  lemma WholeValid(zone: Zone, r: Layout)
    requires Whole(zone, r)
    ensures r.Valid() && zone.Valid()
  {
  }

  lemma GroupOn(zone: Zone, r: Layout, z: int, s: Insertion, seed: RoomId, group: seq<RoomId>)
    requires Whole(zone, r) && IsGroup(zone, Shifted(r, z, s), z, GroupAxis(s), seed, group)
    ensures NoDup(group) && forall x :: x in group ==> r.On(x, z) && Shifted(r, z, s).On(x, z)
  {
  }

  /** Step 3: no diagonal at the group, fewer crossings, and mismatches that are worth it. */
  method PassesChecks(b: Board, z: int, s: Insertion, group: seq<RoomId>, snapshot: seq<Placed>, crossingsBefore: int, weighted: bool, ghost r0: Layout)
    returns (passed: bool)
    requires Whole(b.zone, r0) && NoDup(group) && (forall x :: x in group ==> r0.On(x, z)) && snapshot == Snapshot(r0, z)
    requires b.result == Inserted(r0, z, s, group) && b.result.Valid() && SameFloors(r0, b.result)
    requires forall id :: id in r0.at && r0.at[id].z != z ==> b.result.at[id] == r0.at[id]
    modifies b`result
    ensures b.result == old(b.result)
    ensures passed <==> Acceptable(b.zone, r0, z, s, group, crossingsBefore, weighted)
  {
    hide GroupDiag, Nearby, LocalFn, CountCrossings, Snapshot, Whole, SameFloors, Mismatches;
    passed := false;
    WholeValid(b.zone, r0);
    NearbyPlaced(b.zone, r0, z, s, group);
    hide Inserted;
    if GroupDiag(b.zone, b.result, z, group) { return; }
    var crossingsAfter := CountCrossings(b.zone, b.result, z);
    if crossingsAfter >= crossingsBefore { return; }
    var neighbours := Neighbourhood(b.zone, b.result, z, group);
    NeighbourhoodExact(b.zone, r0, z, s, group, neighbours);
    var mismatchAfter := SumMismatches(b.zone, b.result, z, neighbours);
    var mismatchBefore := MismatchesBefore(b, z, snapshot, neighbours, r0);
    var mismatchDelta := mismatchAfter - mismatchBefore;
    passed := mismatchDelta <= 0 || (weighted && crossingsBefore - crossingsAfter >= mismatchDelta);
  }

  /** Steps 1 and 2: the partition shift, then the group of the seed into the gap. */
  method OpenAndMove(b: Board, z: int, s: Insertion, seed: RoomId) returns (group: seq<RoomId>, ghost occ1: Occupancy)
    requires b.Ready() && z in b.occupied && b.result.On(seed, z)
    modifies b`result, b`occupied
    ensures b.Ready() && b.result == Inserted(old(b.result), z, s, group)
    ensures IsGroup(b.zone, Shifted(old(b.result), z, s), z, GroupAxis(s), seed, group)
    ensures occ1 == Vacated(old(b.occupied), z, Cells(Home(old(b.result), ShiftTo(old(b.result), z, s))), Cells(ShiftTo(old(b.result), z, s)))
    ensures var r1 := Shifted(old(b.result), z, s); var to := IntoGap(r1, s, group);
            b.occupied == Vacated(occ1, z, Cells(Home(r1, to)), Cells(to))
  {
    hide IsGroup, Connected, ShiftTo, IntoGap, Shifted, OnFloor, Cells, Home, Applied, ReadyState, Agrees, Fits;
    ghost var r0, occ0 := b.result, b.occupied;
    ReadyParts(b.zone, r0, b.floors, occ0);
    ShiftIsInsertion(r0, occ0, z, s);
    ShiftedValid(r0, z, s);
    ShiftKeys(r0, z, s);
    b.Relocate(z, ToShift(b.result, z, s, b.result.order), ShiftTo(b.result, z, s));
    occ1 := b.occupied;
    group := BuildAxisGroup(b.zone, b.result, z, GroupAxis(s), seed);
    MakeGroup(b.zone, b.result, z, GroupAxis(s), seed, group);
    GapKeys(b.result, z, s, group);
    b.Relocate(z, group, IntoGap(b.result, s, group));
  }

  /** Open the gap, move the seed's group into it, and keep the result if it passes the checks;
      otherwise both structures are exactly as before. */
  method TryInsertion(b: Board, z: int, s: Insertion, seed: RoomId, crossingsBefore: int, weighted: bool)
    returns (accepted: bool, group: seq<RoomId>)
    requires b.Ready() && z in b.occupied && b.result.On(seed, z)
    modifies b`result, b`occupied
    ensures b.Ready()
    ensures IsGroup(b.zone, Shifted(old(b.result), z, s), z, GroupAxis(s), seed, group)
    ensures accepted <==> Acceptable(b.zone, old(b.result), z, s, group, crossingsBefore, weighted)
    ensures !accepted ==> b.result == old(b.result) && b.occupied == old(b.occupied)
    ensures accepted ==> b.result == Inserted(old(b.result), z, s, group)
    ensures accepted ==> Fix(b.zone, z, weighted, crossingsBefore, old(b.result), old(b.occupied), b.result, b.occupied)
    ensures accepted && Agrees(old(b.result), old(b.occupied)) ==>
      (Agrees(b.result, b.occupied) <==> Spread(Shifted(old(b.result), z, s), GroupAxis(s), group))
  {
    hide Contained, Agrees, NoOverlap, Spread, GroupDiag, Nearby, LocalFn, Diagonals, Mismatches, CountCrossings, Straightened,
      IsGroup, Connected, Whole, Fix, Acceptable, Snapshot, ShiftTo, Fits, IntoGap, Shifted, Inserted, OnFloor, Cells, Home, ReadyState, SameFloors;
    ghost var r0, occ0 := b.result, b.occupied;
    var snapshot := Snapshot(b.result, z);
    var occupiedSnapshot := b.occupied[z];
    accepted := false;
    ReadyParts(b.zone, r0, b.floors, occ0);
    Crossings.ReadyWhole(b.zone, r0, b.floors, occ0);
    ShiftedValid(r0, z, s);
    ghost var occ1;
    group, occ1 := OpenAndMove(b, z, s, seed);
    GroupOn(b.zone, r0, z, s, seed, group);
    ghost var r2, occ2 := b.result, b.occupied;
    InsertedContained(r0, occ0, z, s, group, occ2);
    ContainedParts(z, r0, occ0, r2, occ2);
    if Agrees(r0, occ0) {
      InsertedAgrees(r0, occ0, z, s, group, occ1, occ2);
      Align.AgreesNoOverlap(Shifted(r0, z, s), occ1);
    }
    accepted := PassesChecks(b, z, s, group, snapshot, crossingsBefore, weighted, r0);
    if accepted {
      AcceptedFix(b.zone, r0, occ0, z, s, seed, group, weighted, crossingsBefore, occ2);
      StillReady(b.zone, r0, b.floors, occ0, b.result, b.occupied);
      return;
    }
    RestoredAll(b.result, r0, z);
    RestoreFloor(b, z, snapshot, r0);
    b.occupied := b.occupied[z := occupiedSnapshot];
    SameOccupied(occ0, occ2, z);
  }

  lemma SameOccupied(occ0: Occupancy, occ2: Occupancy, z: int)
    requires z in occ0 && occ2.Keys == occ0.Keys && forall y :: y in occ0 && y != z ==> occ2[y] == occ0[y]
    ensures occ2[z := occ0[z]] == occ0
  {
    var occ := occ2[z := occ0[z]];
    assert occ.Keys == occ0.Keys;
    forall y | y in occ0 ensures occ[y] == occ0[y] { }
  }

  lemma ShiftKeys(r: Layout, z: int, s: Insertion)
    requires r.Valid()
    ensures forall id :: id in ToShift(r, z, s, r.order) <==> id in ShiftTo(r, z, s)
    ensures Shifted(r, z, s).order == r.order
  {
  }

  lemma MakeGroup(zone: Zone, r: Layout, z: int, axis: Axis, seed: RoomId, group: seq<RoomId>)
    requires NoDup(group) && seed in group && (forall x :: x in group <==> Connected(zone, r, z, axis, seed, x))
    requires forall x :: x in group ==> r.On(x, z)
    ensures IsGroup(zone, r, z, axis, seed, group)
  {
    hide Connected;
  }

  lemma GapKeys(r: Layout, z: int, s: Insertion, group: seq<RoomId>)
    requires forall x :: x in group ==> r.On(x, z)
    ensures OnFloor(r, z, IntoGap(r, s, group)) && forall id :: id in group <==> id in IntoGap(r, s, group)
  {
  }

  lemma ContainedParts(z: int, r: Layout, occ: Occupancy, r': Layout, occ': Occupancy)
    requires Contained(z, r, occ, r', occ')
    ensures SameFloors(r, r') && occ'.Keys == occ.Keys && r'.order == r.order && r'.at.Keys == r.at.Keys
    ensures forall id :: id in r.at && r.at[id].z != z ==> r'.at[id] == r.at[id]
    ensures forall y :: y in occ && y != z ==> occ'[y] == occ[y]
    ensures forall id, y :: r'.On(id, y) <==> r.On(id, y)
    ensures r.Valid() ==> r'.Valid()
  {
  }

  // ---- One crossing ----

  /** An insertion, the room whose group moves, and how far the group jumps. */
  datatype Candidate = Candidate(s: Insertion, seed: RoomId, jump: nat)

  function MakeCandidate(s: Insertion, seed: RoomId, coord: int): Candidate {
    Candidate(s, seed, Abs(coord - s.Gap()))
  }

  function InsertByJump(c: Candidate, cs: seq<Candidate>): (t: seq<Candidate>)
    ensures forall x :: x in t <==> x in cs || x == c
  {
    if cs == [] || c.jump <= cs[0].jump then [c] + cs else [cs[0]] + InsertByJump(c, cs[1..])
  }

  /** Shortest jump first; a stable sort. */
  function ShortestFirst(cs: seq<Candidate>): (t: seq<Candidate>)
    ensures forall x :: x in t <==> x in cs
  {
    if cs == [] then [] else InsertByJump(cs[0], ShortestFirst(cs[1..]))
  }

  /** A row above or below the vertical edge for the horizontal one's group, or a column beside
      the horizontal edge for the vertical one's. */
  function CandidatesFor(h: Segment, v: Segment): (cs: seq<Candidate>)
    ensures forall c :: c in cs ==> c.seed == h.edge.from || c.seed == v.edge.from
  {
    ShortestFirst([
      MakeCandidate(Insertion(false, true, Min(v.y1, v.y2)), h.edge.from, h.y1),
      MakeCandidate(Insertion(false, false, Max(v.y1, v.y2)), h.edge.from, h.y1),
      MakeCandidate(Insertion(true, true, Min(h.x1, h.x2)), v.edge.from, v.x1),
      MakeCandidate(Insertion(true, false, Max(h.x1, h.x2)), v.edge.from, v.x1)
    ])
  }

  /** The candidates for a crossing pair, at the positions its rooms have now. */
  function PairCandidates(r: Layout, segA: Segment, segB: Segment): seq<Candidate>
    requires segA.edge.from in r.at && segA.edge.to in r.at && segB.edge.from in r.at && segB.edge.to in r.at
  {
    var curA, curB := Crossings.Current(r, segA), Crossings.Current(r, segB);
    if curA.horizontal then CandidatesFor(curA, curB) else CandidatesFor(curB, curA)
  }

  ghost predicate Refused(zone: Zone, r: Layout, z: int, c: Candidate, crossingsBefore: int, weighted: bool) {
    forall group :: IsGroup(zone, Shifted(r, z, c.s), z, GroupAxis(c.s), c.seed, group) ==> !Acceptable(zone, r, z, c.s, group, crossingsBefore, weighted)
  }

  /** Either the pair no longer crosses, or every insertion for it is refused. */
  ghost predicate PairRefused(zone: Zone, r: Layout, z: int, segA: Segment, segB: Segment, crossingsBefore: int, weighted: bool) {
    && BothOn(r, z, segA.edge) && BothOn(r, z, segB.edge)
    && (Crossings.StillCross(r, segA, segB) ==> forall c :: c in PairCandidates(r, segA, segB) ==> Refused(zone, r, z, c, crossingsBefore, weighted))
  }

  /** The group of a seed is one set of rooms, however it is listed. */
  lemma RefusedOnce(zone: Zone, r: Layout, z: int, c: Candidate, group: seq<RoomId>, crossingsBefore: int, weighted: bool)
    requires IsGroup(zone, Shifted(r, z, c.s), z, GroupAxis(c.s), c.seed, group) && !Acceptable(zone, r, z, c.s, group, crossingsBefore, weighted)
    ensures Refused(zone, r, z, c, crossingsBefore, weighted)
  {
    hide Connected, Shifted, CountCrossings, Mismatches;
    forall other | IsGroup(zone, Shifted(r, z, c.s), z, GroupAxis(c.s), c.seed, other) ensures !Acceptable(zone, r, z, c.s, other, crossingsBefore, weighted) {
      assert forall x :: x in group <==> x in other;
      SameGroup(zone, r, z, c.s, group, other);
    }
  }

  lemma SameGroup(zone: Zone, r: Layout, z: int, s: Insertion, group: seq<RoomId>, other: seq<RoomId>)
    requires forall x :: x in group <==> x in other
    ensures Inserted(r, z, s, group) == Inserted(r, z, s, other)
    ensures forall r' :: GroupDiag(zone, r', z, group) == GroupDiag(zone, r', z, other)
  {
    assert IntoGap(Shifted(r, z, s), s, group) == IntoGap(Shifted(r, z, s), s, other);
  }

  method InsertForPair(b: Board, z: int, segA: Segment, segB: Segment, crossingsBefore: int, weighted: bool) returns (resolved: bool)
    requires b.Ready() && z in b.occupied && BothOn(b.result, z, segA.edge) && BothOn(b.result, z, segB.edge)
    modifies b`result, b`occupied
    ensures b.Ready()
    ensures !resolved ==> b.result == old(b.result) && b.occupied == old(b.occupied)
    ensures !resolved ==> PairRefused(b.zone, b.result, z, segA, segB, crossingsBefore, weighted)
    ensures resolved ==> Fix(b.zone, z, weighted, crossingsBefore, old(b.result), old(b.occupied), b.result, b.occupied)
    ensures resolved ==> Crossings.StillCross(old(b.result), segA, segB) && exists c, group ::
      && c in PairCandidates(old(b.result), segA, segB) && IsGroup(b.zone, Shifted(old(b.result), z, c.s), z, GroupAxis(c.s), c.seed, group)
      && Acceptable(b.zone, old(b.result), z, c.s, group, crossingsBefore, weighted) && b.result == Inserted(old(b.result), z, c.s, group)
  {
    hide ReadyState, Fix, IsGroup, Agrees, Spread, Shifted, Inserted, Crossings.StillCross, Acceptable, Refused, CandidatesFor;
    resolved := false;
    if !Crossings.StillCross(b.result, segA, segB) { return; }
    var curA, curB := Crossings.Current(b.result, segA), Crossings.Current(b.result, segB);
    var h, v := if curA.horizontal then curA else curB, if curA.horizontal then curB else curA;
    var candidates := CandidatesFor(h, v);
    ghost var r0, occ0 := b.result, b.occupied;
    for i := 0 to |candidates|
      invariant b.Ready() && b.result == r0 && b.occupied == occ0
      invariant forall c :: c in candidates[..i] ==> Refused(b.zone, r0, z, c, crossingsBefore, weighted)
    {
      assert candidates[i] in candidates;
      TakeStep(candidates, i);
      var accepted, group := TryInsertion(b, z, candidates[i].s, candidates[i].seed, crossingsBefore, weighted);
      if accepted { return true; }
      RefusedOnce(b.zone, r0, z, candidates[i], group, crossingsBefore, weighted);
    }
    TakeAll(candidates);
  }

  // ---- One floor ----

  /** The bound on new mismatches after a single fix. */
  ghost predicate Progress(zone: Zone, z: int, weighted: bool, fixed: nat, crossings: int, r: Layout, occ: Occupancy, r': Layout, occ': Occupancy) {
    && InsertKept(zone, z, weighted, r, occ, r', occ')
    && (fixed == 0 ==> r' == r && occ' == occ)
    && (fixed > 0 ==> CountCrossings(zone, r', z) < crossings)
    && (fixed == 1 ==> Worth(zone, z, crossings, r, r'))
  }

  lemma ProgressFix(zone: Zone, z: int, weighted: bool, fixed: nat, crossings: int, r: Layout, occ: Occupancy, r1: Layout, occ1: Occupancy, r2: Layout, occ2: Occupancy)
    requires Progress(zone, z, weighted, fixed, crossings, r, occ, r1, occ1) && Fix(zone, z, weighted, crossings, r1, occ1, r2, occ2)
    ensures Progress(zone, z, weighted, fixed + 1, crossings, r, occ, r2, occ2)
  {
    hide InsertKept, Worth, CountCrossings;
    InsertKeptTrans(zone, z, weighted, r, occ, r1, occ1, r2, occ2);
  }

  lemma ProgressTrans(zone: Zone, z: int, weighted: bool, n: nat, m: nat, c: int, c1: int, r: Layout, occ: Occupancy, r1: Layout, occ1: Occupancy, r2: Layout, occ2: Occupancy)
    requires Progress(zone, z, weighted, n, c, r, occ, r1, occ1) && Progress(zone, z, weighted, m, c1, r1, occ1, r2, occ2)
    requires c == CountCrossings(zone, r, z) && c1 == CountCrossings(zone, r1, z)
    ensures Progress(zone, z, weighted, n + m, c, r, occ, r2, occ2)
  {
    hide InsertKept, Worth, CountCrossings;
    InsertKeptTrans(zone, z, weighted, r, occ, r1, occ1, r2, occ2);
  }

  lemma ProgressStart(zone: Zone, z: int, weighted: bool, crossings: int, r: Layout, occ: Occupancy)
    ensures Progress(zone, z, weighted, 0, crossings, r, occ, r, occ)
  {
    hide CountCrossings, Worth;
    InsertKeptRefl(zone, z, weighted, r, occ);
  }

  lemma ProgressParts(zone: Zone, z: int, weighted: bool, fixed: nat, crossings: int, r: Layout, occ: Occupancy, r': Layout, occ': Occupancy)
    requires Progress(zone, z, weighted, fixed, crossings, r, occ, r', occ')
    ensures Contained(z, r, occ, r', occ')
    ensures SameFloors(r, r') && occ'.Keys == occ.Keys && forall id, y :: r'.On(id, y) <==> r.On(id, y)
  {
    hide CountCrossings, Worth, Diagonals, Mismatches, Agrees, Straightened;
    ContainedParts(z, r, occ, r', occ');
  }

  predicate Capped(total: nat, maxFixes: Option<nat>) {
    maxFixes.Some? && total >= maxFixes.value
  }

  method InsertAll(b: Board, z: int, pairs: seq<(Segment, Segment)>, crossingsBefore: int, start: nat, maxFixes: Option<nat>, weighted: bool)
    returns (total: nat)
    requires b.Ready() && z in b.occupied && crossingsBefore == CountCrossings(b.zone, b.result, z)
    requires forall p :: p in pairs ==> BothOn(b.result, z, p.0.edge) && BothOn(b.result, z, p.1.edge)
    modifies b`result, b`occupied
    ensures b.Ready() && start <= total && (Capped(start, maxFixes) ==> total == start) && (maxFixes.Some? && start <= maxFixes.value ==> total <= maxFixes.value)
    ensures Progress(b.zone, z, weighted, total - start, crossingsBefore, old(b.result), old(b.occupied), b.result, b.occupied)
    ensures total == start && !Capped(start, maxFixes) ==>
      b.result == old(b.result) && forall p :: p in pairs ==> PairRefused(b.zone, b.result, z, p.0, p.1, crossingsBefore, weighted)
  {
    hide ReadyState, Fix, Progress, CountCrossings, PairRefused, Crossings.StillCross, Acceptable, IsGroup, Shifted, Inserted, PairCandidates, SameFloors, Contained;
    total := start;
    ghost var r0, occ0 := b.result, b.occupied;
    ProgressStart(b.zone, z, weighted, crossingsBefore, r0, occ0);
    for i := 0 to |pairs|
      invariant b.Ready() && start <= total && (Capped(start, maxFixes) ==> total == start) && (maxFixes.Some? && start <= maxFixes.value ==> total <= maxFixes.value)
      invariant Progress(b.zone, z, weighted, total - start, crossingsBefore, r0, occ0, b.result, b.occupied)
      invariant total == start ==> b.result == r0
      invariant total == start && !Capped(start, maxFixes) ==> forall p :: p in pairs[..i] ==> PairRefused(b.zone, r0, z, p.0, p.1, crossingsBefore, weighted)
    {
      if Capped(total, maxFixes) { break; }
      assert pairs[i] in pairs;
      TakeStep(pairs, i);
      ghost var r, occ := b.result, b.occupied;
      ProgressParts(b.zone, z, weighted, total - start, crossingsBefore, r0, occ0, r, occ);
      var resolved := InsertForPair(b, z, pairs[i].0, pairs[i].1, crossingsBefore, weighted);
      if resolved {
        ProgressFix(b.zone, z, weighted, total - start, crossingsBefore, r0, occ0, r, occ, b.result, b.occupied);
        total := total + 1;
      }
    }
    TakeAll(pairs);
  }

  /** No insertion for any crossing pair of the floor would be accepted. */
  ghost predicate FloorRefused(zone: Zone, r: Layout, z: int, weighted: bool) {
    forall p :: p in Crossings.CrossingPairs(BuildEdgeSegments(zone, r, z)) ==> PairRefused(zone, r, z, p.0, p.1, CountCrossings(zone, r, z), weighted)
  }

  lemma NoneToRefuse(zone: Zone, r: Layout, z: int, weighted: bool)
    requires CountCrossings(zone, r, z) == 0
    ensures FloorRefused(zone, r, z, weighted)
  {
    Crossings.PairsAreCrossings(BuildEdgeSegments(zone, r, z));
  }

  /** Each pass with a fix leaves fewer crossings; short of both caps no insertion is left. */
  method InsertOnFloor(b: Board, z: int, start: nat, maxFixes: Option<nat>, weighted: bool) returns (total: nat, ghost passes: nat)
    requires b.Ready() && z in b.occupied
    modifies b`result, b`occupied
    ensures b.Ready() && start <= total && (maxFixes.Some? && start <= maxFixes.value ==> total <= maxFixes.value)
    ensures Progress(b.zone, z, weighted, total - start, CountCrossings(b.zone, old(b.result), z), old(b.result), old(b.occupied), b.result, b.occupied)
    ensures CountCrossings(b.zone, old(b.result), z) == 0 ==> total == start
    ensures CountCrossings(b.zone, b.result, z) + passes <= CountCrossings(b.zone, old(b.result), z)
    ensures passes == INSERTION_FIX_PASSES || Capped(total, maxFixes) || FloorRefused(b.zone, b.result, z, weighted)
  {
    hide ReadyState, Progress, SegmentsFrom, SegmentsCross, InsertKept, PairRefused, Crossings.CrossingPairs, Segments.Crossings;
    total, passes := start, 0;
    ghost var r0, occ0 := b.result, b.occupied;
    ghost var c := CountCrossings(b.zone, r0, z);
    ProgressStart(b.zone, z, weighted, c, r0, occ0);
    for pass := 0 to INSERTION_FIX_PASSES
      invariant b.Ready() && start <= total && (maxFixes.Some? && start <= maxFixes.value ==> total <= maxFixes.value)
      invariant Progress(b.zone, z, weighted, total - start, c, r0, occ0, b.result, b.occupied)
      invariant c == 0 ==> total == start && b.result == r0
      invariant passes == pass && CountCrossings(b.zone, b.result, z) + passes <= c
    {
      if Capped(total, maxFixes) { break; }
      var crossingsBefore := CountCrossings(b.zone, b.result, z);
      if crossingsBefore == 0 {
        NoneToRefuse(b.zone, b.result, z, weighted);
        break;
      }
      var segments := BuildEdgeSegments(b.zone, b.result, z);
      var pairs := Crossings.CrossingPairs(segments);
      Crossings.PairsAreCrossings(segments);
      if pairs == [] { break; }
      ghost var r, occ := b.result, b.occupied;
      Crossings.SegmentEnds(r, z, 2, AllOut(b.zone, b.zone.ids), {});
      ProgressParts(b.zone, z, weighted, total - start, c, r0, occ0, r, occ);
      var total' := InsertAll(b, z, pairs, crossingsBefore, total, maxFixes, weighted);
      ProgressTrans(b.zone, z, weighted, total - start, total' - total, c, crossingsBefore, r0, occ0, r, occ, b.result, b.occupied);
      NothingFixed(b.zone, z, weighted, total' - total, crossingsBefore, r, occ, b.result, b.occupied);
      var anyFixed := total' > total;
      total := total';
      if !anyFixed { break; }
      passes := passes + 1;
    }
  }

  // ---- The phase ----

  /** No floor gains a diagonal, a crossing or, in strict mode, a mismatch. */
  ghost predicate FloorNotWorse(zone: Zone, weighted: bool, r: Layout, r': Layout, z: int) {
    && Diagonals(zone, r', z) <= Diagonals(zone, r, z) && CountCrossings(zone, r', z) <= CountCrossings(zone, r, z)
    && (!weighted ==> Mismatches(zone, r', z) <= Mismatches(zone, r, z))
  }

  ghost predicate AllStraight(zone: Zone, r: Layout) {
    forall z :: Straightened(zone, r, z)
  }

  lemma FloorNotWorseTrans(zone: Zone, weighted: bool, r: Layout, r1: Layout, r2: Layout, z: int)
    requires FloorNotWorse(zone, weighted, r, r1, z) && FloorNotWorse(zone, weighted, r1, r2, z)
    ensures FloorNotWorse(zone, weighted, r, r2, z)
  {
    hide Diagonals, CountCrossings, Mismatches;
  }

  /** The step on one floor, seen from any floor. */
  lemma ProgressEverywhere(zone: Zone, z: int, weighted: bool, fixed: nat, r: Layout, occ: Occupancy, r': Layout, occ': Occupancy, y: int)
    requires Progress(zone, z, weighted, fixed, CountCrossings(zone, r, z), r, occ, r', occ')
    ensures FloorNotWorse(zone, weighted, r, r', y)
    ensures fixed <= 1 ==> Worth(zone, y, CountCrossings(zone, r, y), r, r')
    ensures y != z && Straightened(zone, r, y) ==> Straightened(zone, r', y)
  {
    ProgressParts(zone, z, weighted, fixed, CountCrossings(zone, r, z), r, occ, r', occ');
    if y != z {
      OtherFloor(zone, z, y, r, occ, r', occ');
      hide Diagonals, CountCrossings, Mismatches, InsertKept, SameFloor;
      ScoreFrame(zone, r, r', y, RelaxationScore);
      Crossings.CrossingsFrame(zone, r, r', y);
    } else {
      hide Diagonals, CountCrossings, Mismatches, Straightened, Agrees, Contained, SameFloors;
    }
  }

  lemma OtherFloor(zone: Zone, z: int, y: int, r: Layout, occ: Occupancy, r': Layout, occ': Occupancy)
    requires Contained(z, r, occ, r', occ') && y != z
    ensures SameFloor(r, r', y)
    ensures Straightened(zone, r, y) ==> Straightened(zone, r', y)
  {
  }

  lemma ProgressTidy(zone: Zone, z: int, weighted: bool, fixed: nat, crossings: int, r: Layout, occ: Occupancy, r': Layout, occ': Occupancy)
    requires Progress(zone, z, weighted, fixed, crossings, r, occ, r', occ')
    ensures Agrees(r, occ) && Straightened(zone, r, z) ==> Agrees(r', occ') && Straightened(zone, r', z)
  {
    hide CountCrossings, Worth, Diagonals, Mismatches, Agrees, Straightened, Contained;
  }

  lemma NothingFixed(zone: Zone, z: int, weighted: bool, fixed: nat, crossings: int, r: Layout, occ: Occupancy, r': Layout, occ': Occupancy)
    requires Progress(zone, z, weighted, fixed, crossings, r, occ, r', occ')
    ensures fixed == 0 ==> r' == r && occ' == occ
    ensures fixed > 0 ==> CountCrossings(zone, r', z) < crossings
  {
    hide InsertKept, Worth, CountCrossings;
  }

  /** The fixes counted so far, over all floors: none leaves everything as it was, one is worth
      its mismatches. */
  ghost predicate Fixed(zone: Zone, weighted: bool, total: nat, r: Layout, occ: Occupancy, r': Layout, occ': Occupancy) {
    && (forall z :: FloorNotWorse(zone, weighted, r, r', z))
    && (total == 0 ==> r' == r && occ' == occ)
    && (total <= 1 ==> forall z :: Worth(zone, z, CountCrossings(zone, r, z), r, r'))
    && (total > 0 ==> exists z :: CountCrossings(zone, r', z) < CountCrossings(zone, r, z))
    && (Agrees(r, occ) && AllStraight(zone, r) ==> Agrees(r', occ') && AllStraight(zone, r'))
  }

  lemma FixedStart(zone: Zone, weighted: bool, r: Layout, occ: Occupancy)
    ensures Fixed(zone, weighted, 0, r, occ, r, occ)
  {
    hide CountCrossings, Diagonals, Mismatches, Agrees;
  }

  lemma FixedStep(zone: Zone, z: int, weighted: bool, n: nat, m: nat, r: Layout, occ: Occupancy, r1: Layout, occ1: Occupancy, r2: Layout, occ2: Occupancy)
    requires Fixed(zone, weighted, n, r, occ, r1, occ1)
    requires Progress(zone, z, weighted, m, CountCrossings(zone, r1, z), r1, occ1, r2, occ2)
    ensures Fixed(zone, weighted, n + m, r, occ, r2, occ2)
  {
    hide CountCrossings, Diagonals, Mismatches, Agrees, Progress, Straightened, FloorNotWorse, Worth;
    NothingFixed(zone, z, weighted, m, CountCrossings(zone, r1, z), r1, occ1, r2, occ2);
    ProgressTidy(zone, z, weighted, m, CountCrossings(zone, r1, z), r1, occ1, r2, occ2);
    forall y
      ensures FloorNotWorse(zone, weighted, r1, r2, y)
      ensures m <= 1 ==> Worth(zone, y, CountCrossings(zone, r1, y), r1, r2)
      ensures y != z && Straightened(zone, r1, y) ==> Straightened(zone, r2, y)
    {
      ProgressEverywhere(zone, z, weighted, m, r1, occ1, r2, occ2, y);
    }
    forall y ensures FloorNotWorse(zone, weighted, r, r2, y) { FloorNotWorseTrans(zone, weighted, r, r1, r2, y); }
    if n + m > 0 {
      FewerSomewhere(zone, weighted, z, n, m, r, r1, r2);
    }
  }

  lemma FewerSomewhere(zone: Zone, weighted: bool, z: int, n: nat, m: nat, r: Layout, r1: Layout, r2: Layout)
    requires n + m > 0 && forall y :: FloorNotWorse(zone, weighted, r, r1, y) && FloorNotWorse(zone, weighted, r1, r2, y)
    requires n > 0 ==> exists y :: CountCrossings(zone, r1, y) < CountCrossings(zone, r, y)
    requires m > 0 ==> CountCrossings(zone, r2, z) < CountCrossings(zone, r1, z)
    ensures exists y :: CountCrossings(zone, r2, y) < CountCrossings(zone, r, y)
  {
    hide CountCrossings, Diagonals, Mismatches;
    if n > 0 {
      var y :| CountCrossings(zone, r1, y) < CountCrossings(zone, r, y);
      assert FloorNotWorse(zone, weighted, r1, r2, y);
      assert CountCrossings(zone, r2, y) < CountCrossings(zone, r, y);
    } else {
      assert FloorNotWorse(zone, weighted, r, r1, z);
      assert CountCrossings(zone, r2, z) < CountCrossings(zone, r, z);
    }
  }

  /** What is left on a floor after its turn: nothing an insertion would fix, unless a cap was met. */
  ghost predicate TurnDone(zone: Zone, z: int, weighted: bool, capped: bool, passes: nat, r: Layout, r': Layout) {
    && CountCrossings(zone, r', z) + passes <= CountCrossings(zone, r, z)
    && (passes == INSERTION_FIX_PASSES || capped || FloorRefused(zone, r', z, weighted))
  }

  /** What holds between two floors' turns. */
  ghost predicate SoFar(zone: Zone, weighted: bool, maxFixes: Option<nat>, total: nat, r: Layout, occ: Occupancy, r': Layout, occ': Occupancy) {
    && SameFloors(r, r') && occ'.Keys == occ.Keys
    && Fixed(zone, weighted, total, r, occ, r', occ')
    && (maxFixes.Some? ==> total <= maxFixes.value)
    && (Relax.AllPerfect(zone, r) ==> total == 0)
  }

  lemma SoFarStep(zone: Zone, z: int, weighted: bool, maxFixes: Option<nat>, n: nat, m: nat, r: Layout, occ: Occupancy, r1: Layout, occ1: Occupancy, r2: Layout, occ2: Occupancy)
    requires SoFar(zone, weighted, maxFixes, n, r, occ, r1, occ1) && r1.Valid() && zone.Valid() && forall id :: id in r1.order <==> id in zone.ids
    requires Progress(zone, z, weighted, m, CountCrossings(zone, r1, z), r1, occ1, r2, occ2)
    requires maxFixes.Some? ==> n + m <= maxFixes.value
    requires CountCrossings(zone, r1, z) == 0 ==> m == 0
    ensures SoFar(zone, weighted, maxFixes, n + m, r, occ, r2, occ2)
  {
    hide Progress, Fixed, CountCrossings, Perfect;
    FixedNone(zone, weighted, n, r, occ, r1, occ1);
    if Perfect(zone, r1, z) { PerfectIsClear(zone, r1, z); }
    ProgressParts(zone, z, weighted, m, CountCrossings(zone, r1, z), r1, occ1, r2, occ2);
    FixedStep(zone, z, weighted, n, m, r, occ, r1, occ1, r2, occ2);
  }

  ghost predicate InsertRun(zone: Zone, floors: seq<int>, weighted: bool, capped: bool, s: State, s': State, run: seq<State>, passes: seq<nat>) {
    && Run(run, |floors|, s, s') && |passes| == |floors|
    && forall i :: 0 <= i < |floors| ==> TurnDone(zone, floors[i], weighted, capped, passes[i], run[i].r, run[i + 1].r)
  }

  /** The pass took the floors in turn, and fixed so many crossings. */
  ghost predicate InsertedAll(zone: Zone, floors: seq<int>, maxFixes: Option<nat>, weighted: bool, s: State, s': State, total: nat) {
    && Fixed(zone, weighted, total, s.r, s.occ, s'.r, s'.occ)
    && exists run, passes :: InsertRun(zone, floors, weighted, Capped(total, maxFixes), s, s', run, passes)
  }

  /** fixCrossingsByInsertion. With no cap on the fixes pass None. */
  method FixCrossingsByInsertion(b: Board, maxFixes: Option<nat>, weighted: bool) returns (totalFixed: nat)
    requires b.Ready()
    modifies b`result, b`occupied
    ensures b.Ready() && SameFloors(old(b.result), b.result) && b.occupied.Keys == old(b.occupied).Keys
    ensures Fixed(b.zone, weighted, totalFixed, old(b.result), old(b.occupied), b.result, b.occupied)
    ensures maxFixes.Some? ==> totalFixed <= maxFixes.value
    ensures Relax.AllPerfect(b.zone, old(b.result)) ==> totalFixed == 0
    ensures InsertedAll(b.zone, b.floors, maxFixes, weighted, State(old(b.result), old(b.occupied)), State(b.result, b.occupied), totalFixed)
  {
    hide ReadyState, Progress, Fixed, CountCrossings, Relax.AllPerfect, FloorRefused, SameFloors, SoFar;
    totalFixed := 0;
    ghost var r0, occ0 := b.result, b.occupied;
    ghost var run, passes: seq<nat> := [State(r0, occ0)], [];
    MakeSoFar(b.zone, weighted, maxFixes, r0, occ0);
    for i := 0 to |b.floors|
      invariant b.Ready() && SoFar(b.zone, weighted, maxFixes, totalFixed, r0, occ0, b.result, b.occupied) && (maxFixes.Some? ==> totalFixed <= maxFixes.value)
      invariant Run(run, i, State(r0, occ0), State(b.result, b.occupied)) && |passes| == i
      invariant forall j :: 0 <= j < i ==> TurnDone(b.zone, b.floors[j], weighted, Capped(totalFixed, maxFixes), passes[j], run[j].r, run[j + 1].r)
    {
      var z := b.floors[i];
      ghost var r, occ := b.result, b.occupied;
      FloorIsOpen(b.zone, r, b.floors, occ, i);
      ReadyParts(b.zone, r, b.floors, occ);
      var total;
      ghost var here;
      total, here := InsertOnFloor(b, z, totalFixed, maxFixes, weighted);
      SoFarStep(b.zone, z, weighted, maxFixes, totalFixed, total - totalFixed, r0, occ0, r, occ, b.result, b.occupied);
      assert Capped(totalFixed, maxFixes) ==> Capped(total, maxFixes);
      totalFixed := total;
      run, passes := run + [State(b.result, b.occupied)], passes + [here];
    }
    SoFarParts(b.zone, weighted, maxFixes, totalFixed, r0, occ0, b.result, b.occupied);
    assert InsertRun(b.zone, b.floors, weighted, Capped(totalFixed, maxFixes), State(r0, occ0), State(b.result, b.occupied), run, passes);
  }

  lemma MakeSoFar(zone: Zone, weighted: bool, maxFixes: Option<nat>, r: Layout, occ: Occupancy)
    ensures SoFar(zone, weighted, maxFixes, 0, r, occ, r, occ)
  {
    hide Fixed, Relax.AllPerfect;
    FixedStart(zone, weighted, r, occ);
  }

  lemma SoFarParts(zone: Zone, weighted: bool, maxFixes: Option<nat>, total: nat, r: Layout, occ: Occupancy, r': Layout, occ': Occupancy)
    requires SoFar(zone, weighted, maxFixes, total, r, occ, r', occ')
    ensures SameFloors(r, r') && occ'.Keys == occ.Keys && Fixed(zone, weighted, total, r, occ, r', occ')
    ensures Relax.AllPerfect(zone, r) ==> total == 0
  {
    hide Fixed, Relax.AllPerfect, SameFloors;
  }

  lemma FixedNone(zone: Zone, weighted: bool, total: nat, r: Layout, occ: Occupancy, r': Layout, occ': Occupancy)
    requires Fixed(zone, weighted, total, r, occ, r', occ')
    ensures total == 0 ==> r' == r && occ' == occ
  {
    hide CountCrossings, Diagonals, Mismatches, Agrees, Straightened, FloorNotWorse, Worth;
  }
}
