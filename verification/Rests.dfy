/** What it means that a floor is at rest: which moves, written out on cells, no longer lower its score. */
module Rests {
  import opened Zones
  import opened Scores
  import opened Measures
  import opened Boards
  import opened Relax
  import opened Cascades
  import opened Violations
  import opened Candidates
  import Guards
  import Diamond
  import Occlusions
  import opened Segments
  import Crossings

  /** The room that moves, and the one at the other end. */
  function End(e: Edge, target: bool): RoomId { if target then e.to else e.from }

  /** The room's move to the cell adds no mismatch, and its exits of one step stay on their axes. */
  ghost predicate Harmless(zone: Zone, r: Layout, z: int, id: RoomId, c: Cell)
    requires id in r.at
  {
    Guards.LocalDelta(zone, r, z, id, c) <= 0 && StaysSnug(zone, r, z, id, c)
  }

  lemma HarmlessIff(zone: Zone, r: Layout, z: int, id: RoomId, c: Cell)
    requires zone.Valid() && r.On(id, z)
    ensures Harmless(zone, r, z, id, c) <==> !Guarded(zone, r, z, id, c)
  {
    AllowedWhenAligned(zone, r, {}, z, id, c);
    hide Guarded, StaysSnug, Guards.LocalMismatches;
  }

  lemma InUnion(reaches: seq<iset<Layout>>, i: nat, x: Layout)
    requires i < |reaches| && x in reaches[i]
    ensures x in Union(reaches)
  {
  }

  lemma {:induction false} OccupantIs(r: Layout, z: int, c: Cell, o: RoomId, ids: seq<RoomId>)
    requires NoOverlap(r) && o in r.at && r.at[o] == At(c, z) && o in ids
    ensures PosToRoom(r, z, c, ids) == Some(o)
  {
    var last := |ids| - 1;
    if !(ids[last] in r.at && r.at[ids[last]] == At(c, z)) {
      assert o in ids[..last];
      OccupantIs(r, z, c, o, ids[..last]);
    }
  }

  // ---- Diagonals ----

  /** The exit is a diagonal of the floor. */
  predicate IsDiagonal(zone: Zone, r: Layout, z: int, e: Edge) {
    e in AllOut(zone, r.order) && Measures.OnFloor(r, z, e) && Slanted(r.at[e.from], r.at[e.to])
  }

  /** No move of the three strategies for a diagonal exit lowers the score of a floor at rest. */
  lemma StraighteningAtRest(zone: Zone, r: Layout, occ: Occupancy, z: int, e: Edge, x: Layout)
    requires z in occ && CascadeStuck(zone, r, occ, z) && IsDiagonal(zone, r, z, e) && x in Straightenings(zone, r, occ[z], z, e)
    ensures Score(zone, r, z, LIGHT) <= Score(zone, x, z, LIGHT)
  {
    hide Score, Straightenings;
    assert DiagonalFn(r, z)(e) == 1;
    assert Straightens(zone, r, occ[z], z, x);
    assert x in CascadeMoves(zone, r, occ[z], z);
  }

  /** The cell on the other end's row or column at which the moved end keeps its place along the exit. */
  predicate Opposite(r: Layout, e: Edge, target: bool, c: Cell)
    requires e.from in r.at && e.to in r.at && Cardinal(e.dir)
  {
    && Across(e.dir, c) == Across(e.dir, r.at[End(e, !target)].AtCell())
    && Along(e.dir, c) == Along(e.dir, r.at[End(e, target)].AtCell())
  }

  lemma EndIsTried(zone: Zone, r: Layout, cells: set<Cell>, z: int, e: Edge, target: bool, c: Cell, x: Layout)
    requires IsDiagonal(zone, r, z, e) && Opposite(r, e, target, c)
    requires x in EndpointMoves(zone, r, cells, z, e, End(e, target), c)
    ensures x in Straightenings(zone, r, cells, z, e)
  {
    EndsStraighten(r, e);
    var ends, k := EndTargets(r, e, Upwards(e.dir)), if target then 1 else 0;
    assert ends[k] == (End(e, target), c);
    hide EndpointMoves, PairReaches, EndPushes, EndTargets, Union;
    InUnion(EndReaches(zone, r, cells, z, e, Upwards(e.dir)), k, x);
  }

  lemma OppositeIsOther(zone: Zone, r: Layout, z: int, e: Edge, target: bool, c: Cell)
    requires IsDiagonal(zone, r, z, e) && Opposite(r, e, target, c)
    ensures r.On(End(e, target), z) && c != r.at[End(e, target)].AtCell()
  {
  }

  /** At rest no diagonal is worth straightening by one end: not by moving it onto a free cell, */
  lemma DiagonalEndAtRest(zone: Zone, r: Layout, occ: Occupancy, z: int, e: Edge, target: bool, c: Cell)
    requires zone.Valid() && z in occ && CascadeStuck(zone, r, occ, z) && c !in occ[z]
    requires IsDiagonal(zone, r, z, e) && Opposite(r, e, target, c) && Harmless(zone, r, z, End(e, target), c)
    ensures Score(zone, r, z, LIGHT) <= Score(zone, Scores.Moved(r, End(e, target), c, z), z, LIGHT)
  {
    var mover := End(e, target);
    OppositeIsOther(zone, r, z, e, target, c);
    hide IsDiagonal, Opposite, End, Score, CascadeStuck, Harmless, Guarded, Straightenings, Scores.Moved, PosToRoom, Displacements;
    HarmlessIff(zone, r, z, mover, c);
    EndIsTried(zone, r, occ[z], z, e, target, c, Scores.Moved(r, mover, c, z));
    StraighteningAtRest(zone, r, occ, z, e, Scores.Moved(r, mover, c, z));
  }

  /** not by swapping it with the room that is there, */
  lemma DiagonalSwapAtRest(zone: Zone, r: Layout, occ: Occupancy, z: int, e: Edge, target: bool, c: Cell, o: RoomId)
    requires zone.Valid() && r.Valid() && Agrees(r, occ) && z in occ && CascadeStuck(zone, r, occ, z)
    requires IsDiagonal(zone, r, z, e) && Opposite(r, e, target, c) && Harmless(zone, r, z, End(e, target), c)
    requires o in r.at && r.at[o] == At(c, z) && o != e.from && o != e.to
    ensures Score(zone, r, z, LIGHT) <= Score(zone, Swapped(r, End(e, target), o), z, LIGHT)
  {
    var mover := End(e, target);
    OppositeIsOther(zone, r, z, e, target, c);
    OccupiedBy(r, occ, z, c, o);
    hide IsDiagonal, Opposite, End, Score, CascadeStuck, Harmless, Guarded, Straightenings, Swapped, PosToRoom, Displacements, Agrees;
    HarmlessIff(zone, r, z, mover, c);
    EndIsTried(zone, r, occ[z], z, e, target, c, Swapped(r, mover, o));
    StraighteningAtRest(zone, r, occ, z, e, Swapped(r, mover, o));
  }

  lemma DisplacementIs(r: Layout, cells: set<Cell>, z: int, mover: RoomId, o: RoomId, c: Cell, d: Cell)
    requires o in r.at && r.at[o] == At(c, z) && d !in cells && 1 <= Diamond.Dist(c, d) <= 5
    ensures Applied(r, z, map[mover := c, o := d]) in Displacements(r, cells, z, mover, o)
  {
    hide Applied;
    assert r.at[o].AtCell() == c;
  }

  /** and not by displacing that room to a free cell up to five cells away. */
  lemma DiagonalDisplaceAtRest(zone: Zone, r: Layout, occ: Occupancy, z: int, e: Edge, target: bool, c: Cell, o: RoomId, d: Cell)
    requires zone.Valid() && r.Valid() && Agrees(r, occ) && z in occ && CascadeStuck(zone, r, occ, z)
    requires IsDiagonal(zone, r, z, e) && Opposite(r, e, target, c) && Harmless(zone, r, z, End(e, target), c)
    requires o in r.at && r.at[o] == At(c, z) && o != e.from && o != e.to && d !in occ[z] && 1 <= Diamond.Dist(c, d) <= 5
    ensures Score(zone, r, z, LIGHT) <= Score(zone, Applied(r, z, map[End(e, target) := c, o := d]), z, LIGHT)
  {
    var mover := End(e, target);
    OppositeIsOther(zone, r, z, e, target, c);
    OccupiedBy(r, occ, z, c, o);
    var x := Applied(r, z, map[mover := c, o := d]);
    DisplacementIs(r, occ[z], z, mover, o, c, d);
    hide IsDiagonal, Opposite, End, Score, CascadeStuck, Harmless, Guarded, Straightenings, Applied, PosToRoom, Displacements, Agrees;
    HarmlessIff(zone, r, z, mover, c);
    EndIsTried(zone, r, occ[z], z, e, target, c, x);
    StraighteningAtRest(zone, r, occ, z, e, x);
  }

  lemma OccupiedBy(r: Layout, occ: Occupancy, z: int, c: Cell, o: RoomId)
    requires r.Valid() && Agrees(r, occ) && z in occ && o in r.at && r.at[o] == At(c, z)
    ensures c in occ[z] && PosToRoom(r, z, c, r.order) == Some(o)
  {
    OccupantIs(r, z, c, o, r.order);
  }

  lemma PairIsTried(zone: Zone, r: Layout, cells: set<Cell>, z: int, e: Edge, k: nat, x: Layout)
    requires IsDiagonal(zone, r, z, e) && k < 3 && |AxisTargets(r, e, Upwards(e.dir))| == 3
    requires x in PairMoves(zone, r, cells, z, e, Upwards(e.dir), AxisTargets(r, e, Upwards(e.dir))[k])
    ensures x in Straightenings(zone, r, cells, z, e)
  {
    hide PairMoves, EndReaches, EndPushes, AxisTargets, Union;
    InUnion(PairReaches(zone, r, cells, z, e, Upwards(e.dir)), k, x);
  }

  /** The two cells are on one line across the exit: that of either end, or the rounded middle. Each end
      keeps its place along it, and each cell is free or one of theirs. */
  predicate OnOneLine(r: Layout, cells: set<Cell>, e: Edge, a: Cell, b: Cell)
    requires e.from in r.at && e.to in r.at && Cardinal(e.dir)
  {
    var p, q, line := r.at[e.from].AtCell(), r.at[e.to].AtCell(), Across(e.dir, a);
    && Along(e.dir, a) == Along(e.dir, p) && Along(e.dir, b) == Along(e.dir, q) && Across(e.dir, b) == line && a != b
    && (line == Across(e.dir, p) || line == Across(e.dir, q) || IsNearest(line, Across(e.dir, p) + Across(e.dir, q), 2))
    && (a == p || a == q || a !in cells) && (b == p || b == q || b !in cells)
  }

  lemma LineIsTried(zone: Zone, r: Layout, cells: set<Cell>, z: int, e: Edge, a: Cell, b: Cell) returns (k: nat)
    requires IsDiagonal(zone, r, z, e) && OnOneLine(r, cells, e, a, b)
    ensures k < 3 && |AxisTargets(r, e, Upwards(e.dir))| == 3
    ensures var to := PairMove(r, e, Upwards(e.dir), AxisTargets(r, e, Upwards(e.dir))[k]);
            to == map[e.from := a, e.to := b] && to != PairHome(r, e) && FreeFor(r, cells, e, a) && FreeFor(r, cells, e, b)
  {
    var p, q, line, lines := r.at[e.from].AtCell(), r.at[e.to].AtCell(), Across(e.dir, a), AxisTargets(r, e, Upwards(e.dir));
    PairStraightens(r, e, line);
    OneNearest(line, lines[2], Across(e.dir, p) + Across(e.dir, q));
    hide AxisTargets, IsNearest;
    k := if line == lines[0] then 0 else if line == lines[1] then 1 else 2;
    var to, home := PairMove(r, e, Upwards(e.dir), line), PairHome(r, e);
    hide PairMove;
    assert to[e.from] == a && to[e.to] == b;
    assert home[e.from] != a || home[e.to] != b;
  }

  /** Nor is it worth straightening by both ends. */
  lemma DiagonalPairAtRest(zone: Zone, r: Layout, occ: Occupancy, z: int, e: Edge, a: Cell, b: Cell)
    requires zone.Valid() && z in occ && CascadeStuck(zone, r, occ, z) && IsDiagonal(zone, r, z, e) && OnOneLine(r, occ[z], e, a, b)
    requires Harmless(zone, r, z, e.from, a) && Harmless(zone, r, z, e.to, b)
    ensures Score(zone, r, z, LIGHT) <= Score(zone, Applied(r, z, map[e.from := a, e.to := b]), z, LIGHT)
  {
    HarmlessIff(zone, r, z, e.from, a);
    HarmlessIff(zone, r, z, e.to, b);
    var k := LineIsTried(zone, r, occ[z], z, e, a, b);
    assert e.from != e.to && a != b;
    var x := Applied(r, z, map[e.from := a, e.to := b]);
    hide IsDiagonal, OnOneLine, Score, CascadeStuck, Harmless, Guarded, Applied, PairMove, AxisTargets, PairHome, FreeFor;
    PairIsTried(zone, r, occ[z], z, e, k, x);
    StraighteningAtRest(zone, r, occ, z, e, x);
  }

  lemma OneNearest(a: int, b: int, sum: int)
    requires IsNearest(b, sum, 2)
    ensures IsNearest(a, sum, 2) ==> a == b
  {
  }

  lemma PushIsTried(zone: Zone, r: Layout, cells: set<Cell>, z: int, e: Edge, target: bool, shift: int, x: Layout)
    requires IsDiagonal(zone, r, z, e) && shift in ShiftsToward(r, Upwards(e.dir), End(e, target), End(e, !target))
    requires x in Pushes(zone, r, cells, z, Upwards(e.dir), shift, End(e, target))
    ensures x in Straightenings(zone, r, cells, z, e)
  {
    PushReachesIt(zone, r, cells, z, e, target, shift, x);
    hide Pushes, ShiftsToward, Straightenings, Union, EndPushes;
    InUnion(EndPushes(zone, r, cells, z, e, Upwards(e.dir)), if target then 1 else 0, x);
    PushStraightens(zone, r, cells, z, e, x);
  }

  lemma PushStraightens(zone: Zone, r: Layout, cells: set<Cell>, z: int, e: Edge, x: Layout)
    requires IsDiagonal(zone, r, z, e) && x in Union(EndPushes(zone, r, cells, z, e, Upwards(e.dir)))
    ensures x in Straightenings(zone, r, cells, z, e)
  {
    hide EndReaches, PairReaches, Union, EndPushes;
  }

  lemma PushReachesIt(zone: Zone, r: Layout, cells: set<Cell>, z: int, e: Edge, target: bool, shift: int, x: Layout)
    requires IsDiagonal(zone, r, z, e) && shift in ShiftsToward(r, Upwards(e.dir), End(e, target), End(e, !target))
    requires x in Pushes(zone, r, cells, z, Upwards(e.dir), shift, End(e, target))
    ensures |EndPushes(zone, r, cells, z, e, Upwards(e.dir))| == 2 && x in EndPushes(zone, r, cells, z, e, Upwards(e.dir))[if target then 1 else 0]
  {
    var vertical, start := Upwards(e.dir), End(e, target);
    var shifts := ShiftsToward(r, vertical, start, End(e, !target));
    hide Pushes, ShiftsToward, Union, Upwards, Slanted;
    var i :| 0 <= i < |shifts| && shifts[i] == shift;
    InUnion(PushReaches(zone, r, cells, z, vertical, start, shifts), i, x);
  }

  lemma ShiftIsTried(r: Layout, d: Dir, start: RoomId, other: RoomId, shift: int)
    requires start in r.at && other in r.at && Cardinal(d) && shift != 0
    requires shift == -2 || shift == -1 || shift == 1 || shift == 2 || shift == Across(d, r.at[other].AtCell()) - Across(d, r.at[start].AtCell())
    ensures shift in ShiftsToward(r, Upwards(d), start, other)
  {
    ShiftsTried(r, d, start, other);
    hide ShiftsToward, Across, Upwards;
  }

  lemma PushIsPushed(zone: Zone, r: Layout, cells: set<Cell>, z: int, vertical: bool, shift: int, start: RoomId, push: seq<RoomId>)
    requires Pushable(zone, r, cells, z, vertical, shift, start, push)
    ensures Applied(r, z, PushMoves(r, vertical, shift, push)) in Pushes(zone, r, cells, z, vertical, shift, start)
  {
    hide Pushable, Applied, PushMoves;
    assert Pushed(zone, r, cells, z, vertical, shift, start, Applied(r, z, PushMoves(r, vertical, shift, push)));
  }

  /** Nor by pushing a group that one end leads, by the shift that brings it in line or by one or two steps. */
  lemma DiagonalPushAtRest(zone: Zone, r: Layout, occ: Occupancy, z: int, e: Edge, target: bool, shift: int, push: seq<RoomId>)
    requires z in occ && CascadeStuck(zone, r, occ, z) && IsDiagonal(zone, r, z, e)
    requires shift == -2 || shift == -1 || shift == 1 || shift == 2
             || shift == Across(e.dir, r.at[End(e, !target)].AtCell()) - Across(e.dir, r.at[End(e, target)].AtCell())
    requires Pushable(zone, r, occ[z], z, Upwards(e.dir), shift, End(e, target), push)
    ensures Score(zone, r, z, LIGHT) <= Score(zone, Applied(r, z, PushMoves(r, Upwards(e.dir), shift, push)), z, LIGHT)
  {
    assert shift != 0;
    ShiftIsTried(r, e.dir, End(e, target), End(e, !target), shift);
    PushIsPushed(zone, r, occ[z], z, Upwards(e.dir), shift, End(e, target), push);
    var x := Applied(r, z, PushMoves(r, Upwards(e.dir), shift, push));
    hide *;
    PushIsTried(zone, r, occ[z], z, e, target, shift, x);
    StraighteningAtRest(zone, r, occ, z, e, x);
  }

  // ---- Mismatches ----

  /** The exit is a mismatch of the floor. */
  predicate IsMismatch(zone: Zone, r: Layout, z: int, e: Edge) {
    e in AllOut(zone, r.order) && Measures.OnFloor(r, z, e) && WrongSide(e.dir, r.at[e.from], r.at[e.to])
  }

  lemma RepairAtRest(zone: Zone, r: Layout, occ: Occupancy, z: int, e: Edge, x: Layout)
    requires z in occ && RepairStuck(zone, r, occ, z) && IsMismatch(zone, r, z, e) && x in Repairs(zone, r, occ[z], z, e)
    ensures Score(zone, r, z, LIGHT) <= Score(zone, x, z, LIGHT)
  {
    hide Score, Repairs;
    assert MismatchFn(r, z)(e) == 1;
    assert RepairsSome(zone, r, occ[z], z, x);
    assert x in RepairMoves(zone, r, occ[z], z);
  }

  /** The cell lies on the right side of the exit's other end. */
  predicate Right(r: Layout, e: Edge, target: bool, c: Cell)
    requires e.from in r.at && e.to in r.at
  {
    if target then !WrongSide(e.dir, r.at[e.from], At(c, r.at[e.from].z)) else !WrongSide(e.dir, At(c, r.at[e.to].z), r.at[e.to])
  }

  /** The cell at which the exit would be one step long. */
  predicate RightBy(r: Layout, e: Edge, target: bool, c: Cell)
    requires e.from in r.at && e.to in r.at && Cardinal(e.dir)
  {
    if target then c == Neighbour(r.at[e.from].AtCell(), e.dir) else Neighbour(c, e.dir) == r.at[e.to].AtCell()
  }

  /** At rest no mismatch is worth repairing by moving one end to a free cell on the right side, up to ten
      cells away from where the exit would be one step long, that lowers the floor's mismatches. */
  lemma MismatchEndAtRest(zone: Zone, r: Layout, occ: Occupancy, z: int, e: Edge, target: bool, ideal: Cell, c: Cell)
    requires zone.Valid() && z in occ && RepairStuck(zone, r, occ, z) && IsMismatch(zone, r, z, e) && (target || e.from != e.to)
    requires RightBy(r, e, target, ideal) && Right(r, e, target, c) && Diamond.Dist(ideal, c) <= 10
    requires c != r.at[End(e, target)].AtCell() && c !in occ[z] && StaysSnug(zone, r, z, End(e, target), c)
    requires Mismatches(zone, Scores.Moved(r, End(e, target), c, z), z) < Mismatches(zone, r, z)
    ensures Score(zone, r, z, LIGHT) <= Score(zone, Scores.Moved(r, End(e, target), c, z), z, LIGHT)
  {
    var x := Scores.Moved(r, End(e, target), c, z);
    SideIsTried(zone, r, occ[z], z, e, target, ideal, c);
    hide Score, RepairStuck, StaysSnug, Mismatches, Right, RightBy, SideCell, SwapReaches, ShiftReaches, Union, Scores.Moved;
    assert x in SideMoves(zone, r, occ[z], z, e, target) by { assert SideMove(zone, r, occ[z], z, e, target, x); }
    InUnion(SideReaches(zone, r, occ[z], z, e), if target then 0 else 1, x);
    RepairAtRest(zone, r, occ, z, e, x);
  }

  lemma SideIsTried(zone: Zone, r: Layout, cells: set<Cell>, z: int, e: Edge, target: bool, ideal: Cell, c: Cell)
    requires zone.Valid() && IsMismatch(zone, r, z, e) && RightBy(r, e, target, ideal) && Right(r, e, target, c) && Diamond.Dist(ideal, c) <= 10
    requires c != r.at[End(e, target)].AtCell() && c !in cells && StaysSnug(zone, r, z, End(e, target), c)
    requires Mismatches(zone, Scores.Moved(r, End(e, target), c, z), z) < Mismatches(zone, r, z)
    ensures SideCell(zone, r, cells, z, e, target, c) && End(e, target) == Mover(e, target)
  {
    SnugIff(zone, r, z, End(e, target), c);
    RepairSide(e.dir, r.at[End(e, !target)], target, c);
    RepairIdeal(e.dir, r.at[End(e, !target)], target);
    hide StaysSnug, Mismatches, Violations.RightSide, Scores.Moved;
  }

  /** Nor by swapping one end with another room up to four cells away from there. */
  lemma MismatchSwapAtRest(zone: Zone, r: Layout, occ: Occupancy, z: int, e: Edge, target: bool, ideal: Cell, other: RoomId)
    requires zone.Valid() && z in occ && RepairStuck(zone, r, occ, z) && IsMismatch(zone, r, z, e) && (target || e.from != e.to)
    requires RightBy(r, e, target, ideal) && r.On(other, z) && other != e.from && other != e.to && Diamond.Dist(ideal, r.at[other].AtCell()) <= 4
    requires Guards.SwapDelta(zone, r, z, End(e, target), other) <= 0
    requires StaysSnug(zone, r, z, End(e, target), r.at[other].AtCell()) && StaysSnug(zone, r, z, other, r.at[End(e, target)].AtCell())
    ensures Score(zone, r, z, LIGHT) <= Score(zone, Swapped(r, End(e, target), other), z, LIGHT)
  {
    var mover := End(e, target);
    var x := Swapped(r, mover, other);
    SnugIff(zone, r, z, mover, r.at[other].AtCell());
    SnugIff(zone, r, z, other, r.at[mover].AtCell());
    RepairIdeal(e.dir, r.at[End(e, !target)], target);
    hide Score, RepairStuck, StaysSnug, Mismatches, Guards.SwapDelta, SideReaches, ShiftReaches, Union;
    assert SwapPartner(zone, r, z, e, target, other);
    assert x in NearSwaps(zone, r, z, e, target);
    InUnion(SwapReaches(zone, r, z, e), if target then 0 else 1, x);
    RepairAtRest(zone, r, occ, z, e, x);
  }

  // ---- Phase 4 ----

  /** Up to four cells from a room's ideal position, or up to two from a cell that one of its exits wants. */
  ghost predicate NearIdeal(zone: Zone, r: Layout, z: int, id: RoomId, c: Cell) {
    var ideal := IdealPosition(zone, r, z, id);
    ideal.Some? && (Diamond.Dist(ideal.value, c) <= 4 || exists w :: w in Wants(r, z, zone.Out(id)) && Diamond.Dist(w, c) <= 2)
  }

  /** On a floor where every room is at rest, no room that is not at its ideal position has a better
      harmless free cell near it. */
  lemma RoomAtRest(zone: Zone, r: Layout, cells: set<Cell>, z: int, id: RoomId, c: Cell)
    requires zone.Valid() && r.Valid() && AllAtRest(zone, r, cells, z, RelaxationScore, RELAX_CANDIDATE_RADIUS, NEIGHBOR_CANDIDATE_RADIUS)
    requires r.On(id, z) && NearIdeal(zone, r, z, id, c) && IdealPosition(zone, r, z, id) != Some(r.at[id].AtCell())
    requires c != r.at[id].AtCell() && c !in cells && Harmless(zone, r, z, id, c)
    ensures Score(zone, r, z, RelaxationScore) <= Score(zone, Scores.Moved(r, id, c, z), z, RelaxationScore)
  {
    AllowedWhenAligned(zone, r, cells, z, id, c);
    hide Score, IdealPosition, Allowed, Guarded, StaysSnug, Scores.Moved;
    assert id in FloorRooms(r, z);
    assert Reaches(zone, r, z, RELAX_CANDIDATE_RADIUS, NEIGHBOR_CANDIDATE_RADIUS, id, c);
  }

  // ---- Occlusions ----

  /** The room's move to the free cell adds no mismatch and leaves its exits along rows and columns. */
  ghost predicate Clean(zone: Zone, r: Layout, cells: set<Cell>, z: int, id: RoomId, c: Cell)
    requires id in r.at
  {
    c != r.at[id].AtCell() && c !in cells && Guards.LocalDelta(zone, r, z, id, c) <= 0 && InLine(zone, r, z, id, c)
  }

  lemma CleanIff(zone: Zone, r: Layout, cells: set<Cell>, z: int, id: RoomId, c: Cell)
    requires zone.Valid() && r.On(id, z)
    ensures Clean(zone, r, cells, z, id, c) <==> Allowed(zone, r, cells, z, NoNewDiagonal, id, c)
  {
    AllowedWhenStraight(zone, r, cells, z, id, c);
    hide Allowed, InLine, Guards.LocalMismatches;
  }

  /** On a floor that the occlusion fix leaves alone, no room has a better clean cell near its ideal position, */
  lemma SpacedRoomAtRest(zone: Zone, r: Layout, cells: set<Cell>, z: int, id: RoomId, c: Cell)
    requires zone.Valid() && r.Valid() && Occlusions.OcclusionStuck(zone, r, cells, z)
    requires r.On(id, z) && NearIdeal(zone, r, z, id, c) && Clean(zone, r, cells, z, id, c)
    ensures Score(zone, r, z, HEAVY) <= Score(zone, Scores.Moved(r, id, c, z), z, HEAVY)
  {
    CleanIff(zone, r, cells, z, id, c);
    hide Score, IdealPosition, Allowed, Clean, Scores.Moved, NoBetterSwaps, Occlusions.OccluderStuck, Occlusions.EvictionStuck, Occlusions.CompactStuck,
         Occlusions.OnSomeSegment, CountOcclusions;
    assert id in FloorRooms(r, z);
    assert Occlusions.SingleStuck(zone, r, cells, z, id);
    assert Occlusions.Near(zone, r, z, IdealPosition(zone, r, z, id).value, 0, RELAX_CANDIDATE_RADIUS, NEIGHBOR_CANDIDATE_RADIUS, id, c);
  }

  /** no two rooms are better swapped, */
  lemma SpacedSwapAtRest(zone: Zone, r: Layout, cells: set<Cell>, z: int, i: nat, j: nat)
    requires zone.Valid() && r.Valid() && Occlusions.OcclusionStuck(zone, r, cells, z) && i < j < |FloorRooms(r, z)|
    requires var a, b := FloorRooms(r, z)[i], FloorRooms(r, z)[j];
             && a in r.at && b in r.at && Guards.SwapDelta(zone, r, z, a, b) <= 0
             && InLine(zone, r, z, a, r.at[b].AtCell()) && InLine(zone, r, z, b, r.at[a].AtCell())
    ensures var a, b := FloorRooms(r, z)[i], FloorRooms(r, z)[j]; Score(zone, r, z, HEAVY) <= Score(zone, Swapped(r, a, b), z, HEAVY)
  {
    var a, b := FloorRooms(r, z)[i], FloorRooms(r, z)[j];
    SwappedWhen(zone, r, z, a, b);
    hide Score, SwapRefused, InLine, Guards.SwapDelta, Swapped, Occlusions.SingleStuck, Occlusions.OccluderStuck, Occlusions.EvictionStuck,
         Occlusions.CompactStuck, Occlusions.OnSomeSegment, CountOcclusions, FloorRooms;
    assert NoBetterSwap(zone, r, z, NoNewDiagonal, HEAVY, a, b);
  }

  /** and no room that stands between the ends of an exit has a better clean cell up to eight cells away. */
  lemma OccluderAtRest(zone: Zone, r: Layout, cells: set<Cell>, z: int, e: Edge, id: RoomId, c: Cell)
    requires zone.Valid() && r.Valid() && Occlusions.OcclusionStuck(zone, r, cells, z) && CountOcclusions(zone, r, z) > 0
    requires e in AllOut(zone, FloorRooms(r, z)) && InTheWay(r, z, e, id)
    requires 1 <= Diamond.Dist(r.at[id].AtCell(), c) <= 8 && Clean(zone, r, cells, z, id, c)
    ensures Score(zone, r, z, HEAVY) <= Score(zone, Scores.Moved(r, id, c, z), z, HEAVY)
  {
    OccludersAre(zone, r, z, FloorRooms(r, z), id);
    CleanIff(zone, r, cells, z, id, c);
    assert id in FloorRooms(r, z);
    hide Score, IdealPosition, Allowed, Clean, InTheWay, Scores.Moved, NoBetterSwaps, Occlusions.SingleStuck, Occlusions.EvictionStuck,
         Occlusions.CompactStuck, Occlusions.OnSomeSegment, CountOcclusions, FloorRooms;
    assert Occlusions.OccluderStuck(zone, r, cells, z, id);
    assert Occlusions.Near(zone, r, z, r.at[id].AtCell(), 1, Occlusions.OCCLUDER_SEARCH_RADIUS, RELAX_CANDIDATE_RADIUS, id, c);
  }

  // ---- Crossings ----

  lemma {:induction false} PairsWithHas(a: Segment, rest: seq<Segment>, j: nat)
    requires j < |rest| && SegmentsCross(a, rest[j])
    ensures (a, rest[j]) in Crossings.PairsWith(a, rest)
  {
    hide SegmentsCross;
    if j > 0 {
      PairsWithHas(a, rest[1..], j - 1);
    }
  }

  lemma {:induction false} CrossingPairsHave(segs: seq<Segment>, i: nat, j: nat)
    requires i < j < |segs| && SegmentsCross(segs[i], segs[j])
    ensures (segs[i], segs[j]) in Crossings.CrossingPairs(segs)
  {
    hide SegmentsCross, Crossings.PairsWith;
    if i == 0 {
      assert segs[1..][j - 1] == segs[j];
      PairsWithHas(segs[0], segs[1..], j - 1);
    } else {
      CrossingPairsHave(segs[1..], i - 1, j - 1);
    }
  }

  /** The exit is one of the zone, straight and at least two steps long. */
  predicate IsLine(zone: Zone, r: Layout, z: int, e: Edge) {
    e in AllOut(zone, zone.ids) && Measures.OnFloor(r, z, e) && !Slanted(r.at[e.from], r.at[e.to]) && Walk(r.at[e.from], r.at[e.to]) >= 2
  }

  lemma SegmentOn(zone: Zone, r: Layout, z: int, e: Edge) returns (i: nat)
    requires IsLine(zone, r, z, e)
    ensures i < |BuildEdgeSegments(zone, r, z)|
    ensures var s := BuildEdgeSegments(zone, r, z)[i]; Key(s) == {e.from, e.to} && EndsStand(r, s) && Crossings.Current(r, s) == s
  {
    assert Linked(zone, r, z, {e.from, e.to});
    hide Linked, BuildEdgeSegments;
    i := SegmentAt(zone, r, z, {e.from, e.to});
  }

  lemma StillCrosses(r: Layout, s: Segment, t: Segment)
    requires EndsStand(r, s) && EndsStand(r, t) && Crossings.Current(r, s) == s && Crossings.Current(r, t) == t && SegmentsCross(s, t)
    ensures Crossings.StillCross(r, s, t)
  {
    hide SegmentsCross;
  }

  /** Two exits whose lines meet are a listed pair that still crosses. */
  lemma CrossingIsListed(zone: Zone, r: Layout, z: int, e: Edge, f: Edge) returns (s: Segment, t: Segment)
    requires IsLine(zone, r, z, e) && IsLine(zone, r, z, f) && LinesMeet(r.at[e.from], r.at[e.to], r.at[f.from], r.at[f.to])
    ensures (s, t) in Crossings.CrossingPairs(BuildEdgeSegments(zone, r, z)) && EndsStand(r, s) && EndsStand(r, t) && Crossings.StillCross(r, s, t)
    ensures FourEnds(s.edge, t.edge) == FourEnds(e, f)
  {
    var segs := BuildEdgeSegments(zone, r, z);
    var i := SegmentOn(zone, r, z, e);
    var j := SegmentOn(zone, r, z, f);
    MeetOf(r, e.from, e.to, f.from, f.to);
    MeetCrosses(r, segs[i], segs[j]);
    SymmetricCross(segs[i], segs[j]);
    s, t := if i < j then segs[i] else segs[j], if i < j then segs[j] else segs[i];
    hide SegmentsCross, Meet, LinesMeet, IsLine, BuildEdgeSegments, Crossings.CrossingPairs, Crossings.Current, RunsFrom, Crossings.StillCross;
    assert i != j;
    StillCrosses(r, s, t);
    if i < j { CrossingPairsHave(segs, i, j); } else { CrossingPairsHave(segs, j, i); }
    FourRooms(Key(segs[i]), Key(segs[j]), segs[i].edge, segs[j].edge, e, f);
  }

  function FourEnds(e: Edge, f: Edge): set<RoomId> { {e.from, e.to, f.from, f.to} }

  lemma FourRooms(k: set<RoomId>, l: set<RoomId>, s: Edge, t: Edge, e: Edge, f: Edge)
    requires k == {s.from, s.to} == {e.from, e.to} && l == {t.from, t.to} == {f.from, f.to}
    ensures FourEnds(s, t) == FourEnds(e, f) == FourEnds(t, s)
  {
    assert {s.from, s.to, t.from, t.to} == k + l == {e.from, e.to, f.from, f.to};
  }

  /** No exit of the room is or becomes diagonal at the free cell, no mismatch is added and its exits of one
      step stay on their axes. */
  ghost predicate Spotless(zone: Zone, r: Layout, cells: set<Cell>, z: int, id: RoomId, c: Cell)
    requires id in r.at
  {
    c !in cells && InLine(zone, r, z, id, c) && InLineBack(zone, r, z, id, c) && Harmless(zone, r, z, id, c)
  }

  lemma SpotlessIff(zone: Zone, r: Layout, cells: set<Cell>, z: int, id: RoomId, c: Cell)
    requires zone.Valid() && r.On(id, z)
    ensures Spotless(zone, r, cells, z, id, c) <==> Crossings.Untangling(zone, r, cells, z, id, c)
  {
    UntangledWhen(zone, r, cells, z, id, c);
    hide Crossings.Untangling, InLine, InLineBack, StaysSnug, Guards.LocalMismatches;
  }

  /** On a floor that phase 5d leaves alone no end of two exits whose lines meet has a spotless cell up to six
      cells away at which there are fewer crossings. */
  lemma CrossingAtRest(zone: Zone, r: Layout, cells: set<Cell>, z: int, e: Edge, f: Edge, id: RoomId, c: Cell)
    requires zone.Valid() && Crossings.FloorStuck(zone, r, cells, z)
    requires IsLine(zone, r, z, e) && IsLine(zone, r, z, f) && LinesMeet(r.at[e.from], r.at[e.to], r.at[f.from], r.at[f.to])
    requires id in FourEnds(e, f) && 1 <= Diamond.Dist(r.at[id].AtCell(), c) <= 6 && Spotless(zone, r, cells, z, id, c)
    ensures CountCrossings(zone, r, z) <= CountCrossings(zone, Scores.Moved(r, id, c, z), z)
  {
    LineEnds(zone, r, z, e, f, id);
    hide *;
    SpotlessIff(zone, r, cells, z, id, c);
    var s, t := CrossingIsListed(zone, r, z, e, f);
    EndIsStuck(zone, r, cells, z, s, t, id);
    StuckMeans(zone, r, cells, z, id, c);
  }

  lemma LineEnds(zone: Zone, r: Layout, z: int, e: Edge, f: Edge, id: RoomId)
    requires IsLine(zone, r, z, e) && IsLine(zone, r, z, f) && id in FourEnds(e, f)
    ensures r.On(id, z)
  {
  }

  lemma StuckMeans(zone: Zone, r: Layout, cells: set<Cell>, z: int, id: RoomId, c: Cell)
    requires Crossings.Stuck(zone, r, cells, z, id) && id in r.at
    requires 1 <= Diamond.Dist(r.at[id].AtCell(), c) <= 6 && Crossings.Untangling(zone, r, cells, z, id, c)
    ensures CountCrossings(zone, r, z) <= CountCrossings(zone, Scores.Moved(r, id, c, z), z)
  {
    hide Crossings.Untangling, Scores.Moved, CountCrossings;
  }

  lemma EndIsStuck(zone: Zone, r: Layout, cells: set<Cell>, z: int, s: Segment, t: Segment, id: RoomId)
    requires Crossings.FloorStuck(zone, r, cells, z) && (s, t) in Crossings.CrossingPairs(BuildEdgeSegments(zone, r, z))
    requires EndsStand(r, s) && EndsStand(r, t) && Crossings.StillCross(r, s, t) && id in FourEnds(s.edge, t.edge)
    ensures Crossings.Stuck(zone, r, cells, z, id)
  {
    hide Crossings.Stuck, BuildEdgeSegments, Crossings.StillCross, RunsFrom, Crossings.CrossingPairs;
    assert Crossings.PairStuck(zone, r, cells, z, (s, t).0, (s, t).1);
  }
}
