/** Which cells, shifts and groups the phases try and which they refuse, read off positions alone. */
module Candidates {
  import opened Sums
  import opened Zones
  import opened Scores
  import opened Segments
  import opened AxisGroups
  import opened Measures
  import opened Boards
  import Guards
  import Diamond
  import Placement
  import Grid
  import Relax
  import Cascades
  import Violations
  import Align
  import Isomorphism
  import Crossings
  import Insertions
  import Occlusions
  import Expansion
  import LayoutEngine

  // ---- The order of things ----

  lemma {:induction false} ExitsAppend(id: RoomId, a: seq<Exit>, b: seq<Exit>)
    ensures OutOf(id, a + b) == OutOf(id, a) + OutOf(id, b)
  {
    if a == [] {
      assert a + b == b;
    } else {
      assert (a + b)[0] == a[0] && (a + b)[1..] == a[1..] + b;
      ExitsAppend(id, a[1..], b);
    }
  }

  lemma {:induction false} RoomsAppend(zone: Zone, a: seq<RoomId>, b: seq<RoomId>)
    ensures AllOut(zone, a + b) == AllOut(zone, a) + AllOut(zone, b)
  {
    if a == [] {
      assert a + b == b;
    } else {
      assert (a + b)[0] == a[0] && (a + b)[1..] == a[1..] + b;
      RoomsAppend(zone, a[1..], b);
    }
  }

  lemma {:induction false} FloorAppend(r: Layout, z: int, a: seq<RoomId>, b: seq<RoomId>)
    ensures FloorRoomsOf(r, z, a + b) == FloorRoomsOf(r, z, a) + FloorRoomsOf(r, z, b)
  {
    if a == [] {
      assert a + b == b;
    } else {
      assert (a + b)[0] == a[0] && (a + b)[1..] == a[1..] + b;
      FloorAppend(r, z, a[1..], b);
    }
  }

  /** A room's exits come in the order of its direction map, */
  lemma ExitsInOrder(id: RoomId, first: seq<Exit>, e: Exit, rest: seq<Exit>)
    requires Cardinal(e.dir)
    ensures OutOf(id, first + [e] + rest) == OutOf(id, first) + [Edge(id, e.dir, e.target)] + OutOf(id, rest)
  {
    assert [e][1..] == [] && OutOf(id, [e]) == [Edge(id, e.dir, e.target)] + OutOf(id, []);
    ExitsAppend(id, first + [e], rest);
    ExitsAppend(id, first, [e]);
    hide OutOf;
  }

  /** those of several rooms in the order of the rooms, */
  lemma RoomsInOrder(zone: Zone, before: seq<RoomId>, id: RoomId, after: seq<RoomId>)
    ensures AllOut(zone, before + [id] + after) == AllOut(zone, before) + zone.Out(id) + AllOut(zone, after)
  {
    assert [id][1..] == [] && AllOut(zone, [id]) == zone.Out(id) + AllOut(zone, []);
    RoomsAppend(zone, before + [id], after);
    RoomsAppend(zone, before, [id]);
    hide AllOut, Zone.Out;
  }

  /** and the rooms of a floor in the order in which they were placed. */
  lemma FloorInOrder(r: Layout, z: int, before: seq<RoomId>, id: RoomId, after: seq<RoomId>)
    requires r.On(id, z)
    ensures FloorRoomsOf(r, z, before + [id] + after) == FloorRoomsOf(r, z, before) + [id] + FloorRoomsOf(r, z, after)
  {
    hide FloorRoomsOf;
    FloorAppend(r, z, before + [id], after);
    FloorAppend(r, z, before, [id]);
    FloorOne(r, z, id);
  }

  lemma FloorOne(r: Layout, z: int, id: RoomId)
    requires r.On(id, z)
    ensures FloorRoomsOf(r, z, [id]) == [id]
  {
    assert [id][1..] == [] && FloorRoomsOf(r, z, []) == [];
  }

  // ---- Where an exit wants its room ----

  /** From the cell, the exit would lead one step in its direction. */
  predicate Wanted(r: Layout, z: int, e: Edge, c: Cell) {
    Cardinal(e.dir) && r.On(e.to, z) && Neighbour(c, e.dir) == r.at[e.to].AtCell()
  }

  /** The exits that lead to a room of the floor. */
  function Present(r: Layout, z: int, out: seq<Edge>): seq<Edge> {
    if out == [] then [] else (if r.On(out[0].to, z) then [out[0]] else []) + Present(r, z, out[1..])
  }

  /** Every exit to a room of the floor wants the one cell from which it is one step long. */
  lemma {:induction false} WantsAreWanted(r: Layout, z: int, out: seq<Edge>)
    requires forall e :: e in out ==> Cardinal(e.dir)
    ensures var wants, exits := Relax.Wants(r, z, out), Present(r, z, out);
            |wants| == |exits| && forall i :: 0 <= i < |wants| ==> Wanted(r, z, exits[i], wants[i])
  {
    if out != [] {
      assert out[0] in out && forall e :: e in out[1..] ==> e in out;
      WantsAreWanted(r, z, out[1..]);
    }
  }

  /** The whole number nearest to sum / n, the larger one of two. */
  predicate IsNearest(m: int, sum: int, n: nat) {
    2 * sum - n < 2 * n * m <= 2 * sum + n
  }

  lemma RoundedIsNearest(sum: int, n: nat)
    requires n > 0
    ensures IsNearest(Relax.Rounded(sum, n), sum, n)
  {
    var a, b := 2 * sum + n, 2 * n;
    assert a == b * (a / b) + a % b && 0 <= a % b < b;
  }

  function SumX(cells: seq<Cell>): int { if cells == [] then 0 else cells[0].x + SumX(cells[1..]) }
  function SumY(cells: seq<Cell>): int { if cells == [] then 0 else cells[0].y + SumY(cells[1..]) }

  lemma {:induction false} SumsOf(cells: seq<Cell>, fx: Cell -> int, fy: Cell -> int)
    requires forall c :: fx(c) == c.x && fy(c) == c.y
    ensures Sum(cells, fx) == SumX(cells) && Sum(cells, fy) == SumY(cells)
  {
    if cells != [] {
      SumsOf(cells[1..], fx, fy);
    }
  }

  /** The ideal position is the mean of the wanted cells, and there is one exactly when there are wanted cells. */
  lemma IdealIsMean(zone: Zone, r: Layout, z: int, id: RoomId)
    ensures var wants, ideal := Relax.Wants(r, z, zone.Out(id)), Relax.IdealPosition(zone, r, z, id);
            && (ideal == None <==> wants == [])
            && (ideal.Some? ==> IsNearest(ideal.value.x, SumX(wants), |wants|) && IsNearest(ideal.value.y, SumY(wants), |wants|))
  {
    var wants := Relax.Wants(r, z, zone.Out(id));
    hide Relax.Wants, IsNearest, Relax.Rounded;
    if wants != [] {
      SumsOf(wants, (c: Cell) => c.x, (c: Cell) => c.y);
      RoundedIsNearest(Sum(wants, (c: Cell) => c.x), |wants|);
      RoundedIsNearest(Sum(wants, (c: Cell) => c.y), |wants|);
    }
  }

  // ---- Which moves are allowed ----

  /** Every exit of the room to a room of the floor runs along a row or a column from the cell. */
  ghost predicate InLine(zone: Zone, r: Layout, z: int, id: RoomId, c: Cell) {
    forall e :: Guards.HasExit(zone, e) && e.from == id && r.On(e.to, z) ==> c.x == r.at[e.to].x || c.y == r.at[e.to].y
  }

  /** And every exit that leads to it does. */
  ghost predicate InLineBack(zone: Zone, r: Layout, z: int, id: RoomId, c: Cell) {
    forall e :: Guards.HasExit(zone, e) && e.to == id && r.On(e.from, z) ==> c.x == r.at[e.from].x || c.y == r.at[e.from].y
  }

  /** Every exit of the room that is one step long and on its axis stays on it. */
  ghost predicate StaysSnug(zone: Zone, r: Layout, z: int, id: RoomId, c: Cell) {
    forall e :: Guards.Snug(zone, r, z, id, e) ==> Guards.OnAxis(e.dir, Guards.CellAfter(r, id, c, e.from), Guards.CellAfter(r, id, c, e.to))
  }

  lemma InLineIff(zone: Zone, r: Layout, z: int, id: RoomId, c: Cell)
    requires zone.Valid()
    ensures !Relax.WouldCreateDiag(zone, r, z, id, c) <==> InLine(zone, r, z, id, c)
    ensures !Crossings.CreatesDiag(zone, r, z, id, c) <==> InLine(zone, r, z, id, c) && InLineBack(zone, r, z, id, c)
  {
    Guards.GuardReads(zone, id);
    hide Guards.HasExit, Zone.Out, Zone.In;
  }

  /** A move is allowed in phase 4 exactly when the cell is free and another one, the room's mismatches do
      not grow, and the exits that are one step long stay on their axis. */
  lemma AllowedWhenAligned(zone: Zone, r: Layout, cells: set<Cell>, z: int, id: RoomId, c: Cell)
    requires zone.Valid() && r.On(id, z)
    ensures Relax.Allowed(zone, r, cells, z, Relax.KeepAlignment, id, c) <==>
            c != r.at[id].AtCell() && c !in cells && Guards.LocalDelta(zone, r, z, id, c) <= 0 && StaysSnug(zone, r, z, id, c)
    ensures Cascades.Guarded(zone, r, z, id, c) <==> !(Guards.LocalDelta(zone, r, z, id, c) <= 0 && StaysSnug(zone, r, z, id, c))
  {
    Guards.AlignmentGuardExact(zone, r, z, id, c);
    hide Guards.MoveWouldBreakAlignment, StaysSnug, Guards.Snug, Guards.LocalMismatches;
    assert StaysSnug(zone, r, z, id, c) <==> !Guards.MoveWouldBreakAlignment(zone, r, z, id, c) by { SnugIff(zone, r, z, id, c); }
  }

  lemma SnugIff(zone: Zone, r: Layout, z: int, id: RoomId, c: Cell)
    requires zone.Valid() && r.On(id, z)
    ensures StaysSnug(zone, r, z, id, c) <==> !Guards.MoveWouldBreakAlignment(zone, r, z, id, c)
  {
    Guards.AlignmentGuardExact(zone, r, z, id, c);
    hide Guards.MoveWouldBreakAlignment, Guards.Snug, Guards.OnAxis;
  }

  /** And from phase 6 on when the room's own exits run along rows and columns instead. */
  lemma AllowedWhenStraight(zone: Zone, r: Layout, cells: set<Cell>, z: int, id: RoomId, c: Cell)
    requires zone.Valid() && r.On(id, z)
    ensures Relax.Allowed(zone, r, cells, z, Relax.NoNewDiagonal, id, c) <==>
            c != r.at[id].AtCell() && c !in cells && Guards.LocalDelta(zone, r, z, id, c) <= 0 && InLine(zone, r, z, id, c)
  {
    InLineIff(zone, r, z, id, c);
    hide Relax.WouldCreateDiag, InLine, Guards.LocalMismatches;
  }

  /** A crossing is untangled by moves to free cells that do all of this, for both ways of an exit. */
  lemma UntangledWhen(zone: Zone, r: Layout, cells: set<Cell>, z: int, id: RoomId, c: Cell)
    requires zone.Valid() && r.On(id, z)
    ensures Crossings.Untangling(zone, r, cells, z, id, c) <==>
            && c !in cells && InLine(zone, r, z, id, c) && InLineBack(zone, r, z, id, c)
            && Guards.LocalDelta(zone, r, z, id, c) <= 0 && StaysSnug(zone, r, z, id, c)
  {
    InLineIff(zone, r, z, id, c);
    SnugIff(zone, r, z, id, c);
    hide Crossings.CreatesDiag, InLine, InLineBack, StaysSnug, Guards.MoveWouldBreakAlignment, Guards.LocalMismatches;
  }

  /** Two rooms may be swapped exactly when their mismatches do not grow, and from phase 6 on only when
      each one's exits run along rows and columns from the other's cell. */
  lemma SwappedWhen(zone: Zone, r: Layout, z: int, a: RoomId, b: RoomId)
    requires zone.Valid() && a in r.at && b in r.at
    ensures !Relax.SwapRefused(zone, r, z, Relax.KeepAlignment, a, b) <==> Guards.SwapDelta(zone, r, z, a, b) <= 0
    ensures !Relax.SwapRefused(zone, r, z, Relax.NoNewDiagonal, a, b) <==>
            Guards.SwapDelta(zone, r, z, a, b) <= 0 && InLine(zone, r, z, a, r.at[b].AtCell()) && InLine(zone, r, z, b, r.at[a].AtCell())
  {
    InLineIff(zone, r, z, a, r.at[b].AtCell());
    InLineIff(zone, r, z, b, r.at[a].AtCell());
    hide Relax.WouldCreateDiag, InLine, Guards.SwapDelta;
  }

  // ---- Straightening a diagonal ----

  /** The coordinate along an axis: x for east and west, y for north and south. */
  function Along(d: Dir, c: Cell): int { if d == East || d == West then c.x else c.y }

  /** The other one. */
  function Across(d: Dir, c: Cell): int { if d == East || d == West then c.y else c.x }

  predicate Upwards(d: Dir) { d == North || d == South }

  /** Either end is brought onto the other's row or column and keeps its place along it. */
  lemma EndsStraighten(r: Layout, e: Edge)
    requires e.from in r.at && e.to in r.at && Cardinal(e.dir)
    ensures var p, q, ends := r.at[e.from].AtCell(), r.at[e.to].AtCell(), Cascades.EndTargets(r, e, Upwards(e.dir));
            && |ends| == 2 && ends[0].0 == e.from && ends[1].0 == e.to
            && Across(e.dir, ends[0].1) == Across(e.dir, q) && Along(e.dir, ends[0].1) == Along(e.dir, p)
            && Across(e.dir, ends[1].1) == Across(e.dir, p) && Along(e.dir, ends[1].1) == Along(e.dir, q)
  {
  }

  /** Or both ends are brought onto a third one: either end's own, or the middle. */
  lemma PairStraightens(r: Layout, e: Edge, line: int)
    requires e.from in r.at && e.to in r.at && Cardinal(e.dir) && e.from != e.to
    ensures var p, q, to := r.at[e.from].AtCell(), r.at[e.to].AtCell(), Cascades.PairMove(r, e, Upwards(e.dir), line);
            && to.Keys == {e.from, e.to} && Across(e.dir, to[e.from]) == line && Across(e.dir, to[e.to]) == line
            && Along(e.dir, to[e.from]) == Along(e.dir, p) && Along(e.dir, to[e.to]) == Along(e.dir, q)
    ensures var p, q, lines := r.at[e.from].AtCell(), r.at[e.to].AtCell(), Cascades.AxisTargets(r, e, Upwards(e.dir));
            && |lines| == 3 && lines[0] == Across(e.dir, p) && lines[1] == Across(e.dir, q)
            && IsNearest(lines[2], Across(e.dir, p) + Across(e.dir, q), 2)
  {
    RoundedIsNearest(r.at[e.from].x + r.at[e.to].x, 2);
    RoundedIsNearest(r.at[e.from].y + r.at[e.to].y, 2);
    hide Relax.Rounded;
  }

  /** A pushed room takes along the neighbour of an exit that was one step long and would be diagonal,
      on the wrong side, or more than two steps long. */
  lemma TakenAlong(d: Dir, p: Pos, now: Pos, q: Pos)
    requires Cardinal(d)
    ensures Cascades.Disturbed(Off(d), p, now, q) <==>
            Guards.OneStepApart(p.AtCell(), q.AtCell()) && (Slanted(now, q) || WrongSide(d, now, q) || Walk(now, q) > 2)
  {
  }

  /** The first shift brings the room onto the other's line, and then come one and two steps either way. */
  lemma ShiftsTried(r: Layout, d: Dir, start: RoomId, other: RoomId)
    requires start in r.at && other in r.at && Cardinal(d)
    ensures var n := Across(d, r.at[other].AtCell()) - Across(d, r.at[start].AtCell());
            Cascades.ShiftsToward(r, Upwards(d), start, other)
            == if n == 0 || n == -1 then [-1, 1, -2, 2] else if n == 1 then [1, -1, -2, 2]
               else if n == -2 then [-2, -1, 1, 2] else if n == 2 then [2, -1, 1, -2] else [n, -1, 1, -2, 2]
  {
  }

  // ---- Repairing a mismatch ----

  /** The cell the moved end of an exit is looked for around is one step from the other end. */
  lemma RepairIdeal(d: Dir, anchor: Pos, isTarget: bool)
    requires Cardinal(d)
    ensures var c := Violations.Ideal(anchor, Off(d), isTarget);
            if isTarget then c == Neighbour(anchor.AtCell(), d) else Neighbour(c, d) == anchor.AtCell()
  {
  }

  /** Only cells on the right side of the other end are tried. */
  lemma RepairSide(d: Dir, anchor: Pos, isTarget: bool, c: Cell)
    requires Cardinal(d)
    ensures Violations.RightSide(anchor, Off(d), isTarget, c) <==>
            if isTarget then !WrongSide(d, anchor, At(c, anchor.z)) else !WrongSide(d, At(c, anchor.z), anchor)
  {
  }

  /** A shifted group takes along the target of an exit that would become diagonal or lie on the wrong side. */
  lemma RepairPulls(r: Layout, z: int, d: Dir, shift: int, e: Edge)
    requires Cardinal(e.dir) && BothOn(r, z, e)
    ensures var p, q := r.at[e.from], r.at[e.to];
            var now := if d == East || d == West then Pos(p.x + shift, p.y, z) else Pos(p.x, p.y + shift, z);
            Violations.LeftBroken(r, z, d == East || d == West, shift, e) <==> Slanted(now, q) || WrongSide(e.dir, now, q)
  {
  }

  /** The first shift brings the target one step past the source in the exit's direction, the second one
      further; then one and two steps toward that side. */
  lemma RepairShifts(d: Dir, p: Pos, q: Pos)
    requires Cardinal(d)
    ensures var s, here, there := Violations.ShiftsFor(!Upwards(d), Off(d), p, q), Along(d, p.AtCell()), Along(d, q.AtCell());
            && |s| == 4 && there + s[0] == Along(d, Neighbour(p.AtCell(), d)) && s[1] == s[0] + (if s[0] > 0 then 1 else -1)
            && s[2] == (if (there <= here) == (d == East || d == South) then 1 else -1) && s[3] == 2 * s[2]
  {
  }

  /** Those last two shifts go the way of the exit unless it leads west or north and its target lies
      strictly on the wrong side; then they take the target further away. */
  lemma RepairShiftsAstray(d: Dir, p: Pos, q: Pos)
    requires Cardinal(d) && WrongSide(d, p, q)
    ensures var s := Violations.ShiftsFor(!Upwards(d), Off(d), p, q);
            s[2] == (if d == East || d == South then 1 else -1) <==> d == East || d == South || Along(d, p.AtCell()) == Along(d, q.AtCell())
  {
    RepairShifts(d, p, q);
  }

  // ---- Aligning rows and columns ----

  /** Exits to the east and west join the rooms of a row, those to the north and south those of a column. */
  lemma AxesAre(r: Layout, axis: Axis, d: Dir, id: RoomId)
    requires id in r.at
    ensures axis.Includes(d) <==> if axis == EastWest then d == East || d == West else d == North || d == South
    ensures axis.Includes(d) ==> Align.Coord(r, axis, id) == Across(d, r.at[id].AtCell())
    ensures axis.Other().Includes(d) ==> Align.Coord(r, axis, id) == Along(d, r.at[id].AtCell())
  {
  }

  /** A group has as many misaligned rooms as do not share the first one's coordinate. */
  lemma {:induction false} MisalignedIs(r: Layout, axis: Axis, c0: int, group: seq<RoomId>, off: set<nat>)
    requires forall id :: id in group ==> id in r.at
    requires forall i: nat :: i in off <==> i < |group| && (if axis == EastWest then r.at[group[i]].y else r.at[group[i]].x) != c0
    ensures Align.MisalignedIn(r, axis, c0, group) == |off|
  {
    var f := (id: RoomId) => if id in r.at && Align.Coord(r, axis, id) != c0 then 1 else 0;
    MisalignedIsSum(r, axis, c0, group, f);
    forall i: nat ensures i in off <==> i < |group| && f(group[i]) == 1 {
      if i < |group| { assert group[i] in group; }
    }
    SumIsCard(group, f, off);
  }

  lemma {:induction false} MisalignedIsSum(r: Layout, axis: Axis, c0: int, group: seq<RoomId>, f: RoomId -> int)
    requires forall id :: id in group ==> id in r.at && f(id) == if Align.Coord(r, axis, id) != c0 then 1 else 0
    ensures Align.MisalignedIn(r, axis, c0, group) == Sum(group, f)
  {
    if group != [] {
      assert group[0] in group;
      MisalignedIsSum(r, axis, c0, group[1..], f);
    }
  }

  lemma DragsOut(zone: Zone, axis: Axis, root: map<RoomId, RoomId>, mine: RoomId, cur: RoomId, x: RoomId)
    requires zone.Valid() && Align.Dragged(zone, axis, root, mine, cur, x)
    ensures exists e, next :: DragsAlong(zone, axis, cur, e, next) && Align.Drags(root, mine, next, x)
  {
    Guards.GuardReads(zone, cur);
    hide Guards.HasExit, Zone.Out, Zone.In, Align.Drags;
    if e :| e in zone.Out(cur) && axis.Other().Includes(e.dir) && Align.Drags(root, mine, e.to, x) {
      assert DragsAlong(zone, axis, cur, e, e.to);
    } else {
      var e :| e in zone.In(cur) && axis.Other().Includes(e.dir) && Align.Drags(root, mine, e.from, x);
      assert DragsAlong(zone, axis, cur, e, e.from);
    }
  }

  lemma DragsBack(zone: Zone, axis: Axis, root: map<RoomId, RoomId>, mine: RoomId, cur: RoomId, e: Edge, next: RoomId, x: RoomId)
    requires zone.Valid() && DragsAlong(zone, axis, cur, e, next) && Align.Drags(root, mine, next, x)
    ensures Align.Dragged(zone, axis, root, mine, cur, x)
  {
    Guards.GuardReads(zone, cur);
    hide Guards.HasExit, Zone.Out, Zone.In, Align.Drags;
  }

  /** Along the exits of the other axis a moved room drags whole groups along, its own one excepted. */
  lemma DraggedAre(zone: Zone, axis: Axis, root: map<RoomId, RoomId>, mine: RoomId, cur: RoomId, x: RoomId)
    requires zone.Valid()
    ensures Align.Dragged(zone, axis, root, mine, cur, x) <==>
            exists e, next :: DragsAlong(zone, axis, cur, e, next) && next in root && root[next] != mine && x in root && root[x] == root[next]
  {
    hide DragsAlong, Align.Dragged;
    if Align.Dragged(zone, axis, root, mine, cur, x) {
      DragsOut(zone, axis, root, mine, cur, x);
    }
    if e, next :| DragsAlong(zone, axis, cur, e, next) && next in root && root[next] != mine && x in root && root[x] == root[next] {
      DragsBack(zone, axis, root, mine, cur, e, next, x);
    }
  }

  /** The exit joins the two rooms, along a column when rows are aligned and along a row when columns are. */
  predicate DragsAlong(zone: Zone, axis: Axis, cur: RoomId, e: Edge, next: RoomId) {
    && Guards.HasExit(zone, e) && ((e.from == cur && e.to == next) || (e.to == cur && e.from == next))
    && if axis == EastWest then e.dir == North || e.dir == South else e.dir == East || e.dir == West
  }

  /** A batch moves its rooms by their distances across the axis and not along it. */
  lemma BatchMoves(r: Layout, axis: Axis, batch: Align.Batch, id: RoomId)
    requires id in batch.delta && id in r.at
    ensures id in Align.Targets(r, axis, batch)
    ensures Align.Targets(r, axis, batch)[id]
            == if axis == EastWest then Cell(r.at[id].x, r.at[id].y + batch.delta[id]) else Cell(r.at[id].x + batch.delta[id], r.at[id].y)
  {
  }

  // ---- Crossing pairs ----

  /** A pair listed earlier still crosses exactly when both exits are straight and their lines meet as the
      rooms now stand. */
  lemma StillCrossIff(r: Layout, a: Segment, b: Segment)
    requires a.edge.from in r.at && a.edge.to in r.at && b.edge.from in r.at && b.edge.to in r.at
    ensures var p, q, u, v := r.at[a.edge.from], r.at[a.edge.to], r.at[b.edge.from], r.at[b.edge.to];
            Crossings.StillCross(r, a, b) <==> !Slanted(p, q) && !Slanted(u, v) && (LinesMeet(p, q, u, v) || LinesMeet(u, v, p, q))
  {
    var p, q, u, v := r.at[a.edge.from], r.at[a.edge.to], r.at[b.edge.from], r.at[b.edge.to];
    if p == q || u == v {
      assert forall o :: !StandsBetween(p, q, o) || !StandsBetween(u, v, o);
    } else if !Slanted(p, q) && !Slanted(u, v) {
      CrossIsLinesMeet(Crossings.Current(r, a), Crossings.Current(r, b), p, q, u, v);
      hide SegmentsCross, LinesMeet;
    }
  }

  /** An insertion is refused for a diagonal exactly when an exit to or from a room of the moved group runs
      neither along a row nor along a column. */
  lemma GroupDiagIff(zone: Zone, r: Layout, z: int, group: seq<RoomId>)
    requires zone.Valid()
    ensures Insertions.GroupDiag(zone, r, z, group) <==>
            exists id :: id in group && id in r.at && !(InLine(zone, r, z, id, r.at[id].AtCell()) && InLineBack(zone, r, z, id, r.at[id].AtCell()))
  {
    forall id | id in r.at
      ensures Crossings.CreatesDiag(zone, r, z, id, r.at[id].AtCell())
              <==> !(InLine(zone, r, z, id, r.at[id].AtCell()) && InLineBack(zone, r, z, id, r.at[id].AtCell()))
    {
      InLineIff(zone, r, z, id, r.at[id].AtCell());
    }
    hide InLine, InLineBack, Crossings.CreatesDiag;
  }

  // ---- Inserting a row or a column ----

  /** The segment moved into the gap of the insertion, and the other one shifted with the rooms beyond. */
  function IntoGap(s: Isomorphism.Insertion, a: Segment): Segment {
    if s.onX then Segment(a.edge, s.Gap(), a.y1, s.Gap(), a.y2, a.horizontal)
    else Segment(a.edge, a.x1, s.Gap(), a.x2, s.Gap(), a.horizontal)
  }

  function Shifted(s: Isomorphism.Insertion, a: Segment): Segment {
    if s.onX then Segment(a.edge, s.Coord(a.x1), a.y1, s.Coord(a.x2), a.y2, a.horizontal)
    else Segment(a.edge, a.x1, s.Coord(a.y1), a.x2, s.Coord(a.y2), a.horizontal)
  }

  /** Every candidate for a crossing pair would uncross it: the row of the horizontal one goes above or
      below the vertical one, or the column of the vertical one to the left or right of the horizontal
      one. All four are tried. */
  lemma CandidatesUncross(h: Segment, v: Segment, c: Insertions.Candidate)
    requires h.horizontal && !v.horizontal && Upright(h) && Upright(v) && c in Insertions.CandidatesFor(h, v)
    ensures if c.s.onX then c.seed == v.edge.from && !SegmentsCross(Shifted(c.s, h), IntoGap(c.s, v))
            else c.seed == h.edge.from && !SegmentsCross(IntoGap(c.s, h), Shifted(c.s, v))
    ensures c.jump == Gap(if c.s.onX then v.x1 else h.y1, c.s.Gap())
  {
    CandidateIs(h, v, c);
    hide Insertions.CandidatesFor, SegmentsCross;
    if c.s.onX {
      OutsideColumn(c.s, h, v);
    } else {
      OutsideRow(c.s, h, v);
    }
  }

  lemma OutsideRow(s: Isomorphism.Insertion, h: Segment, v: Segment)
    requires h.horizontal && !v.horizontal && !s.onX && s.boundary == if s.below then Min(v.y1, v.y2) else Max(v.y1, v.y2)
    ensures !SegmentsCross(IntoGap(s, h), Shifted(s, v))
  {
  }

  lemma OutsideColumn(s: Isomorphism.Insertion, h: Segment, v: Segment)
    requires h.horizontal && !v.horizontal && s.onX && s.boundary == if s.below then Min(h.x1, h.x2) else Max(h.x1, h.x2)
    ensures !SegmentsCross(Shifted(s, h), IntoGap(s, v))
  {
  }

  function Four(h: Segment, v: Segment): seq<Insertions.Candidate> {
    [Insertions.Candidate(Isomorphism.Insertion(false, true, Min(v.y1, v.y2)), h.edge.from, Gap(h.y1, Min(v.y1, v.y2) - 1)),
     Insertions.Candidate(Isomorphism.Insertion(false, false, Max(v.y1, v.y2)), h.edge.from, Gap(h.y1, Max(v.y1, v.y2) + 1)),
     Insertions.Candidate(Isomorphism.Insertion(true, true, Min(h.x1, h.x2)), v.edge.from, Gap(v.x1, Min(h.x1, h.x2) - 1)),
     Insertions.Candidate(Isomorphism.Insertion(true, false, Max(h.x1, h.x2)), v.edge.from, Gap(v.x1, Max(h.x1, h.x2) + 1))]
  }

  lemma CandidateIs(h: Segment, v: Segment, c: Insertions.Candidate)
    ensures c in Insertions.CandidatesFor(h, v) <==> c in Four(h, v)
  {
    hide Min, Max;
    assert Insertions.CandidatesFor(h, v) == Insertions.ShortestFirst(Four(h, v));
  }

  /** What moves into the gap are the rooms joined along the inserted line. */
  lemma GroupsMoved(s: Isomorphism.Insertion, d: Dir)
    ensures Insertions.GroupAxis(s).Includes(d) <==> if s.onX then d == North || d == South else d == East || d == West
  {
  }

  // ---- Who occludes ----

  lemma BetweenTurned(p: Pos, q: Pos)
    ensures forall c :: StandsBetween(p, q, c) <==> StandsBetween(q, p, c)
  {
  }

  lemma OnSegmentIff(r: Layout, z: int, s: Segment, id: RoomId)
    requires Drawn(r, z, s) && r.On(id, z)
    ensures Occlusions.OnSegment(r, s, id) <==> StandsBetween(r.at[s.edge.from], r.at[s.edge.to], r.at[id].AtCell())
  {
  }

  /** The rooms on some segment are those that stand between the ends of some exit, whichever exit of a
      pair the segment was drawn for. */
  lemma OccludersAre(zone: Zone, r: Layout, z: int, ids: seq<RoomId>, id: RoomId)
    requires r.On(id, z)
    ensures Occlusions.OnSomeSegment(zone, r, z, ids, id) <==> exists e :: e in AllOut(zone, ids) && InTheWay(r, z, e, id)
  {
    var edges, segs := AllOut(zone, ids), SegmentsFrom(r, z, 2, AllOut(zone, ids), {});
    SegmentsDrawn(r, z, edges, {});
    hide SegmentsFrom, Occlusions.OnSegment, StandsBetween;
    if s :| s in segs && Occlusions.OnSegment(r, s, id) {
      OnSegmentIff(r, z, s, id);
      CardinalEdge(zone, ids, s.edge);
      assert InTheWay(r, z, s.edge, id);
    }
    if e :| e in edges && InTheWay(r, z, e, id) {
      StraightIfBetween(r, z, e, id);
      SegmentOfPair(r, z, edges, {}, e);
      var s :| s in segs && Key(s) == {e.from, e.to};
      SamePair(s.edge.from, s.edge.to, e.from, e.to);
      DrawnHasEnds(r, z, s);
      BetweenTurned(r.at[e.from], r.at[e.to]);
      OnSegmentIff(r, z, s, id);
    }
  }

  lemma CardinalEdge(zone: Zone, ids: seq<RoomId>, e: Edge)
    requires e in AllOut(zone, ids)
    ensures Cardinal(e.dir)
  {
    AllOutMembers(zone, ids);
    OutMembers(e.from, zone.ExitsOf(e.from));
  }

  lemma StraightIfBetween(r: Layout, z: int, e: Edge, id: RoomId)
    requires InTheWay(r, z, e, id)
    ensures Straight(r, z, 2, e)
  {
  }

  /** And compaction looks for the same. */
  lemma BlockedIff(r: Layout, ids: seq<RoomId>, x: RoomId, y: RoomId)
    requires x in r.at && y in r.at
    ensures Occlusions.Between(r, ids, x, y) <==>
            Walk(r.at[x], r.at[y]) >= 2 && exists id :: id in ids && id in r.at && StandsBetween(r.at[x], r.at[y], r.at[id].AtCell())
  {
    var e := Edge(x, North, y);
    forall id | id in r.at ensures Blocks(e, r.at[x], r.at[y], Placed(id, r.at[id].AtCell())) <==> StandsBetween(r.at[x], r.at[y], r.at[id].AtCell()) { }
    assert !Slanted(r.at[x], r.at[y]) || forall c :: !StandsBetween(r.at[x], r.at[y], c);
    hide StandsBetween, Blocks;
    if id :| id in ids && id in r.at && StandsBetween(r.at[x], r.at[y], r.at[id].AtCell()) {
      var i :| 0 <= i < |ids| && ids[i] == id;
    }
  }

  /** A shifted group pulls along the other end of an exit that would become diagonal or lead to the wrong side. */
  lemma GroupPulls(d: Dir, p: Pos, q: Pos)
    requires Cardinal(d)
    ensures Expansion.Broken(d, p, q) <==> Slanted(p, q) || WrongSide(d, p, q)
  {
  }

  // ---- Compacting an occluded exit ----

  /** The end of a straight exit is brought next to the other end, on the side where it is. */
  lemma CompactedEnd(p: Pos, q: Pos)
    requires !Slanted(p, q) && Walk(p, q) >= 2
    ensures var c := Cell(Occlusions.Towards(p.x, q.x), Occlusions.Towards(p.y, q.y));
            StandsBetween(p, q, c) && Guards.OneStepApart(p.AtCell(), c)
  {
  }

  // ---- Looking for a cell in a direction ----

  /** The directional search takes cells on the exit's side of its source. */
  lemma SearchSide(d: Dir, p: Pos, c: Cell)
    requires Cardinal(d)
    ensures Diamond.OnSide(Neighbour(p.AtCell(), d), Off(d), c) <==> !WrongSide(d, p, At(c, p.z))
    ensures Diamond.Along(Neighbour(p.AtCell(), d), Off(d), c) + 1 == Diamond.Depth(p.AtCell(), d, c)
  {
  }

  // ---- The limits ----

  /** Radii, caps on passes and caps on group sizes. */
  lemma Limits()
    ensures Placement.DISCONNECTED_SUBGRAPH_GAP == 3 && Grid.MIN_GRID_CLUSTER_SIZE == 9
    ensures Relax.FORCE_RELAXATION_ITERATIONS == 200 && Relax.RELAX_CANDIDATE_RADIUS == 4 && Relax.NEIGHBOR_CANDIDATE_RADIUS == 2
    ensures Relax.SWAP_ITERATIONS == 50 && Relax.POST_SWAP_MOVE_ITERATIONS == 50
    ensures Cascades.DIAGONAL_CASCADE_PASSES == 60 && Cascades.DIAGONAL_DISPLACE_RADIUS == 5 && Cascades.MAX_PUSH_GROUP_SIZE == 40
    ensures Cascades.POST_DIAGONAL_RELAX_ITERATIONS == 100 && Cascades.POST_DIAGONAL_CANDIDATE_RADIUS == 3
    ensures Violations.DIRECTION_VIOLATION_PASSES == 100 && Violations.VIOLATION_CANDIDATE_RADIUS == 10
    ensures Violations.VIOLATION_SWAP_RADIUS == 4 && Violations.MAX_VIOLATION_GROUP_SIZE == 60
    ensures Align.CARDINAL_ALIGNMENT_ITERATIONS == 30 && Crossings.CROSSING_FIX_PASSES == 30 && Crossings.CROSSING_CANDIDATE_RADIUS == 6
    ensures Insertions.INSERTION_FIX_PASSES == 20 && Expansion.MAX_EXPANSION_GROUP_SIZE == 90 && Expansion.EXPANSION_PASSES == 40
    ensures Occlusions.OCCLUSION_FIX_ITERATIONS == 200 && Occlusions.OCCLUDER_SEARCH_RADIUS == 8
    ensures Occlusions.TWO_MOVE_OCCLUDER_RADIUS == 6 && Occlusions.TWO_MOVE_EVICTEE_RADIUS == 4 && Occlusions.COMPACTION_CANDIDATE_RADIUS == 2
    ensures LayoutEngine.EXPANSION_OCCLUSION_ROUNDS == 3
  {
  }
}
