/** Phases 1 to 3: breadth-first placement with grid blocks, deferred floors and
    disconnected parts. */
module Placement {
  import opened Sums
  import opened Zones
  import opened Boards
  import opened Grid
  import Diamond
  import Scores

  const DISCONNECTED_SUBGRAPH_GAP := 3

  datatype Transition = Transition(sourceId: RoomId, targetId: RoomId, targetZ: int)

  // ---- What placement keeps ----

  /** The search radius is large enough for every search to succeed. */
  predicate Small(zone: Zone, R: nat) {
    && |zone.ids| * |zone.ids| < 4 * (2 * R * R + 2 * R + 1)
    && |zone.ids| <= (R + 1) * (R + 1)
  }

  /** A position map for the whole zone: every exit is one step, and no two rooms share a cell. */
  ghost predicate Embeds(zone: Zone, v: map<RoomId, Pos>) {
    && (forall id :: id in zone.ids <==> id in v)
    && Steps(zone, v)
    && forall a, b :: a in v && b in v && a != b ==> v[a] != v[b]
  }

  ghost predicate Tracks(zone: Zone, v: map<RoomId, Pos>, r: Layout) {
    Embeds(zone, v) && forall id :: id in r.at ==> id in v && r.at[id] == v[id]
  }

  /** Rooms of a cluster are placed together. */
  ghost predicate Blocks(c: Clusters, placed: set<nat>, r: Layout) {
    forall id :: id in c.info ==> (id in r.at <==> c.info[id].clusterId in placed)
  }

  ghost predicate Placing(zone: Zone, c: Clusters, R: nat, r: Layout, floors: seq<int>, occ: Occupancy, placed: set<nat>) {
    && zone.Valid() && c.Valid() && InjectiveOffsets(c) && (forall id :: id in c.info ==> id in zone.ids)
    && r.Valid() && (forall id :: id in r.at ==> id in zone.ids)
    && (forall z :: z in floors <==> z in occ)
    && Exact(r, occ)
    && (Small(zone, R) ==> NoOverlap(r))
    && Blocks(c, placed, r)
  }

  /** r' adds the listed rooms, all on floor z, and moves none. */
  ghost predicate Adds(r: Layout, r': Layout, z: int, added: seq<RoomId>) {
    && r'.order == r.order + added
    && (forall id :: id in r.at ==> id in r'.at && r'.at[id] == r.at[id])
    && (forall id :: id in added ==> id !in r.at && r'.On(id, z))
  }

  // ---- Counting rooms and cells ----

  lemma {:induction false} CellsOfRooms(r: Layout, ids: seq<RoomId>, cells: set<Cell>, z: int)
    requires forall c :: c in cells ==> exists id :: id in ids && id in r.at && r.at[id] == At(c, z)
    ensures |cells| <= |ids|
  {
    if ids == [] {
      assert cells == {};
    } else if ids[0] in r.at && r.at[ids[0]].z == z {
      var c := r.at[ids[0]].AtCell();
      var rest := cells - {c};
      forall d | d in rest ensures exists id :: id in ids[1..] && id in r.at && r.at[id] == At(d, z) {
        var id :| id in ids && id in r.at && r.at[id] == At(d, z);
      }
      CellsOfRooms(r, ids[1..], rest, z);
      assert cells <= rest + {c};
      SubsetSize(cells, rest + {c});
    } else {
      forall d | d in cells ensures exists id :: id in ids[1..] && id in r.at && r.at[id] == At(d, z) {
        var id :| id in ids && id in r.at && r.at[id] == At(d, z);
      }
      CellsOfRooms(r, ids[1..], cells, z);
    }
  }

  /** The occupied cells and the rooms still to place are together no more than the rooms. */
  lemma RoomForMore(zone: Zone, r: Layout, occ: Occupancy, z: int, more: seq<RoomId>)
    requires zone.Valid() && r.Valid() && Exact(r, occ) && z in occ
    requires forall id :: id in r.at ==> id in zone.ids
    requires NoDup(more) && forall id :: id in more ==> id in zone.ids && id !in r.at
    ensures |occ[z]| + |more| <= |zone.ids|
  {
    forall c | c in occ[z] ensures exists id :: id in r.order && id in r.at && r.at[id] == At(c, z) {
      assert Taken(r, z, c);
    }
    CellsOfRooms(r, r.order, occ[z], z);
    NoDupConcat(r.order, more);
    DistinctWithin(r.order + more, zone.ids);
  }

  // ---- Placing a grid block ----

  /** Where a member lands when the block is anchored at a cell and shifted. */
  function Target(c: Clusters, anchor: RoomId, at: Cell, shift: Cell, id: RoomId): Cell
    requires anchor in c.info && id in c.info
  {
    Cell(at.x + (c.info[id].dx - c.info[anchor].dx) + shift.x, at.y + (c.info[id].dy - c.info[anchor].dy) + shift.y)
  }

  predicate Free(c: Clusters, anchor: RoomId, at: Cell, shift: Cell, members: seq<RoomId>, occupied: set<Cell>)
    requires anchor in c.info && forall id :: id in members ==> id in c.info
  {
    forall i :: 0 <= i < |members| ==> Target(c, anchor, at, shift, members[i]) !in occupied
  }

  const NO_SHIFT := Cell(0, 0)

  /** The shift found: none if the block is free unshifted or nowhere within the radius, otherwise
      the first that is. */
  ghost predicate ShiftChosen(c: Clusters, anchor: RoomId, at: Cell, members: seq<RoomId>, occupied: set<Cell>, R: nat, shift: Cell)
    requires anchor in c.info && forall id :: id in members ==> id in c.info
  {
    || (shift == NO_SHIFT && Free(c, anchor, at, NO_SHIFT, members, occupied))
    || (shift == NO_SHIFT && forall s :: Diamond.Dist(NO_SHIFT, s) <= R ==> !Free(c, anchor, at, s, members, occupied))
    || (&& !Free(c, anchor, at, NO_SHIFT, members, occupied) && Free(c, anchor, at, shift, members, occupied)
        && exists i :: 0 <= i < |Diamond.Rings(NO_SHIFT, 1, R)| && Diamond.Rings(NO_SHIFT, 1, R)[i] == shift
             && forall j :: 0 <= j < i ==> !Free(c, anchor, at, Diamond.Rings(NO_SHIFT, 1, R)[j], members, occupied))
  }

  /** The shifts that put one member on an occupied cell. */
  function Bad(c: Clusters, anchor: RoomId, at: Cell, id: RoomId, occupied: set<Cell>): set<Cell>
    requires anchor in c.info && id in c.info
  {
    var t := Target(c, anchor, at, NO_SHIFT, id);
    set o | o in occupied :: Cell(o.x - t.x, o.y - t.y)
  }

  function AllBad(c: Clusters, anchor: RoomId, at: Cell, members: seq<RoomId>, occupied: set<Cell>): set<Cell>
    requires anchor in c.info && forall id :: id in members ==> id in c.info
  {
    if members == [] then {} else Bad(c, anchor, at, members[0], occupied) + AllBad(c, anchor, at, members[1..], occupied)
  }

  lemma {:induction false} ImageSize(cells: set<Cell>, t: Cell)
    ensures |set o | o in cells :: Cell(o.x - t.x, o.y - t.y)| <= |cells|
  {
    var image := set o | o in cells :: Cell(o.x - t.x, o.y - t.y);
    if cells != {} {
      var o :| o in cells;
      var rest := cells - {o};
      ImageSize(rest, t);
      var restImage := set p | p in rest :: Cell(p.x - t.x, p.y - t.y);
      assert image <= restImage + {Cell(o.x - t.x, o.y - t.y)};
      SubsetSize(image, restImage + {Cell(o.x - t.x, o.y - t.y)});
    } else {
      assert image == {};
    }
  }

  /** There are at most |members| * |occupied| bad shifts. */
  lemma {:induction false} AllBadSize(c: Clusters, anchor: RoomId, at: Cell, members: seq<RoomId>, occupied: set<Cell>)
    requires anchor in c.info && forall id :: id in members ==> id in c.info
    ensures |AllBad(c, anchor, at, members, occupied)| <= |members| * |occupied|
  {
    if members != [] {
      AllBadSize(c, anchor, at, members[1..], occupied);
      ImageSize(occupied, Target(c, anchor, at, NO_SHIFT, members[0]));
      var head, tail := Bad(c, anchor, at, members[0], occupied), AllBad(c, anchor, at, members[1..], occupied);
      hide Bad, Target;
      UnionSize(head, tail);
      OneMore(|members| - 1, |occupied|);
    }
  }

  lemma UnionSize(s: set<Cell>, t: set<Cell>)
    ensures |s + t| <= |s| + |t|
  {
    assert s + t == s + (t - s) && (t - s) <= t;
    SubsetSize(t - s, t);
  }

  lemma OneMore(n: nat, k: nat)
    ensures n * k + k == (n + 1) * k
  {
  }

  lemma {:induction false} BadCovers(c: Clusters, anchor: RoomId, at: Cell, members: seq<RoomId>, occupied: set<Cell>, s: Cell)
    requires anchor in c.info && forall id :: id in members ==> id in c.info
    requires !Free(c, anchor, at, s, members, occupied)
    ensures s in AllBad(c, anchor, at, members, occupied)
  {
    var o, t := Target(c, anchor, at, s, members[0]), Target(c, anchor, at, NO_SHIFT, members[0]);
    assert s == Cell(o.x - t.x, o.y - t.y);
    if o !in occupied {
      var i :| 0 <= i < |members| && Target(c, anchor, at, s, members[i]) in occupied;
      assert members[1..][i - 1] == members[i];
      BadCovers(c, anchor, at, members[1..], occupied, s);
    }
  }

  /** Below the pigeonhole bound some shift within the radius is free. */
  lemma FreeShiftExists(c: Clusters, anchor: RoomId, at: Cell, members: seq<RoomId>, occupied: set<Cell>, R: nat)
    requires anchor in c.info && forall id :: id in members ==> id in c.info
    requires |members| * |occupied| < 2 * R * R + 2 * R + 1
    ensures exists s :: Free(c, anchor, at, s, members, occupied) && Diamond.Dist(NO_SHIFT, s) <= R
  {
    var bad := AllBad(c, anchor, at, members, occupied);
    AllBadSize(c, anchor, at, members, occupied);
    Diamond.FreeCellExists(NO_SHIFT, bad, R);
    var s :| s !in bad && Diamond.Dist(NO_SHIFT, s) <= R;
    if !Free(c, anchor, at, s, members, occupied) { BadCovers(c, anchor, at, members, occupied, s); }
  }

  /** The smallest shift of the block that avoids every occupied cell. */
  method FindShift(c: Clusters, anchor: RoomId, at: Cell, members: seq<RoomId>, occupied: set<Cell>, R: nat) returns (shift: Cell)
    requires anchor in c.info && forall id :: id in members ==> id in c.info
    ensures Free(c, anchor, at, NO_SHIFT, members, occupied) ==> shift == NO_SHIFT
    ensures Free(c, anchor, at, shift, members, occupied) ==>
      forall s :: Free(c, anchor, at, s, members, occupied) ==> Diamond.Dist(NO_SHIFT, shift) <= Diamond.Dist(NO_SHIFT, s)
    ensures !Free(c, anchor, at, shift, members, occupied) ==> shift == NO_SHIFT
    ensures Free(c, anchor, at, shift, members, occupied) <==>
      exists s :: Free(c, anchor, at, s, members, occupied) && Diamond.Dist(NO_SHIFT, s) <= R
    ensures ShiftChosen(c, anchor, at, members, occupied, R, shift)
  {
    hide Free, Diamond.Dist, Diamond.Rings;
    if Free(c, anchor, at, NO_SHIFT, members, occupied) {
      NonZero(NO_SHIFT);
      return NO_SHIFT;
    }
    Diamond.RingsMembers(NO_SHIFT, 1, R);
    var shifts := Diamond.Rings(NO_SHIFT, 1, R);
    for i := 0 to |shifts|
      invariant forall j :: 0 <= j < i ==> !Free(c, anchor, at, shifts[j], members, occupied)
    {
      if Free(c, anchor, at, shifts[i], members, occupied) {
        shift := shifts[i];
        assert shift in shifts;
        forall s | Free(c, anchor, at, s, members, occupied)
          ensures Diamond.Dist(NO_SHIFT, shift) <= Diamond.Dist(NO_SHIFT, s)
        {
          if Diamond.Dist(NO_SHIFT, s) <= R {
            NonZero(s);
            assert s in shifts;
            var j :| 0 <= j < |shifts| && shifts[j] == s;
          }
        }
        return;
      }
    }
    forall s | Diamond.Dist(NO_SHIFT, s) <= R ensures !Free(c, anchor, at, s, members, occupied) {
      NonZero(s);
      if s != NO_SHIFT { assert s in shifts; }
    }
    shift := NO_SHIFT;
  }

  lemma NonZero(s: Cell)
    ensures s != NO_SHIFT <==> Diamond.Dist(NO_SHIFT, s) >= 1
  {
  }

  lemma TargetsDistinct(c: Clusters, anchor: RoomId, at: Cell, shift: Cell, a: RoomId, b: RoomId)
    requires InjectiveOffsets(c) && anchor in c.info && a in c.info && b in c.info && a != b
    requires c.info[a].clusterId == c.info[b].clusterId
    ensures Target(c, anchor, at, shift, a) != Target(c, anchor, at, shift, b)
  {
  }

  /** Put the members of a block on their cells, one after the other. */
  method PlaceMembers(b: Board, c: Clusters, members: seq<RoomId>, anchor: RoomId, at: Cell, shift: Cell, z: int)
    requires b.result.Valid() && Exact(b.result, b.occupied) && z in b.occupied && InjectiveOffsets(c)
    requires anchor in c.info && NoDup(members)
    requires forall id :: id in members ==> id !in b.result.at && id in c.info && c.info[id].clusterId == c.info[anchor].clusterId
    modifies b`result, b`occupied
    ensures b.result.Valid() && Exact(b.result, b.occupied) && b.occupied.Keys == old(b.occupied).Keys
    ensures Free(c, anchor, at, shift, members, old(b.occupied)[z]) && NoOverlap(old(b.result)) ==> NoOverlap(b.result)
    ensures Adds(old(b.result), b.result, z, members)
    ensures forall id :: id in b.result.at <==> id in old(b.result).at || id in members
    ensures forall id :: id in members ==> b.result.at[id] == At(Target(c, anchor, at, shift, id), z)
  {
    hide NoOverlap, Exact, Target, InjectiveOffsets, Adds, Free;
    ghost var r0, occ0 := b.result, b.occupied;
    assert members[..0] == [];
    AddsNone(r0, z);
    for i := 0 to |members|
      invariant b.occupied.Keys == occ0.Keys && b.result.Valid()
      invariant Exact(b.result, b.occupied)
      invariant Free(c, anchor, at, shift, members, occ0[z]) && NoOverlap(r0) ==> NoOverlap(b.result)
      invariant Adds(r0, b.result, z, members[..i])
      invariant forall id :: id in b.result.at <==> id in r0.at || id in members[..i]
      invariant forall id :: id in members[..i] ==> b.result.at[id] == At(Target(c, anchor, at, shift, id), z)
      invariant forall d :: d in b.occupied[z] ==> d in occ0[z] || exists m :: m in members[..i] && d == Target(c, anchor, at, shift, m)
    {
      var id := members[i];
      assert id in members;
      assert members[..i + 1] == members[..i] + [id];
      NotBefore(members, i);
      var cell := Target(c, anchor, at, shift, id);
      if Free(c, anchor, at, shift, members, occ0[z]) {
        FreshTarget(c, members, i, anchor, at, shift, occ0[z], b.occupied[z]);
      }
      PlaceExact(b.result, b.occupied, z, id, cell);
      AddsOne(r0, b.result, z, members[..i], id, cell);
      b.Place(id, cell, z);
    }
    assert members[..|members|] == members;
  }

  /** The next member's cell is free of the old cells and of the members already down. */
  lemma FreshTarget(c: Clusters, members: seq<RoomId>, i: nat, anchor: RoomId, at: Cell, shift: Cell, before: set<Cell>, now: set<Cell>)
    requires i < |members| && NoDup(members) && InjectiveOffsets(c) && anchor in c.info
    requires forall id :: id in members ==> id in c.info && c.info[id].clusterId == c.info[anchor].clusterId
    requires Free(c, anchor, at, shift, members, before)
    requires forall d :: d in now ==> d in before || exists m :: m in members[..i] && d == Target(c, anchor, at, shift, m)
    ensures Target(c, anchor, at, shift, members[i]) !in now
  {
    NotBefore(members, i);
    assert members[i] in members;
    forall m | m in members[..i] ensures Target(c, anchor, at, shift, m) != Target(c, anchor, at, shift, members[i]) {
      TargetsDistinct(c, anchor, at, shift, m, members[i]);
    }
  }

  lemma AddsNone(r: Layout, z: int)
    ensures Adds(r, r, z, [])
  {
  }

  lemma AddsOne(r0: Layout, r: Layout, z: int, added: seq<RoomId>, id: RoomId, c: Cell)
    requires Adds(r0, r, z, added) && id !in r.at && id !in r0.at
    ensures Adds(r0, r.Put(id, At(c, z)), z, added + [id])
  {
  }

  /** The whole block goes down rigidly, on free cells below the bound. */
  method PlaceGridCluster(b: Board, c: Clusters, ghost placed: set<nat>, anchor: RoomId, at: Cell, z: int)
    returns (queue: seq<RoomId>, ghost shift: Cell)
    requires Placing(b.zone, c, b.R, b.result, b.floors, b.occupied, placed) && z in b.occupied
    requires anchor in c.info && c.info[anchor].clusterId !in placed
    modifies b`result, b`occupied
    ensures Placing(b.zone, c, b.R, b.result, b.floors, b.occupied, placed + {c.info[anchor].clusterId})
    ensures b.occupied.Keys == old(b.occupied).Keys
    ensures queue == MembersOf(c, c.info[anchor].clusterId) && anchor in queue
    ensures Adds(old(b.result), b.result, z, queue)
    ensures forall id :: id in queue ==> id in b.result.at && b.result.at[id] == At(Target(c, anchor, at, shift, id), z)
    ensures Free(c, anchor, at, NO_SHIFT, queue, old(b.occupied)[z]) ==> shift == NO_SHIFT
    ensures Free(c, anchor, at, shift, queue, old(b.occupied)[z]) <==>
      exists s :: Free(c, anchor, at, s, queue, old(b.occupied)[z]) && Diamond.Dist(NO_SHIFT, s) <= b.R
    ensures ShiftChosen(c, anchor, at, queue, old(b.occupied)[z], b.R, shift)
    ensures |queue| * |old(b.occupied)[z]| < 2 * b.R * b.R + 2 * b.R + 1 ==> Free(c, anchor, at, shift, queue, old(b.occupied)[z])
  {
    hide Free, Exact, NoOverlap, Target, InjectiveOffsets, Small, Diamond.Dist, ShiftChosen;
    var cluster := c.info[anchor].clusterId;
    var members := MembersOf(c, cluster);
    MembersDistinct(c, cluster, c.order);
    var found := FindShift(c, anchor, at, members, b.occupied[z], b.R);
    shift := found;
    BlockSucceeds(b.zone, c, b.R, b.result, b.occupied, z, members, anchor, at);
    ghost var r0, occ0 := b.result, b.occupied;
    PlaceMembers(b, c, members, anchor, at, found, z);
    BlockPlacing(b.zone, c, b.R, r0, b.floors, occ0, placed, b.result, b.occupied, cluster, members);
    queue := members;
  }

  lemma BlockPlacing(zone: Zone, c: Clusters, R: nat, r: Layout, floors: seq<int>, occ: Occupancy, placed: set<nat>, r': Layout, occ': Occupancy,
                     cluster: nat, members: seq<RoomId>)
    requires Placing(zone, c, R, r, floors, occ, placed) && cluster !in placed
    requires forall id :: id in members <==> id in c.info && c.info[id].clusterId == cluster
    requires r'.Valid() && Exact(r', occ') && occ'.Keys == occ.Keys && (Small(zone, R) ==> NoOverlap(r'))
    requires forall id :: id in r'.at <==> id in r.at || id in members
    ensures Placing(zone, c, R, r', floors, occ', placed + {cluster})
  {
    hide Exact, NoOverlap, InjectiveOffsets, Small;
  }

  lemma BlockSucceeds(zone: Zone, c: Clusters, R: nat, r: Layout, occ: Occupancy, z: int, members: seq<RoomId>, anchor: RoomId, at: Cell)
    requires zone.Valid() && r.Valid() && Exact(r, occ) && z in occ
    requires forall id :: id in r.at ==> id in zone.ids
    requires NoDup(members) && forall id :: id in members ==> id in zone.ids && id !in r.at && id in c.info
    requires anchor in c.info
    ensures Small(zone, R) ==> |members| * |occ[z]| < 2 * R * R + 2 * R + 1
    ensures |members| * |occ[z]| < 2 * R * R + 2 * R + 1 ==>
      exists s :: Free(c, anchor, at, s, members, occ[z]) && Diamond.Dist(NO_SHIFT, s) <= R
  {
    if Small(zone, R) {
      RoomForMore(zone, r, occ, z, members);
      BlockFits(|occ[z]|, |members|, |zone.ids|, R);
    }
    if |members| * |occ[z]| < 2 * R * R + 2 * R + 1 {
      FreeShiftExists(c, anchor, at, members, occ[z], R);
    }
  }

  lemma BlockFits(o: nat, m: nat, n: nat, R: nat)
    requires o + m <= n && n * n < 4 * (2 * R * R + 2 * R + 1)
    ensures m * o < 2 * R * R + 2 * R + 1
  {
    assert 4 * (m * o) == (o + m) * (o + m) - (o - m) * (o - m);
    assert (o - m) * (o - m) >= 0;
    assert (o + m) * (o + m) <= n * n by { Squares(o + m, n); }
  }

  lemma Squares(a: nat, b: nat)
    requires a <= b
    ensures a * a <= b * b
  {
    assert a * a <= a * b <= b * b;
  }

  // ---- Exit lines ----

  /** The cell lies strictly inside a straight exit of the room to a placed neighbour. */
  ghost predicate OnExitLine(zone: Zone, r: Layout, z: int, id: RoomId, c: Cell) {
    id in r.at && exists e :: e in zone.Out(id) && r.On(e.to, z) && Scores.Between(r.at[id], r.at[e.to], c)
  }

  /** The free cells strictly between two placed rooms. */
  method MarkLine(p: Pos, q: Pos, occupied: set<Cell>, lines: set<Cell>) returns (lines': set<Cell>)
    ensures forall c :: c in lines' <==> c in lines || (c !in occupied && Scores.Between(p, q, c))
  {
    lines' := lines;
    if p.x == q.x {
      var minY, maxY := Scores.Min(p.y, q.y), Scores.Max(p.y, q.y);
      var y := minY + 1;
      while y < maxY
        invariant minY + 1 <= y
        invariant forall c :: c in lines' <==> c in lines || (c !in occupied && c.x == p.x && minY < c.y < y && c.y < maxY)
      {
        if Cell(p.x, y) !in occupied { lines' := lines' + {Cell(p.x, y)}; }
        y := y + 1;
      }
    } else if p.y == q.y {
      var minX, maxX := Scores.Min(p.x, q.x), Scores.Max(p.x, q.x);
      var x := minX + 1;
      while x < maxX
        invariant minX + 1 <= x
        invariant forall c :: c in lines' <==> c in lines || (c !in occupied && c.y == p.y && minX < c.x < x && c.x < maxX)
      {
        if Cell(x, p.y) !in occupied { lines' := lines' + {Cell(x, p.y)}; }
        x := x + 1;
      }
    }
  }

  method UpdateExitLines(zone: Zone, r: Layout, z: int, occupied: set<Cell>, id: RoomId, lines: set<Cell>) returns (lines': set<Cell>)
    ensures forall c :: c in lines' <==> c in lines || (c !in occupied && OnExitLine(zone, r, z, id, c))
  {
    lines' := lines;
    if id !in r.at { return; }
    var out := zone.Out(id);
    for i := 0 to |out|
      invariant forall c :: c in lines' <==>
        c in lines || (c !in occupied && exists e :: e in out[..i] && r.On(e.to, z) && Scores.Between(r.at[id], r.at[e.to], c))
    {
      hide Scores.Between, Zone.Out;
      assert out[..i + 1] == out[..i] + [out[i]];
      if r.On(out[i].to, z) { lines' := MarkLine(r.at[id], r.at[out[i].to], occupied, lines'); }
    }
    assert out[..|out|] == out;
  }

  method UpdateAllExitLines(zone: Zone, r: Layout, z: int, occupied: set<Cell>, ids: seq<RoomId>, lines: set<Cell>) returns (lines': set<Cell>)
    ensures forall c :: c in lines' <==> c in lines || (c !in occupied && exists id :: id in ids && OnExitLine(zone, r, z, id, c))
  {
    hide OnExitLine;
    lines' := lines;
    for i := 0 to |ids|
      invariant forall c :: c in lines' <==> c in lines || (c !in occupied && exists id :: id in ids[..i] && OnExitLine(zone, r, z, id, c))
    {
      assert ids[..i + 1] == ids[..i] + [ids[i]];
      lines' := UpdateExitLines(zone, r, z, occupied, ids[i], lines');
    }
    assert ids[..|ids|] == ids;
  }

  /** Where rooms sit one step from their neighbours there is no cell between them. */
  lemma NoLines(zone: Zone, v: map<RoomId, Pos>, r: Layout, z: int, id: RoomId, c: Cell)
    requires Tracks(zone, v, r)
    ensures !OnExitLine(zone, r, z, id, c)
  {
    OutMembers(id, zone.ExitsOf(id));
    forall e | e in zone.Out(id) && id in r.at && r.On(e.to, z) ensures !Scores.Between(r.at[id], r.at[e.to], c) {
      assert v[e.to] == Plus(v[id], Off(e.dir));
    }
  }

  // ---- One exit of the room being processed ----

  /** A deferred vertical exit: its anchor is the source's cell on the target's floor. */
  ghost predicate Deferred(zone: Zone, r: Layout, t: Transition) {
    && t.sourceId in r.at
    && exists e :: e in zone.ExitsOf(t.sourceId) && Known(e.dir) && !Cardinal(e.dir) && e.target == t.targetId
         && t.targetZ == r.at[t.sourceId].z + Off(e.dir).dz && e.target in zone.exits
  }

  /** An exit is dealt with once its target is placed, put off, unknown or outside the zone. */
  ghost predicate Settled(zone: Zone, r: Layout, pending: seq<Transition>, e: Exit) {
    Known(e.dir) && e.target in zone.exits ==> e.target in r.at || exists t :: t in pending && t.targetId == e.target
  }

  /** A free cell at the position an embedding gives to an unplaced room. */
  lemma IdealIsFree(zone: Zone, v: map<RoomId, Pos>, r: Layout, occ: Occupancy, id: RoomId)
    requires Tracks(zone, v, r) && Exact(r, occ) && id in v && id !in r.at && v[id].z in occ
    ensures v[id].AtCell() !in occ[v[id].z]
  {
    assert !Taken(r, v[id].z, v[id].AtCell());
  }

  /** The block of an embedded cluster fits without a shift. */
  lemma IdealBlockIsFree(zone: Zone, c: Clusters, v: map<RoomId, Pos>, r: Layout, occ: Occupancy, anchor: RoomId, members: seq<RoomId>)
    requires Tracks(zone, v, r) && FollowsAll(v, c) && Exact(r, occ) && anchor in c.info && anchor in v && v[anchor].z in occ
    requires forall id :: id in members ==> id !in r.at && id in c.info && c.info[id].clusterId == c.info[anchor].clusterId
    ensures Free(c, anchor, v[anchor].AtCell(), NO_SHIFT, members, occ[v[anchor].z])
    ensures forall id :: id in members ==> id in v && v[id] == At(Target(c, anchor, v[anchor].AtCell(), NO_SHIFT, id), v[anchor].z)
  {
    forall i | 0 <= i < |members|
      ensures Target(c, anchor, v[anchor].AtCell(), NO_SHIFT, members[i]) !in occ[v[anchor].z]
    {
      assert members[i] in members;
      IdealIsFree(zone, v, r, occ, members[i]);
    }
  }

  // ---- The search as a relation ----

  /** What the breadth-first search of one floor carries along. */
  datatype Search = Search(r: Layout, cells: set<Cell>, placed: set<nat>, lines: set<Cell>, queue: seq<RoomId>, pending: seq<Transition>)

  /** The exit lines after new rooms were placed: those before, and the free cells on their exits. */
  ghost predicate LinesAfter(zone: Zone, z: int, s: Search, ids: seq<RoomId>, lines: set<Cell>) {
    forall c :: c in s.lines <==> c in lines || (c !in s.cells && exists id :: id in ids && OnExitLine(zone, s.r, z, id, c))
  }

  /** One room was placed on a cell. */
  ghost predicate SingleStep(zone: Zone, z: int, id: RoomId, cell: Cell, s: Search, s': Search) {
    && s'.r == s.r.Put(id, At(cell, z)) && s'.cells == s.cells + {cell}
    && s'.placed == s.placed && s'.queue == s.queue + [id] && s'.pending == s.pending
    && LinesAfter(zone, z, s', [id], s.lines - {cell})
  }

  /** A whole cluster was placed, its anchor as near to the cell as the search for a shift finds. */
  ghost predicate BlockStep(zone: Zone, c: Clusters, R: nat, z: int, anchor: RoomId, at: Cell, s: Search, s': Search) {
    && anchor in c.info && c.Valid()
    && var members := MembersOf(c, c.info[anchor].clusterId);
    && Adds(s.r, s'.r, z, members)
    && (forall id :: id in members ==> id in c.info)
    && (exists shift :: ShiftChosen(c, anchor, at, members, s.cells, R, shift)
          && forall id :: id in members ==> id in s'.r.at && s'.r.at[id] == At(Target(c, anchor, at, shift, id), z))
    && s'.placed == s.placed + {c.info[anchor].clusterId} && s'.queue == s.queue + members && s'.pending == s.pending
    && LinesAfter(zone, z, s', members, s.lines)
  }

  /** One exit: nothing to do, a floor to be visited later, a cluster, or a single room at what the
      directional search finds. */
  ghost predicate ExitStep(zone: Zone, c: Clusters, R: nat, z: int, current: RoomId, e: Exit, s: Search, s': Search) {
    && current in s.r.at
    && var p := s.r.at[current];
       if e.target in s.r.at || e.target !in zone.exits || !Known(e.dir) then s' == s
       else if Off(e.dir).dz != 0 then s' == s.(pending := s.pending + [Transition(current, e.target, p.z + Off(e.dir).dz)])
       else
         var ideal := Cell(p.x + Off(e.dir).dx, p.y + Off(e.dir).dy);
         if e.target in c.info && c.info[e.target].clusterId !in s.placed then BlockStep(zone, c, R, z, e.target, ideal, s, s')
         else exists cell :: Diamond.Directed(ideal, Off(e.dir), s.cells, s.lines, R, cell) && SingleStep(zone, z, e.target, cell, s, s')
  }

  /** All the exits of a room, in order. */
  ghost predicate RoomStep(zone: Zone, c: Clusters, R: nat, z: int, current: RoomId, s: Search, s': Search) {
    exists run :: RoomRun(zone, c, R, z, current, s, s', run)
  }

  ghost predicate RoomRun(zone: Zone, c: Clusters, R: nat, z: int, current: RoomId, s: Search, s': Search, run: seq<Search>) {
    var exits := zone.ExitsOf(current);
    && |run| == |exits| + 1 && run[0] == s && run[|exits|] == s'
    && forall i :: 0 <= i < |exits| ==> ExitStep(zone, c, R, z, current, exits[i], run[i], run[i + 1])
  }

  /** The rooms of the queue, first in first out. */
  ghost predicate QueueRun(zone: Zone, c: Clusters, R: nat, z: int, run: seq<Search>) {
    && |run| > 0
    && forall i :: 0 <= i < |run| - 1 ==>
         run[i].queue != [] && RoomStep(zone, c, R, z, run[i].queue[0], run[i].(queue := run[i].queue[1..]), run[i + 1])
  }

  /** The first room: with its cluster, or on the nearest free cell. */
  ghost predicate StartStep(zone: Zone, c: Clusters, R: nat, z: int, start: RoomId, at: Cell, s: Search, s': Search) {
    if start in c.info && c.info[start].clusterId !in s.placed then BlockStep(zone, c, R, z, start, at, s, s')
    else exists cell :: Diamond.Nearest(at, s.cells, R, cell) && SingleStep(zone, z, start, cell, s, s')
  }

  /** The search from a room that has no place yet, to an empty queue. */
  ghost predicate SearchRun(zone: Zone, c: Clusters, R: nat, z: int, start: RoomId, at: Cell, s: Search, s': Search, run: seq<Search>) {
    && QueueRun(zone, c, R, z, run) && StartStep(zone, c, R, z, start, at, s, run[0]) && run[|run| - 1] == s' && s'.queue == []
  }

  ghost predicate Follow(zone: Zone, c: Clusters, v: map<RoomId, Pos>, r: Layout) {
    Tracks(zone, v, r) && FollowsAll(v, c)
  }

  lemma MakeBlockStep(zone: Zone, c: Clusters, R: nat, z: int, anchor: RoomId, at: Cell, s: Search, s': Search, shift: Cell)
    requires anchor in c.info && c.Valid() && s.queue == [] && s.pending == [] && s'.pending == []
    requires s'.queue == MembersOf(c, c.info[anchor].clusterId) && Adds(s.r, s'.r, z, s'.queue) && (forall id :: id in s'.queue ==> id in c.info)
    requires ShiftChosen(c, anchor, at, s'.queue, s.cells, R, shift)
    requires forall id :: id in s'.queue ==> id in s'.r.at && s'.r.at[id] == At(Target(c, anchor, at, shift, id), z)
    requires s'.placed == s.placed + {c.info[anchor].clusterId}
    requires forall c :: c in s'.lines <==> c in s.lines || (c !in s'.cells && exists id :: id in s'.queue && OnExitLine(zone, s'.r, z, id, c))
    ensures BlockStep(zone, c, R, z, anchor, at, s, s')
  {
    hide ShiftChosen, OnExitLine, Target, Adds;
  }

  method PlaceBlock(b: Board, c: Clusters, placed: set<nat>, anchor: RoomId, at: Cell, z: int, lines: set<Cell>, ghost v: map<RoomId, Pos>)
    returns (queue: seq<RoomId>, placed': set<nat>, lines': set<Cell>)
    requires Placing(b.zone, c, b.R, b.result, b.floors, b.occupied, placed) && z in b.occupied
    requires anchor in c.info && c.info[anchor].clusterId !in placed
    modifies b`result, b`occupied
    ensures Placing(b.zone, c, b.R, b.result, b.floors, b.occupied, placed')
    ensures b.occupied.Keys == old(b.occupied).Keys
    ensures Adds(old(b.result), b.result, z, queue) && anchor in queue
    ensures BlockStep(b.zone, c, b.R, z, anchor, at, Search(old(b.result), old(b.occupied)[z], placed, lines, [], []),
                      Search(b.result, b.occupied[z], placed', lines', queue, []))
    ensures Follow(b.zone, c, v, old(b.result)) && anchor in v && v[anchor] == At(at, z) && lines == {} ==>
      Follow(b.zone, c, v, b.result) && lines' == {}
  {
    hide Placing, Follow, Target, Free, OnExitLine, ShiftChosen, BlockStep, Adds, Diamond.Dist;
    ghost var r0, occ0 := b.result, b.occupied;
    ghost var shift;
    ghost var s := Search(b.result, b.occupied[z], placed, lines, [], []);
    BlockIsNew(b.zone, c, b.R, r0, b.floors, occ0, placed, anchor);
    PlacingParts(b.zone, c, b.R, r0, b.floors, occ0, placed);
    queue, shift := PlaceGridCluster(b, c, placed, anchor, at, z);
    placed' := placed + {c.info[anchor].clusterId};
    lines' := UpdateAllExitLines(b.zone, b.result, z, b.occupied[z], queue, lines);
    MakeBlockStep(b.zone, c, b.R, z, anchor, at, s, Search(b.result, b.occupied[z], placed', lines', queue, []), shift);
    PlacingParts(b.zone, c, b.R, b.result, b.floors, b.occupied, placed');
    if Follow(b.zone, c, v, r0) && anchor in v && v[anchor] == At(at, z) {
      BlockFollows(b.zone, c, v, r0, occ0, b.result, z, anchor, queue, shift);
    }
  }

  /** A block whose anchor belongs on its cell stays there, so the embedding is followed. */
  lemma BlockFollows(zone: Zone, c: Clusters, v: map<RoomId, Pos>, r: Layout, occ: Occupancy, r': Layout, z: int, anchor: RoomId, members: seq<RoomId>, shift: Cell)
    requires Follow(zone, c, v, r) && r.Valid() && r'.Valid() && Exact(r, occ) && z in occ && anchor in c.info && anchor in v && v[anchor].z == z
    requires Adds(r, r', z, members)
    requires forall id :: id in members ==> id !in r.at && id in c.info && c.info[id].clusterId == c.info[anchor].clusterId
    requires Free(c, anchor, v[anchor].AtCell(), NO_SHIFT, members, occ[z]) ==> shift == NO_SHIFT
    requires forall id :: id in members ==> id in r'.at && r'.at[id] == At(Target(c, anchor, v[anchor].AtCell(), shift, id), z)
    ensures Follow(zone, c, v, r') && forall id, d :: !OnExitLine(zone, r', z, id, d)
  {
    hide Exact, FollowsAll, Free, Target, Tracks, OnExitLine, Adds;
    IdealBlockIsFree(zone, c, v, r, occ, anchor, members);
    TracksAdds(zone, v, r, r', z, members);
    forall id, d ensures !OnExitLine(zone, r', z, id, d) { NoLines(zone, v, r', z, id, d); }
  }

  lemma BlockIsNew(zone: Zone, c: Clusters, R: nat, r: Layout, floors: seq<int>, occ: Occupancy, placed: set<nat>, anchor: RoomId)
    requires Placing(zone, c, R, r, floors, occ, placed) && anchor in c.info && c.info[anchor].clusterId !in placed
    ensures forall id :: id in MembersOf(c, c.info[anchor].clusterId) ==>
      id !in r.at && id in c.info && c.info[id].clusterId == c.info[anchor].clusterId
  {
  }

  lemma TracksAdds(zone: Zone, v: map<RoomId, Pos>, r: Layout, r': Layout, z: int, added: seq<RoomId>)
    requires Tracks(zone, v, r) && Adds(r, r', z, added) && r'.Valid() && r.Valid()
    requires forall id :: id in added ==> id in v && r'.at[id] == v[id]
    ensures Tracks(zone, v, r')
  {
    forall id | id in r'.at ensures id in v && r'.at[id] == v[id] {
      assert id in r'.order;
      assert id in r.order || id in added;
    }
  }

  lemma SinglePlacing(zone: Zone, c: Clusters, R: nat, r: Layout, floors: seq<int>, occ: Occupancy, placed: set<nat>,
                      id: RoomId, cell: Cell, z: int)
    requires Placing(zone, c, R, r, floors, occ, placed) && z in occ
    requires id in zone.ids && id !in r.at && (id in c.info ==> c.info[id].clusterId in placed)
    requires Small(zone, R) ==> cell !in occ[z]
    ensures Placing(zone, c, R, r.Put(id, At(cell, z)), floors, occ[z := occ[z] + {cell}], placed)
    ensures Adds(r, r.Put(id, At(cell, z)), z, [id])
    ensures r.Valid() && r.Put(id, At(cell, z)).Valid()
  {
    PutKeeps(c, placed, r, id, At(cell, z));
    hide Exact, NoOverlap, InjectiveOffsets, Small, Blocks, Clusters.Valid;
    PlaceExact(r, occ, z, id, cell);
  }

  lemma PutKeeps(c: Clusters, placed: set<nat>, r: Layout, id: RoomId, p: Pos)
    requires Blocks(c, placed, r) && r.Valid() && id !in r.at && (id in c.info ==> c.info[id].clusterId in placed)
    ensures Blocks(c, placed, r.Put(id, p)) && r.Put(id, p).Valid()
    ensures Adds(r, r.Put(id, p), p.z, [id])
  {
  }

  /** Place one room that belongs to no unplaced block. */
  lemma MakeSingleStep(zone: Zone, z: int, id: RoomId, cell: Cell, s: Search, s': Search)
    requires s'.r == s.r.Put(id, At(cell, z)) && s'.cells == s.cells + {cell}
    requires s'.placed == s.placed && s.queue == [] && s'.queue == [id] && s'.pending == s.pending
    requires forall c :: c in s'.lines <==> c in s.lines - {cell} || (c !in s'.cells && OnExitLine(zone, s'.r, z, id, c))
    ensures SingleStep(zone, z, id, cell, s, s')
  {
    hide OnExitLine;
  }

  method PlaceSingle(b: Board, c: Clusters, ghost placed: set<nat>, id: RoomId, cell: Cell, z: int, lines: set<Cell>, ghost v: map<RoomId, Pos>)
    returns (lines': set<Cell>)
    requires Placing(b.zone, c, b.R, b.result, b.floors, b.occupied, placed) && z in b.occupied
    requires id in b.zone.ids && id !in b.result.at && (id in c.info ==> c.info[id].clusterId in placed)
    requires Small(b.zone, b.R) ==> cell !in b.occupied[z]
    modifies b`result, b`occupied
    ensures Placing(b.zone, c, b.R, b.result, b.floors, b.occupied, placed)
    ensures b.occupied.Keys == old(b.occupied).Keys
    ensures Adds(old(b.result), b.result, z, [id]) && b.result.at[id] == At(cell, z)
    ensures SingleStep(b.zone, z, id, cell, Search(old(b.result), old(b.occupied)[z], placed, lines, [], []),
                       Search(b.result, b.occupied[z], placed, lines', [id], []))
    ensures Follow(b.zone, c, v, old(b.result)) && id in v && v[id] == At(cell, z) && lines == {} ==>
      Follow(b.zone, c, v, b.result) && lines' == {}
  {
    hide Placing, OnExitLine, Small, Tracks, FollowsAll, Exact, SingleStep;
    ghost var r0 := b.result;
    ghost var s := Search(b.result, b.occupied[z], placed, lines, [], []);
    SinglePlacing(b.zone, c, b.R, b.result, b.floors, b.occupied, placed, id, cell, z);
    b.Place(id, cell, z);
    lines' := UpdateExitLines(b.zone, b.result, z, b.occupied[z], id, lines - {cell});
    MakeSingleStep(b.zone, z, id, cell, s, Search(b.result, b.occupied[z], placed, lines', [id], []));
    if Follow(b.zone, c, v, r0) && id in v && v[id] == At(cell, z) {
      TracksAdds(b.zone, v, r0, b.result, z, [id]);
      forall d ensures !OnExitLine(b.zone, b.result, z, id, d) { NoLines(b.zone, v, b.result, z, id, d); }
    }
  }

  /** Place a room at the nearest free cell on the exit's side. */
  method PlaceTowards(b: Board, c: Clusters, ghost placed: set<nat>, id: RoomId, d: Dir, ideal: Cell, z: int, lines: set<Cell>, ghost v: map<RoomId, Pos>)
    returns (lines': set<Cell>)
    requires Placing(b.zone, c, b.R, b.result, b.floors, b.occupied, placed) && z in b.occupied
    requires id in b.zone.ids && id !in b.result.at && (id in c.info ==> c.info[id].clusterId in placed)
    requires Known(d) && Off(d).dz == 0
    modifies b`result, b`occupied
    ensures Placing(b.zone, c, b.R, b.result, b.floors, b.occupied, placed)
    ensures b.occupied.Keys == old(b.occupied).Keys
    ensures Adds(old(b.result), b.result, z, [id])
    ensures exists cell ::
      && Diamond.Directed(ideal, Off(d), old(b.occupied)[z], lines, b.R, cell)
      && SingleStep(b.zone, z, id, cell, Search(old(b.result), old(b.occupied)[z], placed, lines, [], []),
                    Search(b.result, b.occupied[z], placed, lines', [id], []))
    ensures Follow(b.zone, c, v, old(b.result)) && id in v && v[id] == At(ideal, z) && lines == {} ==>
      Follow(b.zone, c, v, b.result) && lines' == {}
  {
    hide Placing, Small, Tracks, FollowsAll, Exact, Adds, SingleStep, Diamond.Directed;
    PlacingParts(b.zone, c, b.R, b.result, b.floors, b.occupied, placed);
    if Follow(b.zone, c, v, b.result) && id in v && v[id] == At(ideal, z) { IdealIsFree(b.zone, v, b.result, b.occupied, id); }
    var nearest := Diamond.FindNearestDirectional(ideal, Off(d), b.occupied[z], lines, b.R);
    if Small(b.zone, b.R) {
      RoomForOne(b.zone, b.result, b.occupied, z, id, b.R);
      Diamond.DirectionalSearchSucceeds(ideal, d, b.occupied[z], lines, b.R, nearest);
    }
    if Follow(b.zone, c, v, b.result) && id in v && v[id] == At(ideal, z) && lines == {} {
      DirectedFree(ideal, Off(d), b.occupied[z], b.R, nearest);
    }
    lines' := PlaceSingle(b, c, placed, id, nearest, z, lines, v);
  }

  lemma DirectedFree(ideal: Cell, o: Offset, occupied: set<Cell>, R: nat, r: Cell)
    requires Diamond.Directed(ideal, o, occupied, {}, R, r) && ideal !in occupied
    ensures r == ideal
  {
  }

  /** One exit of the room being processed. */
  method VisitExit(b: Board, c: Clusters, placed: set<nat>, lines: set<Cell>, current: RoomId, e: Exit, z: int, ghost v: map<RoomId, Pos>)
    returns (queue: seq<RoomId>, placed': set<nat>, lines': set<Cell>, deferred: seq<Transition>)
    requires Placing(b.zone, c, b.R, b.result, b.floors, b.occupied, placed) && z in b.occupied
    requires b.result.On(current, z) && e in b.zone.ExitsOf(current)
    modifies b`result, b`occupied
    ensures Placing(b.zone, c, b.R, b.result, b.floors, b.occupied, placed')
    ensures b.occupied.Keys == old(b.occupied).Keys
    ensures Adds(old(b.result), b.result, z, queue)
    ensures forall t :: t in deferred ==> Deferred(b.zone, b.result, t)
    ensures Settled(b.zone, b.result, deferred, e)
    ensures queue == [] ==> b.result == old(b.result)
    ensures ExitStep(b.zone, c, b.R, z, current, e, Search(old(b.result), old(b.occupied)[z], placed, lines, [], []),
                     Search(b.result, b.occupied[z], placed', lines', queue, deferred))
    ensures Follow(b.zone, c, v, old(b.result)) && lines == {} ==> Follow(b.zone, c, v, b.result) && lines' == {}
  {
    hide Placing, Tracks, FollowsAll, SingleStep, BlockStep, Diamond.Directed, Exact, NoOverlap;
    queue, placed', lines', deferred := [], placed, lines, [];
    var target := e.target;
    if target in b.result.at { return; }
    if target !in b.zone.exits { return; }
    if !Known(e.dir) { return; }
    var p, o := b.result.at[current], Off(e.dir);
    if o.dz != 0 {
      deferred := [Transition(current, target, p.z + o.dz)];
      return;
    }
    PlacingParts(b.zone, c, b.R, b.result, b.floors, b.occupied, placed);
    InZone(b.zone, c, b.R, b.result, b.floors, b.occupied, placed, target);
    if Follow(b.zone, c, v, b.result) { StepOf(b.zone, v, b.result, current, e); }
    var ideal := Cell(p.x + o.dx, p.y + o.dy);
    if target in c.info && c.info[target].clusterId !in placed {
      queue, placed', lines' := PlaceBlock(b, c, placed, target, ideal, z, lines, v);
      return;
    }
    lines' := PlaceTowards(b, c, placed, target, e.dir, ideal, z, lines, v);
    queue := [target];
  }

  /** A step does not look at the queue or at what is pending. */
  lemma ExitStepLater(zone: Zone, c: Clusters, R: nat, z: int, current: RoomId, e: Exit, s: Search, s': Search, queue: seq<RoomId>, pending: seq<Transition>)
    requires s.queue == [] && s.pending == [] && ExitStep(zone, c, R, z, current, e, s, s')
    ensures ExitStep(zone, c, R, z, current, e, s.(queue := queue, pending := pending), s'.(queue := queue + s'.queue, pending := pending + s'.pending))
  {
    hide Diamond.Directed, ShiftChosen, OnExitLine, Adds;
    var t, t' := s.(queue := queue, pending := pending), s'.(queue := queue + s'.queue, pending := pending + s'.pending);
    var p := s.r.at[current];
    if e.target in s.r.at || e.target !in zone.exits || !Known(e.dir) {
      assert t' == t;
    } else if Off(e.dir).dz != 0 {
    } else if e.target in c.info && c.info[e.target].clusterId !in s.placed {
      assert BlockStep(zone, c, R, z, e.target, Cell(p.x + Off(e.dir).dx, p.y + Off(e.dir).dy), t, t');
    } else {
      var ideal := Cell(p.x + Off(e.dir).dx, p.y + Off(e.dir).dy);
      var cell :| Diamond.Directed(ideal, Off(e.dir), s.cells, s.lines, R, cell) && SingleStep(zone, z, e.target, cell, s, s');
      assert SingleStep(zone, z, e.target, cell, t, t');
    }
  }

  lemma StepOf(zone: Zone, v: map<RoomId, Pos>, r: Layout, current: RoomId, e: Exit)
    requires Tracks(zone, v, r) && current in r.at && e in zone.ExitsOf(current) && Known(e.dir)
    ensures e.target in v && v[e.target] == Plus(r.at[current], Off(e.dir))
  {
  }

  lemma RoomForOne(zone: Zone, r: Layout, occ: Occupancy, z: int, id: RoomId, R: nat)
    requires zone.Valid() && r.Valid() && Exact(r, occ) && z in occ && Small(zone, R)
    requires id in zone.ids && id !in r.at && forall x :: x in r.at ==> x in zone.ids
    ensures |occ[z]| < (R + 1) * (R + 1) && |occ[z]| < 2 * R * R + 2 * R + 1
  {
    RoomForMore(zone, r, occ, z, [id]);
    hide Exact;
    SquareBound(|occ[z]|, R);
  }

  lemma SquareBound(n: nat, R: nat)
    requires n + 1 <= (R + 1) * (R + 1)
    ensures n < 2 * R * R + 2 * R + 1
  {
    assert (R + 1) * (R + 1) == R * R + 2 * R + 1 && 2 * R * R == R * R + R * R;
  }

  // ---- Breadth-first placement of one floor's component ----

  /** Every exit of a placed room that is not waiting in the queue is settled. */
  ghost predicate AllSettled(zone: Zone, r: Layout, queue: seq<RoomId>, pending: seq<Transition>) {
    forall id, e :: id in r.at && id !in queue && e in zone.ExitsOf(id) ==> Settled(zone, r, pending, e)
  }

  ghost predicate AllDeferred(zone: Zone, r: Layout, pending: seq<Transition>) {
    forall t :: t in pending ==> Deferred(zone, r, t)
  }

  /** No placed room moves. */
  ghost predicate Extends(r: Layout, r': Layout) {
    |r.order| <= |r'.order| && forall id :: id in r.at ==> id in r'.at && r'.at[id] == r.at[id]
  }

  lemma SettledGrows(zone: Zone, r: Layout, r': Layout, queue: seq<RoomId>, queue': seq<RoomId>,
                     pending: seq<Transition>, pending': seq<Transition>)
    requires AllSettled(zone, r, queue, pending) && AllDeferred(zone, r, pending) && Extends(r, r')
    requires forall id :: id in r'.at && id !in r.at ==> id in queue'
    requires forall id :: id in queue ==> id in queue'
    requires forall t :: t in pending ==> t in pending'
    ensures AllSettled(zone, r', queue', pending') && AllDeferred(zone, r', pending)
  {
    hide Settled;
    forall id, e | id in r'.at && id !in queue' && e in zone.ExitsOf(id) ensures Settled(zone, r', pending', e) {
      SettledStill(zone, r, r', pending, pending', e);
    }
  }

  /** The room left the queue and all its exits are settled. */
  lemma SettledRoom(zone: Zone, r: Layout, queue: seq<RoomId>, current: RoomId, pending: seq<Transition>)
    requires AllSettled(zone, r, queue + [current], pending)
    requires forall e :: e in zone.ExitsOf(current) ==> Settled(zone, r, pending, e)
    ensures AllSettled(zone, r, queue, pending)
  {
  }

  lemma OrderBound(zone: Zone, c: Clusters, R: nat, r: Layout, floors: seq<int>, occ: Occupancy, placed: set<nat>)
    requires Placing(zone, c, R, r, floors, occ, placed)
    ensures |r.order| <= |zone.ids|
  {
    DistinctWithin(r.order, zone.ids);
  }

  lemma AddedRooms(r: Layout, r': Layout, z: int, added: seq<RoomId>)
    requires r.Valid() && r'.Valid() && Adds(r, r', z, added)
    ensures Extends(r, r') && forall id :: id in r'.at && id !in r.at ==> id in added
  {
    assert forall id :: id in r'.order ==> id in r.order || id in added;
  }

  lemma PlacingParts(zone: Zone, c: Clusters, R: nat, r: Layout, floors: seq<int>, occ: Occupancy, placed: set<nat>)
    requires Placing(zone, c, R, r, floors, occ, placed)
    ensures r.Valid() && zone.Valid() && Exact(r, occ) && (forall z :: z in floors <==> z in occ)
    ensures forall id :: id in r.at ==> id in zone.ids
    ensures Small(zone, R) ==> NoOverlap(r)
    ensures forall id :: id in c.info && id !in r.at ==> c.info[id].clusterId !in placed
    ensures c.Valid()
  {
  }

  /** Process every exit of one room. */
  method VisitRoom(b: Board, c: Clusters, placed: set<nat>, lines: set<Cell>, current: RoomId, rest: seq<RoomId>,
                   pending: seq<Transition>, z: int, ghost v: map<RoomId, Pos>)
    returns (queue: seq<RoomId>, placed': set<nat>, lines': set<Cell>, pending': seq<Transition>)
    requires Placing(b.zone, c, b.R, b.result, b.floors, b.occupied, placed) && z in b.occupied
    requires b.result.On(current, z) && forall id :: id in rest ==> b.result.On(id, z)
    requires AllSettled(b.zone, b.result, rest + [current], pending) && AllDeferred(b.zone, b.result, pending)
    modifies b`result, b`occupied
    ensures Placing(b.zone, c, b.R, b.result, b.floors, b.occupied, placed') && b.occupied.Keys == old(b.occupied).Keys
    ensures forall id :: id in queue ==> b.result.On(id, z)
    ensures AllSettled(b.zone, b.result, queue, pending') && AllDeferred(b.zone, b.result, pending')
    ensures Extends(old(b.result), b.result) && pending <= pending'
    ensures |b.result.order| == |old(b.result).order| ==> queue == rest
    ensures RoomStep(b.zone, c, b.R, z, current, Search(old(b.result), old(b.occupied)[z], placed, lines, rest, pending),
                     Search(b.result, b.occupied[z], placed', lines', queue, pending'))
    ensures Follow(b.zone, c, v, old(b.result)) && lines == {} ==> Follow(b.zone, c, v, b.result) && lines' == {}
  {
    hide Placing, Deferred, Settled, Follow, AllSettled, AllDeferred, Adds, Extends, ExitStep;
    queue, placed', lines', pending' := rest, placed, lines, pending;
    var exits := b.zone.ExitsOf(current);
    ghost var r0, occ0 := b.result, b.occupied;
    ghost var run := [Search(r0, occ0[z], placed, lines, rest, pending)];
    ExtendsSame(r0);
    for i := 0 to |exits|
      invariant Placing(b.zone, c, b.R, b.result, b.floors, b.occupied, placed') && b.occupied.Keys == old(b.occupied).Keys
      invariant b.result.On(current, z) && forall id :: id in queue ==> b.result.On(id, z)
      invariant AllSettled(b.zone, b.result, queue + [current], pending') && AllDeferred(b.zone, b.result, pending')
      invariant forall e :: e in exits[..i] ==> Settled(b.zone, b.result, pending', e)
      invariant Extends(r0, b.result) && pending <= pending'
      invariant |b.result.order| == |r0.order| ==> queue == rest
      invariant Follow(b.zone, c, v, r0) && lines == {} ==> Follow(b.zone, c, v, b.result) && lines' == {}
      invariant |run| == i + 1 && run[0] == Search(r0, occ0[z], placed, lines, rest, pending)
      invariant run[i] == Search(b.result, b.occupied[z], placed', lines', queue, pending')
      invariant forall j :: 0 <= j < i ==> ExitStep(b.zone, c, b.R, z, current, exits[j], run[j], run[j + 1])
    {
      ghost var r, before := b.result, Search(b.result, b.occupied[z], placed', lines', [], []);
      PlacingParts(b.zone, c, b.R, b.result, b.floors, b.occupied, placed');
      var added, deferred;
      added, placed', lines', deferred := VisitExit(b, c, placed', lines', current, exits[i], z, v);
      PlacingParts(b.zone, c, b.R, b.result, b.floors, b.occupied, placed');
      VisitStep(b.zone, r0, r, b.result, z, exits, i, rest, queue, current, added, pending', deferred);
      ghost var after := Search(b.result, b.occupied[z], placed', lines', added, deferred);
      ExitStepLater(b.zone, c, b.R, z, current, exits[i], before, after, queue, pending');
      queue, pending' := queue + added, pending' + deferred;
      run := run + [Search(b.result, b.occupied[z], placed', lines', queue, pending')];
    }
    assert RoomRun(b.zone, c, b.R, z, current, run[0], run[|exits|], run);
    assert exits[..|exits|] == exits;
    SettledRoom(b.zone, b.result, queue, current, pending');
  }

  lemma ExtendsSame(r: Layout)
    ensures Extends(r, r)
  {
  }

  /** The bookkeeping of one visited exit. */
  lemma VisitStep(zone: Zone, r0: Layout, r: Layout, r': Layout, z: int, exits: seq<Exit>, i: nat, rest: seq<RoomId>,
                  queue: seq<RoomId>, current: RoomId, added: seq<RoomId>, pending: seq<Transition>, deferred: seq<Transition>)
    requires r.Valid() && r'.Valid() && Adds(r, r', z, added) && Extends(r0, r) && i < |exits|
    requires r.On(current, z) && forall id :: id in queue ==> r.On(id, z)
    requires AllSettled(zone, r, queue + [current], pending) && AllDeferred(zone, r, pending)
    requires forall e :: e in exits[..i] ==> Settled(zone, r, pending, e)
    requires Settled(zone, r', deferred, exits[i]) && forall t :: t in deferred ==> Deferred(zone, r', t)
    requires |r.order| == |r0.order| ==> queue == rest
    ensures r'.On(current, z) && forall id :: id in queue + added ==> r'.On(id, z)
    ensures AllSettled(zone, r', queue + added + [current], pending + deferred) && AllDeferred(zone, r', pending + deferred)
    ensures forall e :: e in exits[..i + 1] ==> Settled(zone, r', pending + deferred, e)
    ensures Extends(r0, r')
    ensures |r'.order| == |r0.order| ==> queue + added == rest
  {
    hide Settled, Deferred, AllSettled, AllDeferred;
    AddedRooms(r, r', z, added);
    SettledGrows(zone, r, r', queue + [current], queue + added + [current], pending, pending + deferred);
    assert exits[..i + 1] == exits[..i] + [exits[i]];
    forall e | e in exits[..i + 1] ensures Settled(zone, r', pending + deferred, e) {
      if e in exits[..i] {
        SettledStill(zone, r, r', pending, pending + deferred, e);
      } else {
        SettledStill(zone, r', r', deferred, pending + deferred, exits[i]);
      }
    }
    DeferredBoth(zone, r', pending, deferred);
  }

  lemma SettledStill(zone: Zone, r: Layout, r': Layout, pending: seq<Transition>, pending': seq<Transition>, e: Exit)
    requires Settled(zone, r, pending, e) && Extends(r, r') && forall t :: t in pending ==> t in pending'
    ensures Settled(zone, r', pending', e)
  {
  }

  lemma DeferredBoth(zone: Zone, r: Layout, s: seq<Transition>, t: seq<Transition>)
    requires AllDeferred(zone, r, s) && forall x :: x in t ==> Deferred(zone, r, x)
    ensures AllDeferred(zone, r, s + t)
  {
  }

  method Bfs(b: Board, c: Clusters, placed: set<nat>, pending: seq<Transition>, startId: RoomId, at: Cell, z: int, ghost v: map<RoomId, Pos>)
    returns (placed': set<nat>, pending': seq<Transition>)
    requires Placing(b.zone, c, b.R, b.result, b.floors, b.occupied, placed) && startId in b.zone.ids
    requires AllSettled(b.zone, b.result, [], pending) && AllDeferred(b.zone, b.result, pending)
    modifies b`result, b`occupied, b`floors
    ensures Placing(b.zone, c, b.R, b.result, b.floors, b.occupied, placed')
    ensures AllSettled(b.zone, b.result, [], pending') && AllDeferred(b.zone, b.result, pending')
    ensures Extends(old(b.result), b.result) && startId in b.result.at && pending <= pending'
    ensures startId !in old(b.result).at ==> z in b.occupied && exists run, end ::
      && SearchRun(b.zone, c, b.R, z, startId, at, Search(old(b.result), CellsOn(old(b.occupied), z), placed, {}, [], pending), end, run)
      && end.r == b.result && end.cells == b.occupied[z] && end.placed == placed' && end.pending == pending'
    ensures startId in old(b.result).at ==> b.result == old(b.result) && pending' == pending
    ensures startId !in old(b.result).at ==> |b.result.order| > |old(b.result).order|
    ensures Follow(b.zone, c, v, old(b.result)) && startId in v && v[startId] == At(at, z) ==> Follow(b.zone, c, v, b.result)
  {
    hide Placing, Deferred, Settled, Follow, AllSettled, AllDeferred, Small, Exact, NoOverlap, Extends, Adds, StartStep, RoomStep;
    placed', pending' := placed, pending;
    PlacingParts(b.zone, c, b.R, b.result, b.floors, b.occupied, placed);
    ghost var r0, start := b.result, Search(b.result, CellsOn(b.occupied, z), placed, {}, [], pending);
    ExtendsSame(r0);
    if startId in b.result.at { return; }
    var queue, lines;
    queue, lines, placed' := PlaceStart(b, c, placed, startId, at, z, v);
    PlacingParts(b.zone, c, b.R, b.result, b.floors, b.occupied, placed');
    StartSettled(b.zone, r0, b.result, z, queue, pending);
    OrderBound(b.zone, c, b.R, b.result, b.floors, b.occupied, placed');
    StartStepLater(b.zone, c, b.R, z, startId, at, start.(pending := []), Search(b.result, b.occupied[z], placed', lines, queue, []), pending);
    ghost var run := [Search(b.result, b.occupied[z], placed', lines, queue, pending)];
    while queue != []
      invariant Placing(b.zone, c, b.R, b.result, b.floors, b.occupied, placed') && z in b.occupied
      invariant forall id :: id in queue ==> b.result.On(id, z)
      invariant AllSettled(b.zone, b.result, queue, pending') && AllDeferred(b.zone, b.result, pending')
      invariant Extends(r0, b.result) && startId in b.result.at && |b.result.order| > |r0.order| && pending <= pending'
      invariant Follow(b.zone, c, v, r0) && startId in v && v[startId] == At(at, z) ==> Follow(b.zone, c, v, b.result) && lines == {}
      invariant |b.result.order| <= |b.zone.ids|
      invariant QueueRun(b.zone, c, b.R, z, run) && StartStep(b.zone, c, b.R, z, startId, at, start, run[0])
      invariant run[|run| - 1] == Search(b.result, b.occupied[z], placed', lines, queue, pending')
      decreases |b.zone.ids| - |b.result.order|, |queue|
    {
      var current := queue[0];
      assert current in queue;
      ghost var r := b.result;
      Requeue(b.zone, b.result, queue, pending');
      queue, placed', lines, pending' := VisitRoom(b, c, placed', lines, current, queue[1..], pending', z, v);
      run := run + [Search(b.result, b.occupied[z], placed', lines, queue, pending')];
      OrderBound(b.zone, c, b.R, b.result, b.floors, b.occupied, placed');
      ExtendsTrans(r0, r, b.result);
    }
    assert SearchRun(b.zone, c, b.R, z, startId, at, start, run[|run| - 1], run);
  }

  lemma StartStepLater(zone: Zone, c: Clusters, R: nat, z: int, id: RoomId, at: Cell, s: Search, s': Search, pending: seq<Transition>)
    requires s.pending == [] && s'.pending == [] && StartStep(zone, c, R, z, id, at, s, s')
    ensures StartStep(zone, c, R, z, id, at, s.(pending := pending), s'.(pending := pending))
  {
    hide Diamond.Nearest, ShiftChosen, OnExitLine, Adds;
    var t, t' := s.(pending := pending), s'.(pending := pending);
    if id in c.info && c.info[id].clusterId !in s.placed {
      assert BlockStep(zone, c, R, z, id, at, t, t');
    } else {
      var cell :| Diamond.Nearest(at, s.cells, R, cell) && SingleStep(zone, z, id, cell, s, s');
      assert SingleStep(zone, z, id, cell, t, t');
    }
  }

  lemma Requeue(zone: Zone, r: Layout, queue: seq<RoomId>, pending: seq<Transition>)
    requires AllSettled(zone, r, queue, pending) && queue != []
    ensures AllSettled(zone, r, queue[1..] + [queue[0]], pending)
  {
    hide Settled;
    assert forall id :: id in queue ==> id in queue[1..] + [queue[0]];
  }

  lemma ExtendsTrans(r: Layout, r1: Layout, r2: Layout)
    requires Extends(r, r1) && Extends(r1, r2)
    ensures Extends(r, r2) && |r1.order| <= |r2.order|
    ensures forall id :: id in r1.at ==> id in r2.at
  {
  }

  lemma StartSettled(zone: Zone, r0: Layout, r: Layout, z: int, queue: seq<RoomId>, pending: seq<Transition>)
    requires r0.Valid() && r.Valid() && Adds(r0, r, z, queue) && queue != []
    requires AllSettled(zone, r0, [], pending) && AllDeferred(zone, r0, pending)
    ensures AllSettled(zone, r, queue, pending) && AllDeferred(zone, r, pending)
    ensures Extends(r0, r) && |r.order| > |r0.order| && forall id :: id in queue ==> r.On(id, z)
  {
    hide AllSettled, AllDeferred;
    AddedRooms(r0, r, z, queue);
    SettledGrows(zone, r0, r, [], queue, pending, pending);
  }

  /** The occupied cells of a floor that may not have been opened yet. */
  function CellsOn(occ: Occupancy, z: int): set<Cell> {
    if z in occ then occ[z] else {}
  }

  /** The first room of a component: with its whole block, or on the nearest free cell. */
  method PlaceStart(b: Board, c: Clusters, placed: set<nat>, startId: RoomId, at: Cell, z: int, ghost v: map<RoomId, Pos>)
    returns (queue: seq<RoomId>, lines: set<Cell>, placed': set<nat>)
    requires Placing(b.zone, c, b.R, b.result, b.floors, b.occupied, placed)
    requires startId in b.zone.ids && startId !in b.result.at
    modifies b`result, b`occupied, b`floors
    ensures Placing(b.zone, c, b.R, b.result, b.floors, b.occupied, placed') && z in b.occupied
    ensures Adds(old(b.result), b.result, z, queue) && startId in queue && startId in b.result.at
    ensures StartStep(b.zone, c, b.R, z, startId, at, Search(old(b.result), CellsOn(old(b.occupied), z), placed, {}, [], []),
                      Search(b.result, b.occupied[z], placed', lines, queue, []))
    ensures Follow(b.zone, c, v, old(b.result)) && startId in v && v[startId] == At(at, z) ==> Follow(b.zone, c, v, b.result) && lines == {}
  {
    hide Placing, Follow, Small, Exact, NoOverlap, SingleStep, BlockStep, Diamond.Nearest;
    placed' := placed;
    OpenPlacing(b.zone, c, b.R, b.result, b.floors, b.occupied, placed, z);
    b.OpenFloor(z);
    ReopenPlacing(b.zone, c, b.R, b.result, b.floors, b.occupied, placed, z);
    if startId in c.info && c.info[startId].clusterId !in placed {
      queue, placed', lines := PlaceBlock(b, c, placed, startId, at, z, {}, v);
    } else {
      if Follow(b.zone, c, v, b.result) && startId in v && v[startId] == At(at, z) {
        FollowIdeal(b.zone, c, v, b.result, b.occupied, startId);
      }
      var start := Diamond.FindNearestUnoccupied(at, b.occupied[z], b.R);
      if Small(b.zone, b.R) { RoomForOne(b.zone, b.result, b.occupied, z, startId, b.R); }
      lines := PlaceSingle(b, c, placed, startId, start, z, {}, v);
      queue := [startId];
    }
  }

  lemma OpenPlacing(zone: Zone, c: Clusters, R: nat, r: Layout, floors: seq<int>, occ: Occupancy, placed: set<nat>, z: int)
    requires Placing(zone, c, R, r, floors, occ, placed)
    ensures z !in occ ==> Exact(r, occ[z := {}])
    ensures (forall y :: y in floors <==> y in occ) && zone.Valid() && c.Valid() && InjectiveOffsets(c)
    ensures (forall id :: id in c.info ==> id in zone.ids) && r.Valid() && (forall id :: id in r.at ==> id in zone.ids)
    ensures (Small(zone, R) ==> NoOverlap(r)) && Blocks(c, placed, r) && Exact(r, occ)
  {
    if z !in occ { OpenExact(r, occ, z); }
  }

  lemma ReopenPlacing(zone: Zone, c: Clusters, R: nat, r: Layout, floors: seq<int>, occ: Occupancy, placed: set<nat>, z: int)
    requires zone.Valid() && c.Valid() && InjectiveOffsets(c) && forall id :: id in c.info ==> id in zone.ids
    requires r.Valid() && (forall id :: id in r.at ==> id in zone.ids) && (forall y :: y in floors <==> y in occ)
    requires Exact(r, occ) && (Small(zone, R) ==> NoOverlap(r)) && Blocks(c, placed, r)
    ensures Placing(zone, c, R, r, floors, occ, placed)
  {
  }

  lemma FollowIdeal(zone: Zone, c: Clusters, v: map<RoomId, Pos>, r: Layout, occ: Occupancy, id: RoomId)
    requires Follow(zone, c, v, r) && Exact(r, occ) && id in v && id !in r.at && v[id].z in occ
    ensures v[id].AtCell() !in occ[v[id].z]
  {
    IdealIsFree(zone, v, r, occ, id);
  }

  // ---- Phases 1 to 3 ----

  /** Nothing smaller than the whole zone contains the entry and is closed under exits. */
  ghost predicate AllReachable(zone: Zone, entry: RoomId) {
    entry in zone.ids && forall s: set<RoomId> :: entry in s && ClosedUnderExits(zone, s) ==> forall id :: id in zone.ids ==> id in s
  }

  ghost predicate ClosedUnderExits(zone: Zone, s: set<RoomId>) {
    forall id, e :: id in s && e in zone.ExitsOf(id) && Known(e.dir) && e.target in zone.exits ==> e.target in s
  }

  /** The invariant between two breadth-first searches. */
  ghost predicate Idle(b: Board, c: Clusters, placed: set<nat>, pending: seq<Transition>)
    reads b
  {
    && Placing(b.zone, c, b.R, b.result, b.floors, b.occupied, placed)
    && AllSettled(b.zone, b.result, [], pending) && AllDeferred(b.zone, b.result, pending)
  }

  lemma StartIdle(zone: Zone, c: Clusters, R: nat)
    requires zone.Valid() && c.Valid() && InjectiveOffsets(c) && forall id :: id in c.info ==> id in zone.ids
    ensures Placing(zone, c, R, EmptyLayout, [], map[], {})
    ensures AllSettled(zone, EmptyLayout, [], []) && AllDeferred(zone, EmptyLayout, [])
  {
  }

  /** The zone while the deferred exits are worked off, and those still to come in their order. */
  datatype Level = Level(r: Layout, occ: Occupancy, todo: seq<Transition>)

  /** The search from the first deferred target starts at its source's cell, on its own floor; the
      exits it defers are added at the end. */
  ghost predicate DescendsVia(zone: Zone, c: Clusters, R: nat, t: Transition, s: Level, s': Level, from: Search, end: Search, run: seq<Search>, found: seq<Transition>) {
    && s.todo != [] && t.sourceId in s.r.at
    && SearchRun(zone, c, R, t.targetZ, t.targetId, s.r.at[t.sourceId].AtCell(), from, end, run)
    && from.r == s.r && from.cells == CellsOn(s.occ, t.targetZ) && end.r == s'.r && t.targetZ in s'.occ && end.cells == s'.occ[t.targetZ]
    && end.pending == from.pending + found && s'.todo == s.todo[1..] + found
  }

  ghost predicate Descends(zone: Zone, c: Clusters, R: nat, t: Transition, s: Level, s': Level) {
    exists from, end, run, found :: DescendsVia(zone, c, R, t, s, s', from, end, run, found)
  }

  /** The first deferred exit is passed over if its target has a place by now. */
  ghost predicate DeferredStep(zone: Zone, c: Clusters, R: nat, s: Level, s': Level) {
    && s.todo != []
    && if s.todo[0].targetId in s.r.at then s' == s.(todo := s.todo[1..]) else Descends(zone, c, R, s.todo[0], s, s')
  }

  ghost predicate DeferredRun(zone: Zone, c: Clusters, R: nat, s: Level, s': Level, run: seq<Level>) {
    && |run| > 0 && run[0] == s && run[|run| - 1] == s'
    && forall i :: 0 < i < |run| ==> DeferredStep(zone, c, R, run[i - 1], run[i])
  }

  lemma DeferredStart(zone: Zone, c: Clusters, R: nat, s: Level)
    ensures DeferredRun(zone, c, R, s, s, [s])
  {
  }

  lemma DeferredNext(zone: Zone, c: Clusters, R: nat, s: Level, s1: Level, s2: Level, run: seq<Level>)
    requires DeferredRun(zone, c, R, s, s1, run) && DeferredStep(zone, c, R, s1, s2)
    ensures DeferredRun(zone, c, R, s, s2, run + [s2])
  {
    hide DeferredStep;
  }

  lemma DescendsBy(zone: Zone, c: Clusters, R: nat, t: Transition, s: Level, s': Level, placed: set<nat>, placed': set<nat>, all: seq<Transition>, found: seq<Transition>)
    requires s.todo != [] && t.sourceId in s.r.at && t.targetZ in s'.occ && s'.todo == s.todo[1..] + found
    requires exists run, end ::
      && SearchRun(zone, c, R, t.targetZ, t.targetId, s.r.at[t.sourceId].AtCell(),
                   Search(s.r, CellsOn(s.occ, t.targetZ), placed, {}, [], all), end, run)
      && end.r == s'.r && end.cells == s'.occ[t.targetZ] && end.placed == placed' && end.pending == all + found
    ensures Descends(zone, c, R, t, s, s')
  {
    hide SearchRun;
    var from := Search(s.r, CellsOn(s.occ, t.targetZ), placed, {}, [], all);
    var run, end :| SearchRun(zone, c, R, t.targetZ, t.targetId, s.r.at[t.sourceId].AtCell(), from, end, run)
      && end.r == s'.r && end.cells == s'.occ[t.targetZ] && end.placed == placed' && end.pending == all + found;
    assert DescendsVia(zone, c, R, t, s, s', from, end, run, found);
  }

  /** The deferred exit t, first of the rest of its round: passed over, or a search from its target. */
  method TakeDeferred(b: Board, c: Clusters, placed: set<nat>, start: seq<Transition>, rest: seq<Transition>, done: set<(RoomId, RoomId)>, ghost v: map<RoomId, Pos>)
    returns (placed': set<nat>, todo: seq<Transition>, processed: set<(RoomId, RoomId)>)
    requires rest != [] && Idle(b, c, placed, start + rest) && forall k :: k in done ==> k.1 in b.result.at
    modifies b`result, b`occupied, b`floors
    ensures Idle(b, c, placed', todo + rest[1..]) && Extends(old(b.result), b.result)
    ensures DeferredStep(b.zone, c, b.R, Level(old(b.result), old(b.occupied), rest + start), Level(b.result, b.occupied, rest[1..] + todo))
    ensures Follow(b.zone, c, v, old(b.result)) ==> Follow(b.zone, c, v, b.result)
    ensures |b.result.order| >= |old(b.result).order| && (|b.result.order| == |old(b.result).order| ==> todo == start)
    ensures forall k :: k in processed ==> k.1 in b.result.at
  {
    hide Placing, Settled, Follow, AllSettled, Deferred, Extends, SearchRun, Descends;
    placed', todo, processed := placed, start, done;
    var t, all := rest[0], start + rest;
    ghost var r, before := b.result, Level(b.result, b.occupied, rest + start);
    assert all[|start|] == t && t in all;
    DeferredParts(b.zone, r, all, t);
    ExtendsSame(r);
    assert rest == [t] + rest[1..] && before.todo[1..] == rest[1..] + start;
    if (t.sourceId, t.targetId) !in processed {
      processed := processed + {(t.sourceId, t.targetId)};
      if t.targetId !in b.result.at && t.sourceId in b.result.at {
        var p := b.result.at[t.sourceId];
        if Follow(b.zone, c, v, r) { FollowDeferred(b.zone, c, v, r, t); }
        InZone(b.zone, c, b.R, b.result, b.floors, b.occupied, placed, t.targetId);
        var pending';
        placed', pending' := Bfs(b, c, placed, all, t.targetId, p.AtCell(), t.targetZ, v);
        var found := pending'[|all|..];
        todo := start + found;
        assert pending' == all + found;
        assert rest[1..] + todo == (rest[1..] + start) + found;
        DescendsBy(b.zone, c, b.R, t, before, Level(b.result, b.occupied, rest[1..] + todo), placed, placed', all, found);
        Regroup(b.zone, b.result, pending', todo + rest);
        Placed(r, b.result, processed, t);
      }
    }
    DropPlaced(b.zone, b.result, todo + rest, todo + rest[1..], t);
  }

  lemma Placed(r: Layout, r': Layout, processed: set<(RoomId, RoomId)>, t: Transition)
    requires Extends(r, r') && t.targetId in r'.at && forall k :: k in processed && k != (t.sourceId, t.targetId) ==> k.1 in r.at
    ensures forall k :: k in processed ==> k.1 in r'.at
  {
  }

  /** One round: the exits that were deferred before it, and a list of those it defers itself. */
  method PlaceRound(b: Board, c: Clusters, placed: set<nat>, batch: seq<Transition>, done: set<(RoomId, RoomId)>, ghost v: map<RoomId, Pos>,
                    ghost s0: Level, ghost sofar: seq<Level>)
    returns (placed': set<nat>, todo: seq<Transition>, processed: set<(RoomId, RoomId)>, ghost run: seq<Level>)
    requires Idle(b, c, placed, batch) && forall k :: k in done ==> k.1 in b.result.at
    requires DeferredRun(b.zone, c, b.R, s0, Level(b.result, b.occupied, batch), sofar)
    modifies b`result, b`occupied, b`floors
    ensures Idle(b, c, placed', todo) && Extends(old(b.result), b.result)
    ensures DeferredRun(b.zone, c, b.R, s0, Level(b.result, b.occupied, todo), run)
    ensures Follow(b.zone, c, v, old(b.result)) ==> Follow(b.zone, c, v, b.result)
    ensures |b.result.order| >= |old(b.result).order| && (|b.result.order| == |old(b.result).order| ==> todo == [])
    ensures forall k :: k in processed ==> k.1 in b.result.at
  {
    hide Placing, Settled, Follow, AllSettled, AllDeferred, Extends, DeferredStep, DeferredRun;
    placed', todo, processed, run := placed, [], done, sofar;
    ghost var r0 := b.result;
    ExtendsSame(r0);
    assert [] + batch[0..] == batch && batch[0..] + [] == batch;
    for i := 0 to |batch|
      invariant Idle(b, c, placed', todo + batch[i..]) && Extends(r0, b.result)
      invariant DeferredRun(b.zone, c, b.R, s0, Level(b.result, b.occupied, batch[i..] + todo), run)
      invariant forall k :: k in processed ==> k.1 in b.result.at
      invariant Follow(b.zone, c, v, r0) ==> Follow(b.zone, c, v, b.result)
      invariant |b.result.order| >= |r0.order| && (|b.result.order| == |r0.order| ==> todo == [])
    {
      ghost var r, before := b.result, Level(b.result, b.occupied, batch[i..] + todo);
      DropDrop(batch, i, 1);
      placed', todo, processed := TakeDeferred(b, c, placed', todo, batch[i..], processed, v);
      DeferredNext(b.zone, c, b.R, s0, before, Level(b.result, b.occupied, batch[i + 1..] + todo), run);
      run := run + [Level(b.result, b.occupied, batch[i + 1..] + todo)];
      ExtendsTrans(r0, r, b.result);
    }
    assert todo + batch[|batch|..] == todo && batch[|batch|..] + todo == todo;
  }

  /** Phase 2: the deferred up and down exits, round by round, which is first come, first served. */
  method PlaceDeferred(b: Board, c: Clusters, placed: set<nat>, pending: seq<Transition>, ghost v: map<RoomId, Pos>)
    returns (placed': set<nat>)
    requires Idle(b, c, placed, pending)
    modifies b`result, b`occupied, b`floors
    ensures Idle(b, c, placed', []) && Extends(old(b.result), b.result)
    ensures Follow(b.zone, c, v, old(b.result)) ==> Follow(b.zone, c, v, b.result)
    ensures exists run :: DeferredRun(b.zone, c, b.R, Level(old(b.result), old(b.occupied), pending), Level(b.result, b.occupied, []), run)
  {
    hide Placing, Settled, Follow, AllSettled, AllDeferred, Extends, DeferredRun;
    placed' := placed;
    var todo := pending;
    var processed: set<(RoomId, RoomId)> := {};
    ghost var r0, s0 := b.result, Level(b.result, b.occupied, pending);
    ghost var run := [s0];
    DeferredStart(b.zone, c, b.R, s0);
    ExtendsSame(r0);
    OrderBound(b.zone, c, b.R, b.result, b.floors, b.occupied, placed');
    while todo != []
      invariant Idle(b, c, placed', todo) && Extends(r0, b.result)
      invariant DeferredRun(b.zone, c, b.R, s0, Level(b.result, b.occupied, todo), run)
      invariant forall k :: k in processed ==> k.1 in b.result.at
      invariant Follow(b.zone, c, v, r0) ==> Follow(b.zone, c, v, b.result)
      invariant |b.result.order| <= |b.zone.ids|
      decreases |b.zone.ids| - |b.result.order|, |todo|
    {
      ghost var r := b.result;
      placed', todo, processed, run := PlaceRound(b, c, placed', todo, processed, v, s0, run);
      OrderBound(b.zone, c, b.R, b.result, b.floors, b.occupied, placed');
      ExtendsTrans(r0, r, b.result);
    }
  }

  lemma DeferredParts(zone: Zone, r: Layout, pending: seq<Transition>, t: Transition)
    requires AllDeferred(zone, r, pending) && t in pending
    ensures Deferred(zone, r, t) && t.sourceId in r.at && t.targetId in zone.exits
  {
  }

  lemma InZone(zone: Zone, c: Clusters, R: nat, r: Layout, floors: seq<int>, occ: Occupancy, placed: set<nat>, id: RoomId)
    requires Placing(zone, c, R, r, floors, occ, placed) && id in zone.exits
    ensures id in zone.ids
  {
  }

  lemma FollowDeferred(zone: Zone, c: Clusters, v: map<RoomId, Pos>, r: Layout, t: Transition)
    requires Follow(zone, c, v, r) && Deferred(zone, r, t)
    ensures t.targetId in v && v[t.targetId] == At(r.at[t.sourceId].AtCell(), t.targetZ)
  {
  }

  lemma Regroup(zone: Zone, r: Layout, s: seq<Transition>, t: seq<Transition>)
    requires AllSettled(zone, r, [], s) && AllDeferred(zone, r, s)
    requires forall x :: x in s <==> x in t
    ensures AllSettled(zone, r, [], t) && AllDeferred(zone, r, t)
  {
    hide Deferred;
    SettledGrows(zone, r, r, [], [], s, t);
  }

  /** A transition whose target is placed need not be remembered. */
  lemma DropPlaced(zone: Zone, r: Layout, s: seq<Transition>, t: seq<Transition>, gone: Transition)
    requires AllSettled(zone, r, [], s) && AllDeferred(zone, r, s) && gone.targetId in r.at
    requires forall x :: x in s ==> x in t || x == gone
    requires forall x :: x in t ==> x in s
    ensures AllSettled(zone, r, [], t) && AllDeferred(zone, r, t)
  {
    hide Deferred;
    forall id, e | id in r.at && e in zone.ExitsOf(id) ensures Settled(zone, r, t, e) {
      assert Settled(zone, r, s, e);
    }
  }

  ghost predicate IsRightEdge(r: Layout, maxX: int) {
    && maxX >= 0 && (forall id :: id in r.at ==> r.at[id].x <= maxX)
    && (maxX == 0 || exists id :: id in r.at && r.at[id].x == maxX)
  }

  /** The column of the rightmost room, or 0 if none is to the right of it. */
  method RightEdge(r: Layout) returns (maxX: int)
    requires r.Valid()
    ensures IsRightEdge(r, maxX)
  {
    maxX := 0;
    for i := 0 to |r.order|
      invariant maxX >= 0 && forall id :: id in r.order[..i] ==> r.at[id].x <= maxX
      invariant maxX == 0 || exists id :: id in r.at && r.at[id].x == maxX
    {
      assert r.order[..i + 1] == r.order[..i] + [r.order[i]];
      assert r.order[i] in r.order;
      if r.at[r.order[i]].x > maxX { maxX := r.at[r.order[i]].x; }
    }
    assert r.order[..|r.order|] == r.order;
  }

  /** A search from a room no exit led to starts past every placed room. */
  ghost predicate DetachedVia(zone: Zone, c: Clusters, R: nat, id: RoomId, s: State, s': State, maxX: int, from: Search, end: Search, run: seq<Search>) {
    && IsRightEdge(s.r, maxX) && SearchRun(zone, c, R, 0, id, Cell(maxX + DISCONNECTED_SUBGRAPH_GAP, 0), from, end, run)
    && from.r == s.r && from.cells == CellsOn(s.occ, 0) && end.r == s'.r && 0 in s'.occ && end.cells == s'.occ[0]
  }

  ghost predicate Detached(zone: Zone, c: Clusters, R: nat, id: RoomId, s: State, s': State) {
    exists maxX, from, end, run :: DetachedVia(zone, c, R, id, s, s', maxX, from, end, run)
  }

  /** The rooms of the zone in order; those that have a place already are passed over. */
  ghost predicate DetachedRun(zone: Zone, c: Clusters, R: nat, ids: seq<RoomId>, s: State, s': State, run: seq<State>) {
    && Run(run, |ids|, s, s')
    && forall i :: 0 <= i < |ids| ==> if ids[i] in run[i].r.at then run[i + 1] == run[i] else Detached(zone, c, R, ids[i], run[i], run[i + 1])
  }

  /** Phase 3: rooms no exit led to. */
  method PlaceDisconnected(b: Board, c: Clusters, placed: set<nat>, pending: seq<Transition>)
    requires Idle(b, c, placed, pending)
    modifies b`result, b`occupied, b`floors
    ensures exists placed', pending' :: Idle(b, c, placed', pending')
    ensures Extends(old(b.result), b.result)
    ensures forall id :: id in b.zone.ids ==> id in b.result.at
    ensures (forall id :: id in b.zone.ids ==> id in old(b.result).at) ==> b.result == old(b.result)
    ensures exists run :: DetachedRun(b.zone, c, b.R, b.zone.ids, State(old(b.result), old(b.occupied)), State(b.result, b.occupied), run)
  {
    hide Placing, Settled, AllSettled, AllDeferred, Extends, SearchRun, Detached, IsRightEdge, DetachedRun;
    DetachedStart(b.zone, c, b.R, State(b.result, b.occupied));
    var placed', pending' := placed, pending;
    ghost var r0 := b.result;
    ghost var s0 := State(b.result, b.occupied);
    ghost var run := [s0];
    ExtendsSame(r0);
    for i := 0 to |b.zone.ids|
      invariant Idle(b, c, placed', pending') && Extends(r0, b.result)
      invariant forall id :: id in b.zone.ids[..i] ==> id in b.result.at
      invariant (forall id :: id in b.zone.ids ==> id in r0.at) ==> b.result == r0
      invariant DetachedRun(b.zone, c, b.R, b.zone.ids[..i], s0, State(b.result, b.occupied), run)
    {
      var id := b.zone.ids[i];
      assert id in b.zone.ids;
      assert b.zone.ids[..i + 1] == b.zone.ids[..i] + [id];
      ghost var r, before := b.result, State(b.result, b.occupied);
      if id !in b.result.at {
        PlacingParts(b.zone, c, b.R, b.result, b.floors, b.occupied, placed');
        var maxX := RightEdge(b.result);
        placed', pending' := Bfs(b, c, placed', pending', id, Cell(maxX + DISCONNECTED_SUBGRAPH_GAP, 0), 0, map[]);
        DetachedBy(b.zone, c, b.R, id, before, State(b.result, b.occupied), maxX, Cell(maxX + DISCONNECTED_SUBGRAPH_GAP, 0));
      }
      DetachedStep(b.zone, c, b.R, b.zone.ids, i, s0, before, State(b.result, b.occupied), run);
      run := run + [State(b.result, b.occupied)];
      ExtendsSame(r);
      ExtendsTrans(r0, r, b.result);
    }
    assert b.zone.ids[..|b.zone.ids|] == b.zone.ids;
  }

  lemma DetachedStart(zone: Zone, c: Clusters, R: nat, s: State)
    ensures DetachedRun(zone, c, R, [], s, s, [s])
  {
  }

  lemma DetachedStep(zone: Zone, c: Clusters, R: nat, ids: seq<RoomId>, i: nat, s: State, s1: State, s2: State, run: seq<State>)
    requires i < |ids| && DetachedRun(zone, c, R, ids[..i], s, s1, run)
    requires if ids[i] in s1.r.at then s2 == s1 else Detached(zone, c, R, ids[i], s1, s2)
    ensures DetachedRun(zone, c, R, ids[..i + 1], s, s2, run + [s2])
  {
    hide Detached;
  }

  lemma DetachedBy(zone: Zone, c: Clusters, R: nat, id: RoomId, s: State, s': State, maxX: int, at: Cell)
    requires IsRightEdge(s.r, maxX) && 0 in s'.occ && at == Cell(maxX + DISCONNECTED_SUBGRAPH_GAP, 0)
    requires exists from, run, end ::
      && SearchRun(zone, c, R, 0, id, at, from, end, run)
      && from.r == s.r && from.cells == CellsOn(s.occ, 0) && end.r == s'.r && end.cells == s'.occ[0]
    ensures Detached(zone, c, R, id, s, s')
  {
    hide SearchRun, IsRightEdge;
    var from, run, end :| SearchRun(zone, c, R, 0, id, at, from, end, run)
      && from.r == s.r && from.cells == CellsOn(s.occ, 0) && end.r == s'.r && end.cells == s'.occ[0];
    assert DetachedVia(zone, c, R, id, s, s', maxX, from, end, run);
  }

  /** Phases 1 to 3: every room of the zone gets a position, the occupied sets are exact, no two
      rooms share a cell when the radius is large enough, and a zone with an embedding and a path
      to every room gets exactly that embedding. */
  method PlaceRooms(zone: Zone, R: nat, entry: RoomId, ghost v: map<RoomId, Pos>) returns (b: Board)
    requires zone.Valid()
    ensures fresh(b) && b.zone == zone && b.R == R && b.Ready()
    ensures Exact(b.result, b.occupied)
    ensures Small(zone, R) ==> Agrees(b.result, b.occupied)
    ensures Embeds(zone, v) && AllReachable(zone, entry) && v[entry] == Pos(0, 0, 0) ==> b.result.at == v
  {
    hide Placing, Settled, AllSettled, AllDeferred, FollowsAll, InjectiveOffsets, HasGridProperty, Steps, Small, Exact, NoOverlap, Extends;
    var c;
    ghost var found;
    c, found := DetectGridClusters(zone, v);
    b := new Board(zone, R);
    var placed: set<nat>, pending: seq<Transition> := {}, [];
    StartIdle(zone, c, R);
    EmbedsParts(zone, v);
    if entry in zone.exits {
      assert entry in zone.ids;
      placed, pending := Bfs(b, c, placed, pending, entry, Cell(0, 0), 0, v);
    }
    ghost var r1 := b.result;
    placed := PlaceDeferred(b, c, placed, pending, v);
    ghost var r := b.result;
    PlacingParts(zone, c, R, b.result, b.floors, b.occupied, placed);
    if Embeds(zone, v) && AllReachable(zone, entry) && v[entry] == Pos(0, 0, 0) {
      EntryStays(r1, r, entry);
      ClosureReached(zone, entry, b.result);
      TrackedIsEmbedding(zone, v, b.result);
    }
    PlaceDisconnected(b, c, placed, []);
    ghost var placed', pending' :| Idle(b, c, placed', pending');
    PlacingParts(zone, c, R, b.result, b.floors, b.occupied, placed');
    ExactFloors(b.result, b.occupied);
  }

  lemma EmbedsParts(zone: Zone, v: map<RoomId, Pos>)
    ensures Embeds(zone, v) ==> Steps(zone, v) && forall id :: id in zone.ids ==> id in v
    ensures Embeds(zone, v) ==> Tracks(zone, v, EmptyLayout)
  {
  }

  lemma EntryStays(r: Layout, r': Layout, entry: RoomId)
    requires Extends(r, r')
    ensures entry in r.at ==> entry in r'.at
  {
  }

  lemma ExactFloors(r: Layout, occ: Occupancy)
    requires Exact(r, occ)
    ensures forall id :: id in r.at ==> r.at[id].z in occ
    ensures NoOverlap(r) ==> Agrees(r, occ)
  {
  }

  lemma ClosureReached(zone: Zone, entry: RoomId, r: Layout)
    requires AllReachable(zone, entry) && entry in r.at && AllSettled(zone, r, [], [])
    ensures forall id :: id in zone.ids ==> id in r.at
  {
    assert ClosedUnderExits(zone, r.at.Keys) by {
      forall id, e | id in r.at && e in zone.ExitsOf(id) && Known(e.dir) && e.target in zone.exits ensures e.target in r.at {
        assert Settled(zone, r, [], e);
      }
    }
  }

  lemma TrackedIsEmbedding(zone: Zone, v: map<RoomId, Pos>, r: Layout)
    requires Tracks(zone, v, r) && forall id :: id in zone.ids ==> id in r.at
    ensures r.at == v
  {
  }
}
