/** Phase 7: rigid shifts of groups of rooms that must move together. */
module Expansion {
  import opened Sums
  import opened Zones
  import opened Boards
  import opened Scores
  import Relax
  import Segments

  const MAX_EXPANSION_GROUP_SIZE := 90
  const EXPANSION_PASSES := 40

  /** The exit would be off its axis or on the wrong side. */
  predicate Broken(d: Dir, p: Pos, q: Pos) {
    Known(d) && (Diagonal(p, q) || Mismatch(Off(d), p, q))
  }

  function PositionIndex(r: Layout, z: int, ids: seq<RoomId>): map<Cell, RoomId> {
    if ids == [] then map[]
    else
      var last := ids[|ids| - 1];
      var rest := PositionIndex(r, z, ids[..|ids| - 1]);
      if r.On(last, z) then rest[r.at[last].AtCell() := last] else rest
  }

  lemma {:induction false} PositionIndexFinds(r: Layout, z: int, ids: seq<RoomId>)
    ensures forall c :: c in PositionIndex(r, z, ids) ==>
      PositionIndex(r, z, ids)[c] in ids && r.On(PositionIndex(r, z, ids)[c], z) && r.at[PositionIndex(r, z, ids)[c]].AtCell() == c
    ensures forall id :: id in ids && r.On(id, z) ==> r.at[id].AtCell() in PositionIndex(r, z, ids)
  {
    if ids != [] {
      var front := ids[..|ids| - 1];
      PositionIndexFinds(r, z, front);
      assert forall id :: id in ids <==> id in front || id == ids[|ids| - 1];
    }
  }

  // ---- The group that must shift together ----

  /** A room of the group pulls in every neighbour its shift would break, and the room in its way. */
  ghost predicate ClosedAt(zone: Zone, r: Layout, z: int, posRoom: map<Cell, RoomId>, group: seq<RoomId>, onX: bool, d: int, id: RoomId) {
    id in r.at &&
    var cell := MovedCell(r.at[id], onX, d);
    && (forall e :: e in zone.Out(id) && r.On(e.to, z) && e.to !in group ==> !Broken(e.dir, At(cell, z), r.at[e.to]))
    && (forall e :: e in zone.In(id) && r.On(e.from, z) && e.from !in group ==> !Broken(e.dir, r.at[e.from], At(cell, z)))
    && (cell in posRoom ==> posRoom[cell] in group)
  }

  ghost predicate Closed(zone: Zone, r: Layout, z: int, posRoom: map<Cell, RoomId>, group: seq<RoomId>, onX: bool, d: int) {
    && NoDup(group) && (forall id :: id in group ==> r.On(id, z))
    && forall id :: id in group ==> ClosedAt(zone, r, z, posRoom, group, onX, d, id)
  }

  lemma ClosedAtGrows(zone: Zone, r: Layout, z: int, posRoom: map<Cell, RoomId>, group: seq<RoomId>, group': seq<RoomId>, onX: bool, d: int, id: RoomId)
    requires id in r.at && ClosedAt(zone, r, z, posRoom, group, onX, d, id) && forall x :: x in group ==> x in group'
    ensures ClosedAt(zone, r, z, posRoom, group', onX, d, id)
  {
  }

  /** What a room of the group pulls in. */
  ghost predicate Pulls(zone: Zone, r: Layout, z: int, posRoom: map<Cell, RoomId>, onX: bool, d: int, id: RoomId, x: RoomId) {
    && id in r.at && r.On(x, z)
    && var cell := MovedCell(r.at[id], onX, d);
       || (exists e :: e in zone.Out(id) && e.to == x && Broken(e.dir, At(cell, z), r.at[x]))
       || (exists e :: e in zone.In(id) && e.from == x && Broken(e.dir, r.at[x], At(cell, z)))
       || (cell in posRoom && posRoom[cell] == x)
  }

  ghost function PullForces(zone: Zone, r: Layout, z: int, posRoom: map<Cell, RoomId>, onX: bool, d: int): (RoomId, RoomId) -> bool {
    (id: RoomId, x: RoomId) => Pulls(zone, r, z, posRoom, onX, d, id, x)
  }

  lemma ClosedBoth(zone: Zone, r: Layout, z: int, posRoom: map<Cell, RoomId>, seed: RoomId, group: seq<RoomId>, onX: bool, d: int)
    requires Closed(zone, r, z, posRoom, group, onX, d) && seed in group
    ensures Sums.Closed(PullForces(zone, r, z, posRoom, onX, d), seed, group)
  {
    hide Broken, Zone.Out, Zone.In, MovedCell;
    forall x, y | x in group && PullForces(zone, r, z, posRoom, onX, d)(x, y) ensures y in group {
      assert ClosedAt(zone, r, z, posRoom, group, onX, d, x);
    }
  }

  /** Pull in what one room of the group would break. */
  method PullIn(zone: Zone, r: Layout, z: int, posRoom: map<Cell, RoomId>, group: seq<RoomId>, onX: bool, d: int, id: RoomId)
    returns (group': seq<RoomId>)
    requires NoDup(group) && r.On(id, z) && forall x :: x in group ==> r.On(x, z)
    requires forall c :: c in posRoom ==> r.On(posRoom[c], z)
    ensures NoDup(group') && group <= group' && forall x :: x in group' ==> r.On(x, z)
    ensures ClosedAt(zone, r, z, posRoom, group', onX, d, id)
    ensures forall x :: x in group' ==> x in group || PullForces(zone, r, z, posRoom, onX, d)(id, x)
  {
    hide Broken, Zone.Out, Zone.In;
    group' := group;
    var cell := MovedCell(r.at[id], onX, d);
    var out, back := zone.Out(id), zone.In(id);
    for i := 0 to |out|
      invariant NoDup(group') && group <= group' && forall x :: x in group' ==> r.On(x, z)
      invariant forall j :: 0 <= j < i && r.On(out[j].to, z) && out[j].to !in group' ==> !Broken(out[j].dir, At(cell, z), r.at[out[j].to])
      invariant forall x :: x in group' ==> x in group || Pulls(zone, r, z, posRoom, onX, d, id, x)
    {
      var e := out[i];
      assert e in out;
      if e.to in group' { continue; }
      if !r.On(e.to, z) { continue; }
      if Broken(e.dir, At(cell, z), r.at[e.to]) { group' := group' + [e.to]; }
    }
    for i := 0 to |back|
      invariant NoDup(group') && group <= group' && forall x :: x in group' ==> r.On(x, z)
      invariant forall e :: e in out && r.On(e.to, z) && e.to !in group' ==> !Broken(e.dir, At(cell, z), r.at[e.to])
      invariant forall j :: 0 <= j < i && r.On(back[j].from, z) && back[j].from !in group' ==> !Broken(back[j].dir, r.at[back[j].from], At(cell, z))
      invariant forall x :: x in group' ==> x in group || Pulls(zone, r, z, posRoom, onX, d, id, x)
    {
      var e := back[i];
      assert e in back;
      if e.from in group' { continue; }
      if !r.On(e.from, z) { continue; }
      if Broken(e.dir, r.at[e.from], At(cell, z)) { group' := group' + [e.from]; }
    }
    if cell in posRoom && posRoom[cell] !in group' { group' := group' + [posRoom[cell]]; }
  }

  /** Breadth-first closure from the occluder, given up when the group gets too large: the least
      group with every room one of its rooms pulls in. */
  method BuildGroup(zone: Zone, r: Layout, z: int, posRoom: map<Cell, RoomId>, seed: RoomId, onX: bool, d: int)
    returns (group: seq<RoomId>, tooLarge: bool)
    requires r.Valid() && r.On(seed, z) && forall c :: c in posRoom ==> r.On(posRoom[c], z)
    ensures NoDup(group) && seed in group && forall x :: x in group ==> r.On(x, z)
    ensures Least(PullForces(zone, r, z, posRoom, onX, d), seed, group)
    ensures if tooLarge then |group| > MAX_EXPANSION_GROUP_SIZE
            else |group| <= MAX_EXPANSION_GROUP_SIZE && Closed(zone, r, z, posRoom, group, onX, d)
  {
    hide ClosedAt, PullForces, Least;
    group, tooLarge := [seed], false;
    ghost var forces := PullForces(zone, r, z, posRoom, onX, d);
    LeastStart(forces, seed);
    var head := 0;
    while head < |group|
      invariant 0 <= head <= |group| && NoDup(group) && seed in group && forall x :: x in group ==> r.On(x, z)
      invariant forall j :: 0 <= j < head ==> ClosedAt(zone, r, z, posRoom, group, onX, d, group[j])
      invariant |group| <= MAX_EXPANSION_GROUP_SIZE && Least(forces, seed, group)
      decreases |r.order| - head
    {
      DistinctWithin(group, r.order);
      var id := group[head];
      assert id in group;
      var group' := PullIn(zone, r, z, posRoom, group, onX, d, id);
      forall j | 0 <= j < head ensures ClosedAt(zone, r, z, posRoom, group', onX, d, group'[j]) {
        ClosedAtGrows(zone, r, z, posRoom, group, group', onX, d, group[j]);
      }
      assert group'[head] == id;
      LeastGrows(forces, seed, group, id, group');
      group := group';
      head := head + 1;
      if |group| > MAX_EXPANSION_GROUP_SIZE { return group, true; }
    }
  }

  // ---- What a closed group's shift does ----

  function GroupMoves(r: Layout, group: seq<RoomId>, onX: bool, d: int): map<RoomId, Cell> {
    map id | id in group && id in r.at :: MovedCell(r.at[id], onX, d)
  }

  /** Every exit across the boundary, in either direction, is straight and well directed after
      the shift. */
  lemma BoundaryStaysSound(zone: Zone, r: Layout, z: int, posRoom: map<Cell, RoomId>, group: seq<RoomId>, onX: bool, d: int, e: Edge)
    requires r.Valid() && Closed(zone, r, z, posRoom, group, onX, d)
    requires e.from in zone.ids && e in zone.Out(e.from) && BothOn(r, z, e) && (e.from in group <==> e.to !in group)
    ensures var r' := Applied(r, z, GroupMoves(r, group, onX, d)); !Broken(e.dir, r'.at[e.from], r'.at[e.to])
  {
    if e.from in group {
      assert ClosedAt(zone, r, z, posRoom, group, onX, d, e.from);
    } else {
      assert ClosedAt(zone, r, z, posRoom, group, onX, d, e.to);
      zone.InFromMembers(zone.ids, e.to);
      assert e in zone.In(e.to);
    }
  }

  /** A rigid shift keeps the exits inside the group and those outside it as they are. */
  lemma SameSideUnchanged(r: Layout, z: int, group: seq<RoomId>, onX: bool, d: int, e: Edge)
    requires r.Valid() && BothOn(r, z, e) && (e.from in group <==> e.to in group)
    ensures var r' := Applied(r, z, GroupMoves(r, group, onX, d));
            && Diagonal(r'.at[e.from], r'.at[e.to]) == Diagonal(r.at[e.from], r.at[e.to])
            && Mismatch(Off(e.dir), r'.at[e.from], r'.at[e.to]) == Mismatch(Off(e.dir), r.at[e.from], r.at[e.to])
  {
  }

  /** So the shift never raises the floor's diagonals or direction mismatches. */
  lemma GroupShiftSound(zone: Zone, r: Layout, z: int, posRoom: map<Cell, RoomId>, group: seq<RoomId>, onX: bool, d: int)
    requires r.Valid() && (forall id :: id in r.order ==> id in zone.ids) && Closed(zone, r, z, posRoom, group, onX, d)
    ensures var r' := Applied(r, z, GroupMoves(r, group, onX, d));
            Diagonals(zone, r', z) <= Diagonals(zone, r, z) && Mismatches(zone, r', z) <= Mismatches(zone, r, z)
  {
    hide Closed, DiagonalFn, MismatchFn, GroupMoves;
    var r' := Applied(r, z, GroupMoves(r, group, onX, d));
    forall id, e | id in r.order && e in zone.Out(id)
      ensures DiagonalFn(r', z)(e) <= DiagonalFn(r, z)(e) && MismatchFn(r', z)(e) <= MismatchFn(r, z)(e)
    {
      OutMembers(id, zone.ExitsOf(id));
      ShiftedExit(zone, r, z, posRoom, group, onX, d, e);
    }
    TotalLe(zone, r.order, DiagonalFn(r', z), DiagonalFn(r, z));
    TotalLe(zone, r.order, MismatchFn(r', z), MismatchFn(r, z));
  }

  lemma ShiftedExit(zone: Zone, r: Layout, z: int, posRoom: map<Cell, RoomId>, group: seq<RoomId>, onX: bool, d: int, e: Edge)
    requires r.Valid() && Closed(zone, r, z, posRoom, group, onX, d) && e.from in zone.ids && e in zone.Out(e.from)
    ensures var r' := Applied(r, z, GroupMoves(r, group, onX, d));
            DiagonalFn(r', z)(e) <= DiagonalFn(r, z)(e) && MismatchFn(r', z)(e) <= MismatchFn(r, z)(e)
  {
    var r' := Applied(r, z, GroupMoves(r, group, onX, d));
    assert forall id :: r'.On(id, z) <==> r.On(id, z);
    hide Closed;
    if BothOn(r, z, e) {
      if e.from in group <==> e.to in group {
        SameSideUnchanged(r, z, group, onX, d, e);
      } else {
        BoundaryStaysSound(zone, r, z, posRoom, group, onX, d, e);
      }
    }
  }

  /** When the two structures agree the shifted group collides with no other room. */
  lemma MakeFits(r: Layout, cells: set<Cell>, to: map<RoomId, Cell>)
    requires (forall a, b :: a in to && b in to && a != b ==> to[a] != to[b]) && forall id :: id in to && to[id] in cells ==> to[id] in Cells(Home(r, to))
    ensures Fits(r, cells, to)
  {
  }

  lemma NobodyInTheWay(zone: Zone, r: Layout, occ: Occupancy, z: int, group: seq<RoomId>, onX: bool, d: int)
    requires r.Valid() && Agrees(r, occ) && z in occ && Closed(zone, r, z, PositionIndex(r, z, r.order), group, onX, d)
    ensures var to := GroupMoves(r, group, onX, d); forall id :: id in to && to[id] in occ[z] ==> to[id] in Cells(Home(r, to))
  {
    hide Closed, NoOverlap, MovedCell;
    var to := GroupMoves(r, group, onX, d);
    forall id | id in to && to[id] in occ[z] ensures to[id] in Cells(Home(r, to)) {
      GroupFloor(zone, r, z, group, onX, d, id);
      InTheWay(zone, r, occ, z, group, onX, d, id);
    }
  }

  lemma RigidApart(zone: Zone, r: Layout, occ: Occupancy, z: int, group: seq<RoomId>, onX: bool, d: int)
    requires r.Valid() && Agrees(r, occ) && Closed(zone, r, z, PositionIndex(r, z, r.order), group, onX, d)
    ensures var to := GroupMoves(r, group, onX, d); forall a, b :: a in to && b in to && a != b ==> to[a] != to[b]
  {
    hide Closed, Exact;
    var to := GroupMoves(r, group, onX, d);
    forall a, b | a in to && b in to && a != b ensures to[a] != to[b] {
      GroupFloor(zone, r, z, group, onX, d, a);
      GroupFloor(zone, r, z, group, onX, d, b);
      assert r.at[a] != r.at[b];
    }
  }

  lemma ClosedFits(zone: Zone, r: Layout, occ: Occupancy, z: int, group: seq<RoomId>, onX: bool, d: int)
    requires r.Valid() && Agrees(r, occ) && z in occ
    requires Closed(zone, r, z, PositionIndex(r, z, r.order), group, onX, d)
    ensures Fits(r, occ[z], GroupMoves(r, group, onX, d))
  {
    hide Closed, Fits;
    NobodyInTheWay(zone, r, occ, z, group, onX, d);
    RigidApart(zone, r, occ, z, group, onX, d);
    MakeFits(r, occ[z], GroupMoves(r, group, onX, d));
  }

  lemma GroupFloor(zone: Zone, r: Layout, z: int, group: seq<RoomId>, onX: bool, d: int, id: RoomId)
    requires Closed(zone, r, z, PositionIndex(r, z, r.order), group, onX, d) && id in group
    ensures r.On(id, z)
  {
  }

  /** A room in the way of the group is in the group. */
  lemma InTheWay(zone: Zone, r: Layout, occ: Occupancy, z: int, group: seq<RoomId>, onX: bool, d: int, id: RoomId)
    requires r.Valid() && Exact(r, occ) && z in occ && id in group && r.On(id, z)
    requires Closed(zone, r, z, PositionIndex(r, z, r.order), group, onX, d)
    requires MovedCell(r.at[id], onX, d) in occ[z]
    ensures MovedCell(r.at[id], onX, d) in Cells(Home(r, GroupMoves(r, group, onX, d)))
  {
    var to, posRoom := GroupMoves(r, group, onX, d), PositionIndex(r, z, r.order);
    var cell := MovedCell(r.at[id], onX, d);
    PositionIndexFinds(r, z, r.order);
    assert ClosedAt(zone, r, z, posRoom, group, onX, d, id);
    assert Taken(r, z, cell);
    var other :| other in r.at && r.at[other] == At(cell, z);
    assert other in r.order && r.On(other, z);
    assert cell in posRoom;
    InHome(r, to, posRoom[cell]);
  }

  // ---- Finding the occluders ----

  /** A room on a straight exit of two others, and whether that exit is vertical. */
  datatype Occluder = Occluder(id: RoomId, vertical: bool, segment: Edge)

  ghost predicate Occludes(zone: Zone, r: Layout, z: int, o: Occluder) {
    && r.On(o.id, z) && Segments.Straight(r, z, 2, o.segment) && o.segment in zone.Out(o.segment.from)
    && Blocks(o.segment, r.at[o.segment.from], r.at[o.segment.to], Placed(o.id, r.at[o.id].AtCell()))
    && o.vertical == (r.at[o.segment.from].x == r.at[o.segment.to].x)
  }

  ghost predicate BlockedBy(r: Layout, e: Edge, x: RoomId) {
    e.from in r.at && e.to in r.at && x in r.at && Blocks(e, r.at[e.from], r.at[e.to], Placed(x, r.at[x].AtCell()))
  }

  /** The occluders of one exit that are not listed yet for its axis. */
  method OccludersOf(zone: Zone, r: Layout, z: int, zRooms: seq<RoomId>, e: Edge, found: seq<Occluder>) returns (found': seq<Occluder>)
    requires e in zone.Out(e.from) && forall id :: id in zRooms ==> r.On(id, z)
    requires forall o :: o in found ==> Occludes(zone, r, z, o)
    ensures found <= found' && forall o :: o in found' ==> Occludes(zone, r, z, o)
    ensures Segments.Straight(r, z, 2, e) ==>
      forall id :: id in zRooms && BlockedBy(r, e, id) ==> Listed(found', id, r.at[e.from].x == r.at[e.to].x)
  {
    found' := found;
    if !Segments.Straight(r, z, 2, e) { return; }
    hide Blocks, Segments.Straight;
    var p, q := r.at[e.from], r.at[e.to];
    for i := 0 to |zRooms|
      invariant found <= found' && forall o :: o in found' ==> Occludes(zone, r, z, o)
      invariant forall j :: 0 <= j < i && BlockedBy(r, e, zRooms[j]) ==> Listed(found', zRooms[j], p.x == q.x)
    {
      var id := zRooms[i];
      assert id in zRooms;
      if Blocks(e, p, q, Placed(id, r.at[id].AtCell())) {
        if !(exists o :: o in found' && o.id == id && o.vertical == (p.x == q.x)) {
          var o := Occluder(id, p.x == q.x, e);
          assert o in found' + [o];
          found' := found' + [o];
        }
      }
    }
  }

  /** The occluders of one room's exits. */
  method OccludersFrom(zone: Zone, r: Layout, z: int, zRooms: seq<RoomId>, id: RoomId, start: seq<Occluder>) returns (found: seq<Occluder>)
    requires r.Valid() && zRooms == FloorRooms(r, z) && id in zRooms && forall o :: o in start ==> Occludes(zone, r, z, o)
    ensures forall o :: o in found ==> Occludes(zone, r, z, o)
    ensures forall e :: e in zone.Out(id) || ListedOn(r, z, zRooms, start, e) ==> ListedOn(r, z, zRooms, found, e)
  {
    hide Occludes, Segments.Straight, BlockedBy, ListedOn, Listed, Zone.Out;
    found := start;
    var out := zone.Out(id);
    for j := 0 to |out|
      invariant forall o :: o in found ==> Occludes(zone, r, z, o)
      invariant forall e :: e in out[..j] || ListedOn(r, z, zRooms, start, e) ==> ListedOn(r, z, zRooms, found, e)
    {
      assert out[j] in out;
      OutFrom(zone, id, out[j]);
      TakeStep(out, j);
      ghost var before := found;
      found := OccludersOf(zone, r, z, zRooms, out[j], found);
      ListedIs(r, z, zRooms, found, out[j]);
      forall e | ListedOn(r, z, zRooms, before, e) ensures ListedOn(r, z, zRooms, found, e) { ListedGrows(r, z, zRooms, before, found, e); }
    }
    TakeAll(out);
  }

  /** Every occluder with every axis it occludes; the list is empty exactly when the floor has
      no occlusions. */
  method FindOccluders(zone: Zone, r: Layout, z: int) returns (found: seq<Occluder>)
    requires r.Valid()
    ensures forall o :: o in found ==> Occludes(zone, r, z, o)
    ensures found == [] <==> Segments.CountOcclusions(zone, r, z) == 0
    ensures forall o :: Occludes(zone, r, z, o) ==> Listed(found, o.id, o.vertical)
  {
    hide Occludes, Segments.Straight, Segments.CountOcclusions, BlockedBy, ListedOn, Listed, Zone.Out;
    found := [];
    var zRooms := FloorRooms(r, z);
    for i := 0 to |zRooms|
      invariant forall o :: o in found ==> Occludes(zone, r, z, o)
      invariant forall id, e :: id in zRooms[..i] && e in zone.Out(id) ==> ListedOn(r, z, zRooms, found, e)
    {
      TakeStep(zRooms, i);
      assert zRooms[i] in zRooms;
      found := OccludersFrom(zone, r, z, zRooms, zRooms[i], found);
    }
    TakeAll(zRooms);
    NoneOccluded(zone, r, z, zRooms, found);
    forall o | Occludes(zone, r, z, o) ensures Listed(found, o.id, o.vertical) { OccluderListed(zone, r, z, zRooms, found, o); }
  }

  /** An occluder is listed once for each axis. */
  ghost predicate Listed(found: seq<Occluder>, id: RoomId, vertical: bool) {
    exists o :: o in found && o.id == id && o.vertical == vertical
  }

  /** All the rooms on one exit are listed for its axis. */
  ghost predicate ListedOn(r: Layout, z: int, zRooms: seq<RoomId>, found: seq<Occluder>, e: Edge) {
    Segments.Straight(r, z, 2, e) ==> forall id :: id in zRooms && BlockedBy(r, e, id) ==> Listed(found, id, r.at[e.from].x == r.at[e.to].x)
  }

  lemma ListedIs(r: Layout, z: int, zRooms: seq<RoomId>, found: seq<Occluder>, e: Edge)
    requires Segments.Straight(r, z, 2, e) ==> forall id :: id in zRooms && BlockedBy(r, e, id) ==> Listed(found, id, r.at[e.from].x == r.at[e.to].x)
    ensures ListedOn(r, z, zRooms, found, e)
  {
  }

  lemma ListedGrows(r: Layout, z: int, zRooms: seq<RoomId>, found: seq<Occluder>, found': seq<Occluder>, e: Edge)
    requires ListedOn(r, z, zRooms, found, e) && found <= found'
    ensures ListedOn(r, z, zRooms, found', e)
  {
    assert forall o :: o in found ==> o in found';
  }

  lemma OccluderListed(zone: Zone, r: Layout, z: int, zRooms: seq<RoomId>, found: seq<Occluder>, o: Occluder)
    requires r.Valid() && zRooms == FloorRooms(r, z) && Occludes(zone, r, z, o)
    requires forall id, e :: id in zRooms && e in zone.Out(id) ==> ListedOn(r, z, zRooms, found, e)
    ensures Listed(found, o.id, o.vertical)
  {
    hide Listed, Zone.Out;
    assert o.segment.from in zRooms && o.id in zRooms;
    assert ListedOn(r, z, zRooms, found, o.segment);
    assert BlockedBy(r, o.segment, o.id);
  }

  lemma NoneOccluded(zone: Zone, r: Layout, z: int, zRooms: seq<RoomId>, found: seq<Occluder>)
    requires r.Valid() && zRooms == FloorRooms(r, z) && forall o :: o in found ==> Occludes(zone, r, z, o)
    requires forall id, e :: id in zRooms && e in zone.Out(id) ==> ListedOn(r, z, zRooms, found, e)
    ensures found == [] <==> Segments.CountOcclusions(zone, r, z) == 0
  {
    var f := Segments.OcclusionFn(r, z);
    forall e ensures f(e) >= 0 {
      if Segments.Straight(r, z, 2, e) { BlockersNonneg(Snapshot(r, z), e, r.at[e.from], r.at[e.to]); }
    }
    TotalZero(zone, r.order, f);
    SnapshotMembers(r, z, r.order);
    if found != [] {
      var o := found[0];
      assert Occludes(zone, r, z, o);
      var e := o.segment;
      assert Placed(o.id, r.at[o.id].AtCell()) in Snapshot(r, z);
      BlockersNonneg(Snapshot(r, z), e, r.at[e.from], r.at[e.to]);
      assert f(e) != 0;
    } else {
      forall id, e | id in r.order && e in zone.Out(id) ensures f(e) == 0 {
        OutMembers(id, zone.ExitsOf(id));
        if Segments.Straight(r, z, 2, e) {
          assert ListedOn(r, z, zRooms, found, e);
          forall o | o in Snapshot(r, z) ensures !Blocks(e, r.at[e.from], r.at[e.to], o) {
            assert !BlockedBy(r, e, o.id);
          }
          BlockersNonneg(Snapshot(r, z), e, r.at[e.from], r.at[e.to]);
        }
      }
    }
  }

  // ---- The phase ----

  /** The moved rooms collide neither with each other nor with a room that stays. */
  lemma TwoOnOne(r: Layout, cells: set<Cell>, to: map<RoomId, Cell>, a: RoomId, b: RoomId)
    requires a in to && b in to && a != b && to[a] == to[b]
    ensures !Fits(r, cells, to)
  {
  }

  lemma OnOccupied(r: Layout, cells: set<Cell>, to: map<RoomId, Cell>, a: RoomId)
    requires a in to && to[a] in cells && to[a] !in Cells(Home(r, to))
    ensures !Fits(r, cells, to)
  {
  }

  lemma NoCollision(r: Layout, cells: set<Cell>, group: seq<RoomId>, to: map<RoomId, Cell>)
    requires (forall id :: id in group <==> id in to) && forall j, k :: 0 <= j < k < |group| ==> to[group[j]] != to[group[k]]
    requires forall j :: 0 <= j < |group| ==> to[group[j]] !in cells || to[group[j]] in Cells(Home(r, to))
    ensures Fits(r, cells, to)
  {
    hide Cells, Home;
    forall a, b | a in to && b in to && a != b ensures to[a] != to[b] {
      var j :| 0 <= j < |group| && group[j] == a;
      var k :| 0 <= k < |group| && group[k] == b;
    }
    forall a | a in to ensures to[a] !in cells || to[a] in Cells(Home(r, to)) { var j :| 0 <= j < |group| && group[j] == a; }
  }

  method CheckCollisions(r: Layout, cells: set<Cell>, group: seq<RoomId>, to: map<RoomId, Cell>) returns (valid: bool)
    requires NoDup(group) && forall id :: id in group <==> id in to
    ensures valid <==> Fits(r, cells, to)
  {
    hide Fits;
    var oldKeys := Cells(Home(r, to));
    var newKeys: set<Cell> := {};
    hide Cells, Home;
    for i := 0 to |group|
      invariant forall c :: c in newKeys <==> exists j :: 0 <= j < i && to[group[j]] == c
      invariant forall j, k :: 0 <= j < k < i ==> to[group[j]] != to[group[k]]
      invariant forall j :: 0 <= j < i ==> to[group[j]] !in cells || to[group[j]] in oldKeys
    {
      assert group[i] in group;
      var nk := to[group[i]];
      if nk in newKeys {
        var j :| 0 <= j < i && to[group[j]] == nk;
        assert group[j] in group && group[j] != group[i];
        TwoOnOne(r, cells, to, group[j], group[i]);
        return false;
      }
      newKeys := newKeys + {nk};
      if nk in cells && nk !in oldKeys {
        OnOccupied(r, cells, to, group[i]);
        return false;
      }
    }
    NoCollision(r, cells, group, to);
    valid := true;
  }

  /** No exit across the boundary ends up on the wrong side. */
  predicate BoundaryOk(zone: Zone, r: Layout, z: int, group: seq<RoomId>, to: map<RoomId, Cell>)
    requires forall id :: id in group ==> id in to
  {
    forall id :: id in group ==>
      && (forall e :: e in zone.Out(id) && e.to !in group && r.On(e.to, z) && Known(e.dir) ==> !Mismatch(Off(e.dir), At(to[id], z), r.at[e.to]))
      && (forall e :: e in zone.In(id) && e.from !in group && r.On(e.from, z) && Known(e.dir) ==> !Mismatch(Off(e.dir), r.at[e.from], At(to[id], z)))
  }

  /** Both validations are redundant: a closed group always passes them. */
  lemma ValidationNeverRejects(zone: Zone, r: Layout, occ: Occupancy, z: int, group: seq<RoomId>, onX: bool, d: int)
    requires r.Valid() && Agrees(r, occ) && z in occ
    requires Closed(zone, r, z, PositionIndex(r, z, r.order), group, onX, d)
    ensures var to := GroupMoves(r, group, onX, d); Fits(r, occ[z], to) && BoundaryOk(zone, r, z, group, to)
  {
    ClosedFits(zone, r, occ, z, group, onX, d);
    var to, posRoom := GroupMoves(r, group, onX, d), PositionIndex(r, z, r.order);
    hide PositionIndex, Agrees, Fits, Mismatch, Diagonal;
    forall id | id in group
      ensures forall e :: e in zone.Out(id) && e.to !in group && r.On(e.to, z) && Known(e.dir) ==> !Mismatch(Off(e.dir), At(to[id], z), r.at[e.to])
      ensures forall e :: e in zone.In(id) && e.from !in group && r.On(e.from, z) && Known(e.dir) ==> !Mismatch(Off(e.dir), r.at[e.from], At(to[id], z))
    {
      assert ClosedAt(zone, r, z, posRoom, group, onX, d, id);
    }
  }

  const SHIFTS := [1, -1, 2, -2]

  /** The group the occluder pulls along, small enough, and not with both ends of the exit. */
  ghost predicate Expandable(zone: Zone, r: Layout, z: int, o: Occluder, d: int, group: seq<RoomId>) {
    var forces := PullForces(zone, r, z, PositionIndex(r, z, r.order), o.vertical, d);
    && NoDup(group) && |group| <= MAX_EXPANSION_GROUP_SIZE && Sums.Closed(forces, o.id, group) && Least(forces, o.id, group)
    && !(o.segment.from in group && o.segment.to in group)
  }

  ghost predicate Expands(zone: Zone, r: Layout, z: int, o: Occluder, d: int, x: Layout) {
    exists group :: Expandable(zone, r, z, o, d, group) && x == Applied(r, z, GroupMoves(r, group, o.vertical, d))
  }

  ghost function Expansions(zone: Zone, r: Layout, z: int, o: Occluder, d: int): iset<Layout> {
    iset x: Layout | Expands(zone, r, z, o, d, x)
  }

  /** There is one group at most, the one found. */
  lemma GroupFound(zone: Zone, r: Layout, z: int, o: Occluder, d: int, group: seq<RoomId>)
    requires var forces := PullForces(zone, r, z, PositionIndex(r, z, r.order), o.vertical, d);
             && NoDup(group) && Least(forces, o.id, group)
             && (|group| <= MAX_EXPANSION_GROUP_SIZE ==> Sums.Closed(forces, o.id, group))
    ensures Expandable(zone, r, z, o, d, group) <==> |group| <= MAX_EXPANSION_GROUP_SIZE && !(o.segment.from in group && o.segment.to in group)
    ensures Expansions(zone, r, z, o, d) ==
            if Expandable(zone, r, z, o, d, group) then iset{Applied(r, z, GroupMoves(r, group, o.vertical, d))} else iset{}
  {
    var forces := PullForces(zone, r, z, PositionIndex(r, z, r.order), o.vertical, d);
    hide PullForces, Sums.Closed, Least, Applied, PositionIndex;
    forall other | Expandable(zone, r, z, o, d, other)
      ensures Expandable(zone, r, z, o, d, group) && GroupMoves(r, other, o.vertical, d) == GroupMoves(r, group, o.vertical, d)
    {
      OneClosure(forces, o.id, group, other);
    }
  }

  /** Try to shift one occluder's group by d; kept exactly when the score falls below the bound. */
  method TryShift(b: Board, z: int, o: Occluder, d: int, bound: int) returns (accepted: bool)
    requires b.Ready() && z in b.occupied && Occludes(b.zone, b.result, z, o)
    modifies b`result, b`occupied
    ensures b.Ready() && FloorStep(z, old(b.result), old(b.occupied), b.result, b.occupied)
    ensures Diagonals(b.zone, b.result, z) <= Diagonals(b.zone, old(b.result), z)
    ensures Mismatches(b.zone, b.result, z) <= Mismatches(b.zone, old(b.result), z)
    ensures Searched(b.zone, z, HEAVY, bound, Expansions(b.zone, old(b.result), z, o, d), old(b.result), old(b.occupied), b.result, b.occupied, accepted)
  {
    hide Agrees, Score, Fits, Closed, Sums.Closed, Least, BoundaryOk, Diagonals, Mismatches, FloorStep, PositionIndex, Expandable, Expansions, PullForces, Applied;
    accepted := false;
    ghost var r0, occ0 := b.result, b.occupied;
    FloorStepRefl(z, r0, occ0);
    var onX := o.vertical;
    PositionIndexFinds(b.result, z, b.result.order);
    var posRoom := PositionIndex(b.result, z, b.result.order);
    var group, tooLarge := BuildGroup(b.zone, b.result, z, posRoom, o.id, onX, d);
    if !tooLarge { ClosedBoth(b.zone, r0, z, posRoom, o.id, group, onX, d); }
    GroupFound(b.zone, r0, z, o, d, group);
    if tooLarge { return; }
    if o.segment.from in group && o.segment.to in group { return; }
    var to := GroupMoves(b.result, group, onX, d);
    if Agrees(r0, occ0) { ValidationNeverRejects(b.zone, r0, occ0, z, group, onX, d); }
    var fits := CheckCollisions(b.result, b.occupied[z], group, to);
    if !fits { return; }
    if !BoundaryOk(b.zone, b.result, z, group, to) { return; }
    GroupShiftSound(b.zone, b.result, z, posRoom, group, onX, d);
    accepted := b.TryRelocate(z, group, to, HEAVY, bound);
    SearchedOne(b.zone, z, HEAVY, bound, Applied(r0, z, to), r0, occ0, b.result, b.occupied, accepted);
  }

  ghost function ShiftReaches(zone: Zone, r: Layout, z: int, o: Occluder): (reaches: seq<iset<Layout>>)
    ensures |reaches| == |SHIFTS| && forall i :: 0 <= i < |SHIFTS| ==> reaches[i] == Expansions(zone, r, z, o, SHIFTS[i])
  {
    seq(|SHIFTS|, i requires 0 <= i < |SHIFTS| => Expansions(zone, r, z, o, SHIFTS[i]))
  }

  /** One occluder, by each of the shifts. */
  method ExpandAround(b: Board, z: int, o: Occluder, bound: int) returns (accepted: bool)
    requires b.Ready() && z in b.occupied && Occludes(b.zone, b.result, z, o)
    modifies b`result, b`occupied
    ensures b.Ready() && FloorStep(z, old(b.result), old(b.occupied), b.result, b.occupied)
    ensures Diagonals(b.zone, b.result, z) <= Diagonals(b.zone, old(b.result), z)
    ensures Mismatches(b.zone, b.result, z) <= Mismatches(b.zone, old(b.result), z)
    ensures Searched(b.zone, z, HEAVY, bound, Union(ShiftReaches(b.zone, old(b.result), z, o)), old(b.result), old(b.occupied), b.result, b.occupied, accepted)
  {
    hide Agrees, Score, Diagonals, Mismatches, FloorStep, Occludes, Searched, Union, Expansions;
    accepted := false;
    ghost var r0, occ0 := b.result, b.occupied;
    FloorStepRefl(z, r0, occ0);
    ghost var reaches := ShiftReaches(b.zone, r0, z, o);
    SearchedStart(b.zone, z, HEAVY, bound, reaches, r0, occ0);
    for i := 0 to |SHIFTS|
      invariant b.Ready() && z in b.occupied && b.result == r0 && FloorStep(z, r0, occ0, b.result, b.occupied)
      invariant Searched(b.zone, z, HEAVY, bound, Union(reaches[..i]), r0, occ0, r0, b.occupied, false)
    {
      ghost var occ := b.occupied;
      accepted := TryShift(b, z, o, SHIFTS[i], bound);
      FloorStepTrans(z, r0, occ0, r0, occ, b.result, b.occupied);
      SearchedStep(b.zone, z, HEAVY, bound, reaches, i, Expansions(b.zone, r0, z, o, SHIFTS[i]), r0, occ0, occ, b.result, b.occupied, accepted);
      if accepted { return; }
      NotFound(b.zone, z, HEAVY, bound, Union(reaches[..i + 1]), r0, occ0, b.result, b.occupied);
      Relax.FloorKeys(z, r0, occ0, b.result, b.occupied);
    }
    SearchedAll(b.zone, z, HEAVY, bound, reaches, r0, occ0, b.occupied);
  }

  /** No shift of the group around an occluder lowers the score. */
  ghost predicate Held(zone: Zone, r: Layout, z: int, o: Occluder, bound: int) {
    Occludes(zone, r, z, o) && forall x :: x in Union(ShiftReaches(zone, r, z, o)) ==> bound <= Score(zone, x, z, HEAVY)
  }

  /** That is: neither a shift by one nor one by two, either way. */
  lemma HeldMeans(zone: Zone, r: Layout, z: int, o: Occluder, bound: int)
    ensures Held(zone, r, z, o, bound) <==>
            Occludes(zone, r, z, o) && forall d, x :: d in {1, -1, 2, -2} && Expands(zone, r, z, o, d, x) ==> bound <= Score(zone, x, z, HEAVY)
  {
    hide Score, Expands, Occludes;
    var reaches := ShiftReaches(zone, r, z, o);
    forall x ensures x in Union(reaches) <==> exists d :: d in {1, -1, 2, -2} && Expands(zone, r, z, o, d, x) {
      assert SHIFTS[0] == 1 && SHIFTS[1] == -1 && SHIFTS[2] == 2 && SHIFTS[3] == -2;
      if d :| d in {1, -1, 2, -2} && Expands(zone, r, z, o, d, x) {
        var i := if d == 1 then 0 else if d == -1 then 1 else if d == 2 then 2 else 3;
        assert x in reaches[i];
      }
      if x in Union(reaches) {
        var i :| 0 <= i < |reaches| && x in reaches[i];
        assert Expands(zone, r, z, o, SHIFTS[i], x);
      }
    }
  }

  /** Every occluder is held, on each axis that it occludes, for one of the exits it is on. */
  ghost predicate AllHeld(zone: Zone, r: Layout, z: int, bound: int) {
    forall o :: Occludes(zone, r, z, o) ==> exists h :: Held(zone, r, z, h, bound) && h.id == o.id && h.vertical == o.vertical
  }

  /** One pass: the first occluder and shift that lower the score, if there are any. */
  method ExpandOnce(b: Board, z: int, bound: int) returns (improved: bool)
    requires b.Ready() && z in b.occupied
    modifies b`result, b`occupied
    ensures b.Ready() && FloorStep(z, old(b.result), old(b.occupied), b.result, b.occupied)
    ensures improved ==> Score(b.zone, b.result, z, HEAVY) < bound
    ensures improved && Agrees(old(b.result), old(b.occupied)) ==>
      exists o, i :: Occludes(b.zone, old(b.result), z, o) && 0 <= i < |SHIFTS| && b.result in Expansions(b.zone, old(b.result), z, o, SHIFTS[i])
    ensures Diagonals(b.zone, b.result, z) <= Diagonals(b.zone, old(b.result), z)
    ensures Mismatches(b.zone, b.result, z) <= Mismatches(b.zone, old(b.result), z)
    ensures !improved ==> b.result == old(b.result)
    ensures !improved && Agrees(old(b.result), old(b.occupied)) ==> b.occupied == old(b.occupied) && AllHeld(b.zone, b.result, z, bound)
  {
    hide Agrees, Score, Diagonals, Mismatches, FloorStep, Occludes, Segments.CountOcclusions, ShiftReaches, Expansions;
    improved := false;
    ghost var r0, occ0 := b.result, b.occupied;
    FloorStepRefl(z, r0, occ0);
    var occluders := FindOccluders(b.zone, b.result, z);
    for i := 0 to |occluders|
      invariant b.Ready() && z in b.occupied && b.result == r0 && FloorStep(z, r0, occ0, b.result, b.occupied)
      invariant Agrees(r0, occ0) ==> b.occupied == occ0 && forall o :: o in occluders[..i] ==> Held(b.zone, r0, z, o, bound)
    {
      assert occluders[i] in occluders;
      TakeStep(occluders, i);
      ghost var occ := b.occupied;
      improved := ExpandAround(b, z, occluders[i], bound);
      FloorStepTrans(z, r0, occ0, r0, occ, b.result, b.occupied);
      Relax.FloorKeys(z, r0, occ0, b.result, b.occupied);
      if improved {
        if Agrees(r0, occ0) { ReachedBy(b.zone, r0, z, occluders[i], b.result); }
        return;
      }
    }
    TakeAll(occluders);
  }

  lemma ReachedBy(zone: Zone, r: Layout, z: int, o: Occluder, x: Layout)
    requires x in Union(ShiftReaches(zone, r, z, o))
    ensures exists i :: 0 <= i < |SHIFTS| && x in Expansions(zone, r, z, o, SHIFTS[i])
  {
    hide Expansions;
    var reaches := ShiftReaches(zone, r, z, o);
    var i :| 0 <= i < |reaches| && x in reaches[i];
  }

  /** Phase 7 went through so many passes, each of which lowered the score, until every occluder
      was held, unless it reached the cap or a score of zero. */
  ghost predicate Expanded(zone: Zone, z: int, r: Layout, occ: Occupancy, passes: nat, r': Layout, occ': Occupancy) {
    && Improves(zone, z, HEAVY, r, occ, r', occ')
    && Score(zone, r', z, HEAVY) + passes <= Score(zone, r, z, HEAVY)
    && Diagonals(zone, r', z) <= Diagonals(zone, r, z) && Mismatches(zone, r', z) <= Mismatches(zone, r, z)
    && (Agrees(r, occ) ==> passes == EXPANSION_PASSES || Perfect(zone, r', z) || AllHeld(zone, r', z, Score(zone, r', z, HEAVY)))
  }

  /** Phase 7 on one floor: the heavy layout score, the diagonals and the direction mismatches
      never rise, and the score falls whenever anything moves. */
  method ExpandFloor(b: Board, z: int) returns (ghost passes: nat)
    requires b.Ready() && z in b.occupied
    modifies b`result, b`occupied
    ensures b.Ready() && Expanded(b.zone, z, old(b.result), old(b.occupied), passes, b.result, b.occupied)
    ensures Perfect(b.zone, old(b.result), z) ==> b.result == old(b.result) && b.occupied == old(b.occupied)
  {
    hide Agrees, Score, Diagonals, Mismatches, FloorStep, Improves, Perfect, AllHeld, Expansions;
    ghost var r0, occ0 := b.result, b.occupied;
    ImprovesRefl(b.zone, z, HEAVY, r0, occ0);
    ScoreZeroIffPerfect(b.zone, r0, z, HEAVY);
    passes := 0;
    var currentScore := Score(b.zone, b.result, z, HEAVY);
    if currentScore == 0 { return; }
    for pass := 0 to EXPANSION_PASSES
      invariant b.Ready() && z in b.occupied && Improves(b.zone, z, HEAVY, r0, occ0, b.result, b.occupied)
      invariant currentScore == Score(b.zone, b.result, z, HEAVY)
      invariant passes == pass && currentScore + passes <= Score(b.zone, r0, z, HEAVY)
      invariant Diagonals(b.zone, b.result, z) <= Diagonals(b.zone, r0, z)
      invariant Mismatches(b.zone, b.result, z) <= Mismatches(b.zone, r0, z)
    {
      ghost var r, occ := b.result, b.occupied;
      ImprovesStep(b.zone, z, HEAVY, r0, occ0, r, occ);
      Relax.StepAgrees(z, r0, occ0, r, occ);
      var improved := ExpandOnce(b, z, currentScore);
      StepImproves(b.zone, z, HEAVY, r, occ, b.result, b.occupied, improved);
      ImprovesTrans(b.zone, z, HEAVY, r0, occ0, r, occ, b.result, b.occupied);
      ImprovesParts(b.zone, z, HEAVY, r0, occ0, b.result, b.occupied);
      if !improved { break; }
      passes := passes + 1;
      currentScore := Score(b.zone, b.result, z, HEAVY);
    }
  }

  ghost predicate ExpandRun(zone: Zone, floors: seq<int>, s: State, s': State, run: seq<State>, passes: seq<nat>) {
    && Run(run, |floors|, s, s') && |passes| == |floors|
    && forall i :: 0 <= i < |floors| ==> Expanded(zone, floors[i], run[i].r, run[i].occ, passes[i], run[i + 1].r, run[i + 1].occ)
  }

  /** The phase took the floors in turn. */
  ghost predicate ExpandedAll(zone: Zone, floors: seq<int>, s: State, s': State) {
    exists run, passes :: ExpandRun(zone, floors, s, s', run, passes)
  }

  /** Phase 7: every floor in turn. */
  method ResolveOcclusionsByExpansion(b: Board)
    requires b.Ready()
    modifies b`result, b`occupied
    ensures b.Ready() && Kept(old(b.result), old(b.occupied), b.result, b.occupied)
    ensures Relax.AllPerfect(b.zone, old(b.result)) ==> b.result == old(b.result) && b.occupied == old(b.occupied)
    ensures forall z :: Score(b.zone, b.result, z, HEAVY) <= Score(b.zone, old(b.result), z, HEAVY)
    ensures forall z :: Diagonals(b.zone, b.result, z) <= Diagonals(b.zone, old(b.result), z)
    ensures forall z :: Mismatches(b.zone, b.result, z) <= Mismatches(b.zone, old(b.result), z)
    ensures ExpandedAll(b.zone, b.floors, State(old(b.result), old(b.occupied)), State(b.result, b.occupied))
  {
    hide Agrees, Score, Diagonals, Mismatches, FloorStep, Improves, Perfect, Kept, AllHeld;
    ghost var r0, occ0 := b.result, b.occupied;
    KeptRefl(r0, occ0);
    ghost var run, passes: seq<nat> := [State(r0, occ0)], [];
    for i := 0 to |b.floors|
      invariant b.Ready() && Kept(r0, occ0, b.result, b.occupied)
      invariant Relax.AllPerfect(b.zone, r0) ==> b.result == r0 && b.occupied == occ0
      invariant forall z :: Score(b.zone, b.result, z, HEAVY) <= Score(b.zone, r0, z, HEAVY)
      invariant forall z :: Diagonals(b.zone, b.result, z) <= Diagonals(b.zone, r0, z)
      invariant forall z :: Mismatches(b.zone, b.result, z) <= Mismatches(b.zone, r0, z)
      invariant Run(run, i, State(r0, occ0), State(b.result, b.occupied)) && |passes| == i
      invariant forall j :: 0 <= j < i ==> Expanded(b.zone, b.floors[j], run[j].r, run[j].occ, passes[j], run[j + 1].r, run[j + 1].occ)
    {
      var z := b.floors[i];
      assert z in b.floors;
      ghost var r, occ := b.result, b.occupied;
      ghost var here := ExpandFloor(b, z);
      ImprovesStep(b.zone, z, HEAVY, r, occ, b.result, b.occupied);
      KeptStep(z, r0, occ0, r, occ, b.result, b.occupied);
      forall y | y != z
        ensures Score(b.zone, b.result, y, HEAVY) == Score(b.zone, r, y, HEAVY)
        ensures Diagonals(b.zone, b.result, y) == Diagonals(b.zone, r, y) && Mismatches(b.zone, b.result, y) == Mismatches(b.zone, r, y)
      {
        OtherFloors(z, y, r, occ, b.result, b.occupied);
        ScoreFrame(b.zone, r, b.result, y, HEAVY);
      }
      run, passes := run + [State(b.result, b.occupied)], passes + [here];
    }
    assert ExpandRun(b.zone, b.floors, State(r0, occ0), State(b.result, b.occupied), run, passes);
  }
}
