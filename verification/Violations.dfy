/** Phase 5b: repairing exits whose target is not on their side of the source. */
module Violations {
  import opened Sums
  import opened Zones
  import opened Boards
  import opened Scores
  import opened Guards
  import opened Relax
  import opened Cascades
  import Diamond
  import Crossings
  import Insertions
  import Occlusions

  const DIRECTION_VIOLATION_PASSES := 100
  const VIOLATION_CANDIDATE_RADIUS := 10
  const VIOLATION_SWAP_RADIUS := 4
  const MAX_VIOLATION_GROUP_SIZE := 60

  // ---- Strategy 1: one endpoint into the right half-plane ----

  /** Where the exit wants the mover: one step from the anchor, towards or against the exit. */
  function Ideal(anchor: Pos, o: Offset, isTarget: bool): Cell {
    if isTarget then Cell(anchor.x + o.dx, anchor.y + o.dy) else Cell(anchor.x - o.dx, anchor.y - o.dy)
  }

  /** The cell is strictly on the exit's side of the anchor, or for the source on the other side. */
  predicate RightSide(anchor: Pos, o: Offset, isTarget: bool, c: Cell) {
    var s := if isTarget then 1 else -1;
    && !(s * o.dx > 0 && c.x <= anchor.x) && !(s * o.dx < 0 && c.x >= anchor.x)
    && !(s * o.dy > 0 && c.y <= anchor.y) && !(s * o.dy < 0 && c.y >= anchor.y)
  }

  /** Counting at the true positions before and after a move is exact, loops included. */
  lemma LocalExact(zone: Zone, r: Layout, z: int, id: RoomId, c: Cell)
    requires Whole(zone, r) && r.On(id, z)
    ensures var r' := Moved(r, id, c, z);
            LocalMismatches(zone, r', z, map[], id, c) - LocalMismatches(zone, r, z, map[], id, r.at[id].AtCell())
            == Mismatches(zone, r', z) - Mismatches(zone, r, z)
  {
    var r' := Moved(r, id, c, z);
    var f, f' := MismatchFn(r, z), MismatchFn(r', z);
    var d := Diff(f', f);
    Insertions.LocalIsRows(zone, r, z, id);
    Insertions.LocalIsRows(zone, r', z, id);
    SumDiff(zone.Out(id), f', f);
    SumDiff(zone.In(id), f', f);
    TotalDiff(zone, r.order, f', f);
    MovedVanishes(r, z, id, c);
    assert Sum(LoopsOf(zone, id), d) == 0 by {
      IntoMembers(zone.Out(id), id);
      OutMembers(id, zone.ExitsOf(id));
      SumZeros(LoopsOf(zone, id), d);
    }
    hide MismatchFn, Moved, Zone.Out, Zone.In, LoopsOf, Diff;
    TotalAround(zone, r.order, id, d);
  }

  lemma MovedVanishes(r: Layout, z: int, id: RoomId, c: Cell)
    requires r.On(id, z)
    ensures var d := Diff(MismatchFn(Moved(r, id, c, z), z), MismatchFn(r, z));
            Vanishes(d, id) && forall e: Edge :: e.from == id && e.to == id ==> d(e) == 0
  {
  }

  function Mover(e: Edge, isTarget: bool): RoomId {
    if isTarget then e.to else e.from
  }

  function Anchor(e: Edge, isTarget: bool): RoomId {
    if isTarget then e.from else e.to
  }

  /** A free cell on the right side near the ideal one, that breaks no alignment and lowers the
      floor's mismatches. */
  ghost predicate SideCell(zone: Zone, r: Layout, cells: set<Cell>, z: int, e: Edge, isTarget: bool, c: Cell) {
    && BothOn(r, z, e)
    && var mover, anchorPos, o := Mover(e, isTarget), r.at[Anchor(e, isTarget)], Off(e.dir);
    && Diamond.Dist(Ideal(anchorPos, o, isTarget), c) <= VIOLATION_CANDIDATE_RADIUS && RightSide(anchorPos, o, isTarget, c)
    && c != r.at[mover].AtCell() && c !in cells && !MoveWouldBreakAlignment(zone, r, z, mover, c)
    && Mismatches(zone, Moved(r, mover, c, z), z) < Mismatches(zone, r, z)
  }

  ghost predicate SideMove(zone: Zone, r: Layout, cells: set<Cell>, z: int, e: Edge, isTarget: bool, x: Layout) {
    exists c :: SideCell(zone, r, cells, z, e, isTarget, c) && x == Moved(r, Mover(e, isTarget), c, z)
  }

  ghost function SideMoves(zone: Zone, r: Layout, cells: set<Cell>, z: int, e: Edge, isTarget: bool): iset<Layout> {
    iset x: Layout | SideMove(zone, r, cells, z, e, isTarget, x)
  }

  /** Move one endpoint to the first cell of its half-plane that repairs more than it breaks and
      lowers the score, if there is one. */
  method MoveToSide(b: Board, z: int, e: Edge, isTarget: bool, bound: int) returns (fixed: bool)
    requires b.Ready() && z in b.occupied && BothOn(b.result, z, e)
    modifies b`result, b`occupied
    ensures b.Ready() && FloorStep(z, old(b.result), old(b.occupied), b.result, b.occupied)
    ensures fixed ==> Mismatches(b.zone, b.result, z) < Mismatches(b.zone, old(b.result), z)
    ensures Searched(b.zone, z, LIGHT, bound, SideMoves(b.zone, old(b.result), old(b.occupied)[z], z, e, isTarget),
                     old(b.result), old(b.occupied), b.result, b.occupied, fixed)
  {
    hide Agrees, Score, FloorStep, Mismatches, RightSide, MoveWouldBreakAlignment, Diamond.Rings, Diamond.Dist, Vacated, ReadyState, LocalMismatches, Moved;
    fixed := false;
    ghost var r0, occ0 := b.result, b.occupied;
    FloorStepRefl(z, r0, occ0);
    var mover, anchor := Mover(e, isTarget), Anchor(e, isTarget);
    var o, anchorPos, home := Off(e.dir), b.result.at[anchor], b.result.at[mover].AtCell();
    var cands := Diamond.Rings(Ideal(anchorPos, o, isTarget), 0, VIOLATION_CANDIDATE_RADIUS);
    Diamond.RingsMembers(Ideal(anchorPos, o, isTarget), 0, VIOLATION_CANDIDATE_RADIUS);
    for i := 0 to |cands|
      invariant b.Ready() && b.result == r0 && z in b.occupied && FloorStep(z, r0, occ0, r0, b.occupied)
      invariant Agrees(r0, occ0) ==> b.occupied == occ0 && forall c :: c in cands[..i] && SideCell(b.zone, r0, occ0[z], z, e, isTarget, c) ==>
        bound <= Score(b.zone, Moved(r0, mover, c, z), z, LIGHT)
    {
      var c := cands[i];
      assert c in cands;
      TakeStep(cands, i);
      if !RightSide(anchorPos, o, isTarget, c) { continue; }
      if c == home { continue; }
      if c in b.occupied[z] { continue; }
      if MoveWouldBreakAlignment(b.zone, b.result, z, mover, c) { continue; }
      ghost var occ := b.occupied;
      var beforeM := LocalMismatches(b.zone, b.result, z, map[], mover, home);
      fixed := TrySide(b, z, mover, c, beforeM, bound);
      FloorStepTrans(z, r0, occ0, r0, occ, b.result, b.occupied);
      if fixed { return; }
      FloorKeys(z, r0, occ, b.result, b.occupied);
      if Agrees(r0, occ0) { SameBoard(z, r0, occ0, b.occupied); }
    }
    TakeAll(cands);
  }

  /** The move is kept exactly when it lowers the mismatches and brings the score below the bound. */
  method TrySide(b: Board, z: int, mover: RoomId, c: Cell, beforeM: int, bound: int) returns (fixed: bool)
    requires b.Ready() && z in b.occupied && b.result.On(mover, z) && c !in b.occupied[z]
    requires beforeM == LocalMismatches(b.zone, b.result, z, map[], mover, b.result.at[mover].AtCell())
    modifies b`result, b`occupied
    ensures b.Ready() && FloorStep(z, old(b.result), old(b.occupied), b.result, b.occupied)
    ensures var r' := Moved(old(b.result), mover, c, z);
            && (fixed <==> Mismatches(b.zone, r', z) < Mismatches(b.zone, old(b.result), z) && Score(b.zone, r', z, LIGHT) < bound)
            && b.result == if fixed then r' else old(b.result)
  {
    hide Agrees, Score, Mismatches, LocalMismatches, SameFloors, ReadyState, Whole;
    ghost var r, occ := b.result, b.occupied;
    var home := b.result.at[mover].AtCell();
    Crossings.ReadyWhole(b.zone, r, b.floors, occ);
    MovedStep(r, occ, z, mover, c);
    MovedBack(r, occ, z, mover, c);
    LocalExact(b.zone, r, z, mover, c);
    b.MoveRoom(mover, c, z);
    var afterM := LocalMismatches(b.zone, b.result, z, map[], mover, c);
    if afterM < beforeM {
      if Score(b.zone, b.result, z, LIGHT) < bound { return true; }
    }
    b.MoveRoom(mover, home, z);
    UndoneStep(z, r, occ, b.result, b.occupied);
    fixed := false;
  }

  // ---- Strategy 2: a swap with a room near the ideal cell ----

  /** A third room near the ideal cell that the guards allow to change places with the mover. */
  ghost predicate SwapPartner(zone: Zone, r: Layout, z: int, e: Edge, isTarget: bool, other: RoomId) {
    && BothOn(r, z, e) && r.On(other, z) && other != e.from && other != e.to
    && var mover := Mover(e, isTarget);
    && Diamond.Dist(Ideal(r.at[Anchor(e, isTarget)], Off(e.dir), isTarget), r.at[other].AtCell()) <= VIOLATION_SWAP_RADIUS
    && !SwapWouldIncreaseMismatches(zone, r, z, mover, other)
    && !MoveWouldBreakAlignment(zone, r, z, mover, r.at[other].AtCell()) && !MoveWouldBreakAlignment(zone, r, z, other, r.at[mover].AtCell())
  }

  ghost predicate NearSwap(zone: Zone, r: Layout, z: int, e: Edge, isTarget: bool, x: Layout) {
    exists other :: SwapPartner(zone, r, z, e, isTarget, other) && x == Swapped(r, Mover(e, isTarget), other)
  }

  ghost function NearSwaps(zone: Zone, r: Layout, z: int, e: Edge, isTarget: bool): iset<Layout> {
    iset x: Layout | NearSwap(zone, r, z, e, isTarget, x)
  }

  /** The swaps with the room on one cell: what its occupant, or the lack of one, says of them. */
  lemma SwapsOnCell(zone: Zone, r: Layout, cells: set<Cell>, z: int, e: Edge, isTarget: bool, c: Cell, bound: int, found: Option<RoomId>)
    requires BothOn(r, z, e) && Alone(r, cells, z) && (found.Some? ==> r.On(found.value, z) && r.at[found.value] == At(c, z))
    requires found.None? ==> c !in cells || !Taken(r, z, c) || c == r.at[Mover(e, isTarget)].AtCell()
    requires found.Some? && SwapPartner(zone, r, z, e, isTarget, found.value) ==> bound <= Score(zone, Swapped(r, Mover(e, isTarget), found.value), z, LIGHT)
    ensures forall other :: SwapPartner(zone, r, z, e, isTarget, other) && r.at[other].AtCell() == c ==>
      bound <= Score(zone, Swapped(r, Mover(e, isTarget), other), z, LIGHT)
  {
    hide Score, Taken, Swapped, SwapWouldIncreaseMismatches, MoveWouldBreakAlignment, Diamond.Dist;
    assert r.On(Mover(e, isTarget), z);
  }

  method SwapNear(b: Board, z: int, e: Edge, isTarget: bool, bound: int) returns (fixed: bool)
    requires b.Ready() && z in b.occupied && BothOn(b.result, z, e)
    modifies b`result
    ensures b.Ready() && FloorStep(z, old(b.result), old(b.occupied), b.result, b.occupied)
    ensures Searched(b.zone, z, LIGHT, bound, NearSwaps(b.zone, old(b.result), z, e, isTarget),
                     old(b.result), old(b.occupied), b.result, b.occupied, fixed)
  {
    hide Agrees, Score, FloorStep, Diamond.Rings, Diamond.Dist, Swapped, Alone, SwapWouldIncreaseMismatches, MoveWouldBreakAlignment;
    fixed := false;
    ghost var r0 := b.result;
    FloorStepRefl(z, r0, b.occupied);
    var mover, anchor := Mover(e, isTarget), Anchor(e, isTarget);
    var moverPos, ideal := b.result.at[mover].AtCell(), Ideal(b.result.at[anchor], Off(e.dir), isTarget);
    var cands := Diamond.Rings(ideal, 0, VIOLATION_SWAP_RADIUS);
    Diamond.RingsMembers(ideal, 0, VIOLATION_SWAP_RADIUS);
    for i := 0 to |cands|
      invariant b.Ready() && b.result == r0 && z in b.occupied
      invariant Agrees(r0, b.occupied) ==> forall other :: SwapPartner(b.zone, r0, z, e, isTarget, other) && r0.at[other].AtCell() in cands[..i] ==>
        bound <= Score(b.zone, Swapped(r0, mover, other), z, LIGHT)
    {
      var c := cands[i];
      assert c in cands;
      TakeStep(cands, i);
      if Agrees(r0, b.occupied) { AgreeingAlone(r0, b.occupied, z); }
      fixed := SwapAt(b, z, e, isTarget, c, bound);
      if fixed { return; }
    }
    TakeAll(cands);
  }

  /** Try the room on one cell. */
  method SwapAt(b: Board, z: int, e: Edge, isTarget: bool, c: Cell, bound: int) returns (fixed: bool)
    requires b.Ready() && z in b.occupied && BothOn(b.result, z, e)
    requires Diamond.Dist(Ideal(b.result.at[Anchor(e, isTarget)], Off(e.dir), isTarget), c) <= VIOLATION_SWAP_RADIUS
    modifies b`result
    ensures b.Ready() && FloorStep(z, old(b.result), b.occupied, b.result, b.occupied)
    ensures if fixed then Score(b.zone, b.result, z, LIGHT) < bound && NearSwap(b.zone, old(b.result), z, e, isTarget, b.result) else b.result == old(b.result)
    ensures !fixed && Alone(b.result, b.occupied[z], z) ==>
      forall other :: SwapPartner(b.zone, b.result, z, e, isTarget, other) && b.result.at[other].AtCell() == c ==>
        bound <= Score(b.zone, Swapped(b.result, Mover(e, isTarget), other), z, LIGHT)
  {
    hide Agrees, Score, FloorStep, SwapWouldIncreaseMismatches, MoveWouldBreakAlignment, Diamond.Dist, Taken, Swapped, Alone;
    fixed := false;
    ghost var r0 := b.result;
    FloorStepRefl(z, r0, b.occupied);
    var mover := Mover(e, isTarget);
    var moverPos := b.result.at[mover].AtCell();
    if c !in b.occupied[z] || c == moverPos {
      if Alone(r0, b.occupied[z], z) { SwapsOnCell(b.zone, r0, b.occupied[z], z, e, isTarget, c, bound, None); }
      return;
    }
    var swapTarget := Occlusions.RoomAt(b.result, z, c);
    if swapTarget.Some? && swapTarget.value != e.from && swapTarget.value != e.to
       && !SwapWouldIncreaseMismatches(b.zone, b.result, z, mover, swapTarget.value)
       && !MoveWouldBreakAlignment(b.zone, b.result, z, mover, c) && !MoveWouldBreakAlignment(b.zone, b.result, z, swapTarget.value, moverPos)
    {
      fixed := b.TrySwap(z, mover, swapTarget.value, LIGHT, bound);
      assert SwapPartner(b.zone, r0, z, e, isTarget, swapTarget.value);
    }
    if !fixed && Alone(r0, b.occupied[z], z) { SwapsOnCell(b.zone, r0, b.occupied[z], z, e, isTarget, c, bound, swapTarget); }
  }

  // ---- Strategy 3: a group shift ----

  /** The exit would be left diagonal or violated if its source moved by the shift. */
  predicate LeftBroken(r: Layout, z: int, onX: bool, shift: int, e: Edge) {
    BothOn(r, z, e)
    && var now := At(MovedCell(r.at[e.from], onX, shift), z);
       Diagonal(now, r.at[e.to]) || Mismatch(Off(e.dir), now, r.at[e.to])
  }

  method AdjoinBroken(zone: Zone, r: Layout, z: int, onX: bool, shift: int, rid: RoomId, fixedRoom: RoomId, start: seq<RoomId>) returns (group: seq<RoomId>)
    requires NoDup(start) && forall id :: id in start ==> r.On(id, z)
    ensures NoDup(group) && start <= group && forall id :: id in group ==> r.On(id, z)
    ensures forall x :: x in group <==> x in start || (x != fixedRoom && exists e :: e in zone.Out(rid) && LeftBroken(r, z, onX, shift, e) && e.to == x)
  {
    group := start;
    var out := zone.Out(rid);
    for i := 0 to |out|
      invariant NoDup(group) && start <= group && forall id :: id in group ==> r.On(id, z)
      invariant forall x :: x in group <==> x in start || (x != fixedRoom && exists e :: e in out[..i] && LeftBroken(r, z, onX, shift, e) && e.to == x)
    {
      TakeStep(out, i);
      var e := out[i];
      if e.to !in group && e.to != fixedRoom && LeftBroken(r, z, onX, shift, e) { group := group + [e.to]; }
    }
    TakeAll(out);
  }

  /** A shifted room forces the room it collides with and those it would leave broken, but never
      the source of the exit. */
  ghost predicate ShiftForced(zone: Zone, r: Layout, z: int, onX: bool, shift: int, fixedRoom: RoomId, id: RoomId, x: RoomId) {
    x != fixedRoom
    && ( || (exists e :: e in zone.Out(id) && LeftBroken(r, z, onX, shift, e) && e.to == x)
         || (id in r.at && PosToRoom(r, z, MovedCell(r.at[id], onX, shift), r.order) == Some(x)))
  }

  ghost function ShiftForces(zone: Zone, r: Layout, z: int, onX: bool, shift: int, fixedRoom: RoomId): (RoomId, RoomId) -> bool {
    (id: RoomId, x: RoomId) => ShiftForced(zone, r, z, onX, shift, fixedRoom, id, x)
  }

  /** One turn of the search adds what its room forces. */
  method AdjoinForced(zone: Zone, r: Layout, z: int, onX: bool, shift: int, rid: RoomId, fixedRoom: RoomId, start: seq<RoomId>) returns (group: seq<RoomId>)
    requires r.On(rid, z) && NoDup(start) && forall id :: id in start ==> r.On(id, z)
    ensures NoDup(group) && start <= group && forall id :: id in group ==> r.On(id, z)
    ensures forall x :: x in group <==> x in start || ShiftForces(zone, r, z, onX, shift, fixedRoom)(rid, x)
  {
    hide Zone.Out, LeftBroken, PosToRoom, MovedCell;
    group := start;
    var collider := PosToRoom(r, z, MovedCell(r.at[rid], onX, shift), r.order);
    if collider.Some? && collider.value !in group && collider.value != fixedRoom { group := group + [collider.value]; }
    assert forall x :: x in start ==> x in group;
    group := AdjoinBroken(zone, r, z, onX, shift, rid, fixedRoom, group);
  }

  /** The least set with the target of the exit and every room one of its rooms forces, up to the
      size cap. */
  method ShiftGroup(zone: Zone, r: Layout, z: int, onX: bool, shift: int, e: Edge) returns (group: seq<RoomId>, tooLarge: bool)
    requires r.Valid() && BothOn(r, z, e)
    ensures NoDup(group) && e.to in group && forall id :: id in group ==> r.On(id, z)
    ensures Least(ShiftForces(zone, r, z, onX, shift, e.from), e.to, group)
    ensures if tooLarge then |group| > MAX_VIOLATION_GROUP_SIZE
            else |group| <= MAX_VIOLATION_GROUP_SIZE && Closed(ShiftForces(zone, r, z, onX, shift, e.from), e.to, group)
  {
    hide ShiftForces, Least, NoDup;
    group, tooLarge := [e.to], false;
    ghost var forces := ShiftForces(zone, r, z, onX, shift, e.from);
    LeastStart(forces, e.to);
    OneIsDistinct(e.to);
    var head := 0;
    while head < |group|
      invariant 0 <= head <= |group| <= MAX_VIOLATION_GROUP_SIZE && group != [] && NoDup(group) && group[0] == e.to
      invariant forall id :: id in group ==> r.On(id, z)
      invariant Least(forces, e.to, group)
      invariant forall i, x :: 0 <= i < head && forces(group[i], x) ==> x in group
      decreases |r.order| - head
    {
      forall x | x in group ensures x in r.order { }
      DistinctWithin(group, r.order);
      ghost var before := group;
      var rid := group[head];
      assert rid in group;
      group := AdjoinForced(zone, r, z, onX, shift, rid, e.from, group);
      LeastGrows(forces, e.to, before, rid, group);
      assert group[0] == before[0];
      if |group| > MAX_VIOLATION_GROUP_SIZE { tooLarge := true; return; }
      head := head + 1;
    }
  }

  lemma OneIsDistinct(id: RoomId)
    ensures NoDup([id])
  {
  }

  /** The group is the one the shift forces, small enough and without the source, and nothing
      forbids to move it. */
  ghost predicate Shiftable(zone: Zone, r: Layout, cells: set<Cell>, z: int, e: Edge, onX: bool, shift: int, group: seq<RoomId>) {
    && NoDup(group) && |group| <= MAX_VIOLATION_GROUP_SIZE && e.from !in group
    && Closed(ShiftForces(zone, r, z, onX, shift, e.from), e.to, group) && Least(ShiftForces(zone, r, z, onX, shift, e.from), e.to, group)
    && var moves := PushMoves(r, onX, shift, group);
    && Fits(r, cells, moves)
    && forall id :: id in group && id in r.at ==> !MoveWouldBreakAlignment(zone, r, z, id, MovedCell(r.at[id], onX, shift))
  }

  ghost predicate GroupShift(zone: Zone, r: Layout, cells: set<Cell>, z: int, e: Edge, onX: bool, shift: int, x: Layout) {
    exists group :: Shiftable(zone, r, cells, z, e, onX, shift, group) && x == Applied(r, z, PushMoves(r, onX, shift, group))
  }

  ghost function GroupShifts(zone: Zone, r: Layout, cells: set<Cell>, z: int, e: Edge, onX: bool, shift: int): iset<Layout> {
    iset x: Layout | shift != 0 && GroupShift(zone, r, cells, z, e, onX, shift, x)
  }

  /** Whatever can be shifted is the group found. */
  lemma ShiftFound(zone: Zone, r: Layout, cells: set<Cell>, z: int, e: Edge, onX: bool, shift: int, group: seq<RoomId>)
    requires NoDup(group) && Least(ShiftForces(zone, r, z, onX, shift, e.from), e.to, group) && (forall id :: id in group ==> id in r.at)
    requires |group| <= MAX_VIOLATION_GROUP_SIZE ==> Closed(ShiftForces(zone, r, z, onX, shift, e.from), e.to, group)
    requires shift != 0
    ensures var moves := PushMoves(r, onX, shift, group);
            Shiftable(zone, r, cells, z, e, onX, shift, group) <==>
            && |group| <= MAX_VIOLATION_GROUP_SIZE && e.from !in group && Fits(r, cells, moves)
            && !exists id :: id in group && MoveWouldBreakAlignment(zone, r, z, id, moves[id])
    ensures GroupShifts(zone, r, cells, z, e, onX, shift) ==
            if Shiftable(zone, r, cells, z, e, onX, shift, group) then iset{Applied(r, z, PushMoves(r, onX, shift, group))} else iset{}
  {
    hide Closed, Least, ShiftForces, Fits, MoveWouldBreakAlignment, Applied, Home, Cells;
    forall other | Shiftable(zone, r, cells, z, e, onX, shift, other)
      ensures Shiftable(zone, r, cells, z, e, onX, shift, group) && PushMoves(r, onX, shift, other) == PushMoves(r, onX, shift, group)
    {
      OneClosure(ShiftForces(zone, r, z, onX, shift, e.from), e.to, group, other);
      assert PushMoves(r, onX, shift, other) == PushMoves(r, onX, shift, group);
      assert e.from in group <==> e.from in other;
      forall id | id in group && id in r.at ensures !MoveWouldBreakAlignment(zone, r, z, id, MovedCell(r.at[id], onX, shift)) {
        assert id in other;
      }
    }
  }

  method TryShift(b: Board, z: int, e: Edge, onX: bool, shift: int, bound: int) returns (fixed: bool)
    requires b.Ready() && z in b.occupied && BothOn(b.result, z, e) && shift != 0
    modifies b`result, b`occupied
    ensures b.Ready() && FloorStep(z, old(b.result), old(b.occupied), b.result, b.occupied)
    ensures Searched(b.zone, z, LIGHT, bound, GroupShifts(b.zone, old(b.result), old(b.occupied)[z], z, e, onX, shift),
                     old(b.result), old(b.occupied), b.result, b.occupied, fixed)
  {
    hide Agrees, Score, FloorStep, MoveWouldBreakAlignment, ShiftForces, Closed, Least, Shiftable, GroupShifts, Applied;
    fixed := false;
    ghost var r0, occ0 := b.result, b.occupied;
    FloorStepRefl(z, r0, occ0);
    var group, tooLarge := ShiftGroup(b.zone, b.result, z, onX, shift, e);
    ShiftFound(b.zone, r0, occ0[z], z, e, onX, shift, group);
    if tooLarge || e.from in group { return; }
    var moves := PushMoves(b.result, onX, shift, group);
    if !Fits(b.result, b.occupied[z], moves) { return; }
    if exists id :: id in group && MoveWouldBreakAlignment(b.zone, b.result, z, id, moves[id]) { return; }
    fixed := b.TryRelocate(z, group, moves, LIGHT, bound);
    SearchedOne(b.zone, z, LIGHT, bound, Applied(r0, z, moves), r0, occ0, b.result, b.occupied, fixed);
  }

  function Sign(n: int): int {
    if n > 0 then 1 else if n < 0 then -1 else 0
  }

  /** The shifts tried: to the exact cell, one further, and one and two steps in the direction. */
  function ShiftsFor(onX: bool, o: Offset, posA: Pos, posB: Pos): seq<int> {
    var dir := if onX then (if posB.x <= posA.x then 1 else -1) * Sign(o.dx) else (if posB.y <= posA.y then 1 else -1) * Sign(o.dy);
    var amount := if onX then posA.x + o.dx - posB.x else posA.y + o.dy - posB.y;
    [amount, if amount > 0 then amount + 1 else amount - 1, dir, dir * 2]
  }

  // ---- One violation ----

  /** The target is moved first, then the source; of a self-loop both are the target. */
  function Ends(e: Edge): seq<bool> { [true, e.from == e.to] }

  ghost function SideReaches(zone: Zone, r: Layout, cells: set<Cell>, z: int, e: Edge): seq<iset<Layout>> {
    [SideMoves(zone, r, cells, z, e, true), SideMoves(zone, r, cells, z, e, e.from == e.to)]
  }

  method RepairBySide(b: Board, z: int, e: Edge, bound: int) returns (fixed: bool)
    requires b.Ready() && z in b.occupied && BothOn(b.result, z, e)
    modifies b`result, b`occupied
    ensures b.Ready() && FloorStep(z, old(b.result), old(b.occupied), b.result, b.occupied)
    ensures Searched(b.zone, z, LIGHT, bound, Union(SideReaches(b.zone, old(b.result), old(b.occupied)[z], z, e)),
                     old(b.result), old(b.occupied), b.result, b.occupied, fixed)
  {
    hide Agrees, Score, FloorStep, Searched, SideMoves, Union, Mismatches;
    fixed := false;
    ghost var r0, occ0 := b.result, b.occupied;
    FloorStepRefl(z, r0, occ0);
    ghost var reaches := SideReaches(b.zone, r0, occ0[z], z, e);
    SearchedStart(b.zone, z, LIGHT, bound, reaches, r0, occ0);
    for i := 0 to |Ends(e)|
      invariant b.Ready() && b.result == r0 && z in b.occupied && FloorStep(z, r0, occ0, r0, b.occupied)
      invariant Searched(b.zone, z, LIGHT, bound, Union(reaches[..i]), r0, occ0, r0, b.occupied, false)
    {
      ghost var occ := b.occupied;
      fixed := MoveToSide(b, z, e, Ends(e)[i], bound);
      FloorStepTrans(z, r0, occ0, r0, occ, b.result, b.occupied);
      SearchedStep(b.zone, z, LIGHT, bound, reaches, i, SideMoves(b.zone, r0, occ[z], z, e, Ends(e)[i]), r0, occ0, occ, b.result, b.occupied, fixed);
      if fixed { return; }
      NotFound(b.zone, z, LIGHT, bound, Union(reaches[..i + 1]), r0, occ0, b.result, b.occupied);
      FloorKeys(z, r0, occ, b.result, b.occupied);
    }
    SearchedAll(b.zone, z, LIGHT, bound, reaches, r0, occ0, b.occupied);
  }

  ghost function SwapReaches(zone: Zone, r: Layout, z: int, e: Edge): seq<iset<Layout>> {
    [NearSwaps(zone, r, z, e, true), NearSwaps(zone, r, z, e, e.from == e.to)]
  }

  method RepairBySwap(b: Board, z: int, e: Edge, bound: int) returns (fixed: bool)
    requires b.Ready() && z in b.occupied && BothOn(b.result, z, e)
    modifies b`result
    ensures b.Ready() && FloorStep(z, old(b.result), old(b.occupied), b.result, b.occupied)
    ensures Searched(b.zone, z, LIGHT, bound, Union(SwapReaches(b.zone, old(b.result), z, e)),
                     old(b.result), old(b.occupied), b.result, b.occupied, fixed)
  {
    hide Agrees, Score, FloorStep, Searched, NearSwaps, Union;
    fixed := false;
    ghost var r0, occ0 := b.result, b.occupied;
    FloorStepRefl(z, r0, occ0);
    ghost var reaches := SwapReaches(b.zone, r0, z, e);
    SearchedStart(b.zone, z, LIGHT, bound, reaches, r0, occ0);
    for i := 0 to |Ends(e)|
      invariant b.Ready() && b.result == r0
      invariant Searched(b.zone, z, LIGHT, bound, Union(reaches[..i]), r0, occ0, r0, b.occupied, false)
    {
      fixed := SwapNear(b, z, e, Ends(e)[i], bound);
      SearchedStep(b.zone, z, LIGHT, bound, reaches, i, NearSwaps(b.zone, r0, z, e, Ends(e)[i]), r0, occ0, occ0, b.result, b.occupied, fixed);
      if fixed { return; }
      NotFound(b.zone, z, LIGHT, bound, Union(reaches[..i + 1]), r0, occ0, b.result, b.occupied);
    }
    SearchedAll(b.zone, z, LIGHT, bound, reaches, r0, occ0, b.occupied);
  }

  ghost function ShiftReaches(zone: Zone, r: Layout, cells: set<Cell>, z: int, e: Edge, onX: bool, shifts: seq<int>): (reaches: seq<iset<Layout>>)
    ensures |reaches| == |shifts| && forall i :: 0 <= i < |shifts| ==> reaches[i] == GroupShifts(zone, r, cells, z, e, onX, shifts[i])
  {
    seq(|shifts|, i requires 0 <= i < |shifts| => GroupShifts(zone, r, cells, z, e, onX, shifts[i]))
  }

  method RepairByShift(b: Board, z: int, e: Edge, onX: bool, shifts: seq<int>, bound: int) returns (fixed: bool)
    requires b.Ready() && z in b.occupied && BothOn(b.result, z, e)
    modifies b`result, b`occupied
    ensures b.Ready() && FloorStep(z, old(b.result), old(b.occupied), b.result, b.occupied)
    ensures Searched(b.zone, z, LIGHT, bound, Union(ShiftReaches(b.zone, old(b.result), old(b.occupied)[z], z, e, onX, shifts)),
                     old(b.result), old(b.occupied), b.result, b.occupied, fixed)
  {
    hide Agrees, Score, FloorStep, Searched, GroupShift, Union;
    fixed := false;
    ghost var r0, occ0 := b.result, b.occupied;
    FloorStepRefl(z, r0, occ0);
    ghost var reaches := ShiftReaches(b.zone, r0, occ0[z], z, e, onX, shifts);
    SearchedStart(b.zone, z, LIGHT, bound, reaches, r0, occ0);
    for i := 0 to |shifts|
      invariant b.Ready() && b.result == r0 && z in b.occupied && FloorStep(z, r0, occ0, r0, b.occupied)
      invariant Searched(b.zone, z, LIGHT, bound, Union(reaches[..i]), r0, occ0, r0, b.occupied, false)
    {
      ghost var occ := b.occupied;
      if shifts[i] == 0 {
        SearchedNone(b.zone, z, LIGHT, bound, GroupShifts(b.zone, r0, occ[z], z, e, onX, 0), r0, occ);
        SearchedStep(b.zone, z, LIGHT, bound, reaches, i, GroupShifts(b.zone, r0, occ[z], z, e, onX, 0), r0, occ0, occ, r0, occ, false);
        continue;
      }
      fixed := TryShift(b, z, e, onX, shifts[i], bound);
      FloorStepTrans(z, r0, occ0, r0, occ, b.result, b.occupied);
      SearchedStep(b.zone, z, LIGHT, bound, reaches, i, GroupShifts(b.zone, r0, occ[z], z, e, onX, shifts[i]), r0, occ0, occ, b.result, b.occupied, fixed);
      if fixed { return; }
      NotFound(b.zone, z, LIGHT, bound, Union(reaches[..i + 1]), r0, occ0, b.result, b.occupied);
      FloorKeys(z, r0, occ, b.result, b.occupied);
    }
    SearchedAll(b.zone, z, LIGHT, bound, reaches, r0, occ0, b.occupied);
  }

  /** Everything the three strategies may try for a violated exit. */
  ghost function Repairs(zone: Zone, r: Layout, cells: set<Cell>, z: int, e: Edge): iset<Layout> {
    if !BothOn(r, z, e) then iset{}
    else
      var onX := Off(e.dir).dx != 0;
      Union(SideReaches(zone, r, cells, z, e)) + Union(SwapReaches(zone, r, z, e))
      + Union(ShiftReaches(zone, r, cells, z, e, onX, ShiftsFor(onX, Off(e.dir), r.at[e.from], r.at[e.to])))
  }

  /** One violated exit: the first thing tried that brings the score below the bound, if any does. */
  method Repair(b: Board, z: int, e: Edge, bound: int) returns (fixed: bool)
    requires b.Ready() && z in b.occupied && BothOn(b.result, z, e)
    modifies b`result, b`occupied
    ensures b.Ready() && FloorStep(z, old(b.result), old(b.occupied), b.result, b.occupied)
    ensures Searched(b.zone, z, LIGHT, bound, Repairs(b.zone, old(b.result), old(b.occupied)[z], z, e),
                     old(b.result), old(b.occupied), b.result, b.occupied, fixed)
  {
    hide Agrees, Score, FloorStep, Searched, SideReaches, SwapReaches, ShiftReaches, Union, ShiftsFor, ReadyState;
    ghost var r0, occ0 := b.result, b.occupied;
    var onX := Off(e.dir).dx != 0;
    var shifts := ShiftsFor(onX, Off(e.dir), b.result.at[e.from], b.result.at[e.to]);
    ghost var sides, swaps, groups := Union(SideReaches(b.zone, r0, occ0[z], z, e)), Union(SwapReaches(b.zone, r0, z, e)),
      Union(ShiftReaches(b.zone, r0, occ0[z], z, e, onX, shifts));
    fixed := RepairBySide(b, z, e, bound);
    if fixed {
      SearchedPart(b.zone, z, LIGHT, bound, sides, sides + swaps + groups, r0, occ0, b.result, b.occupied);
      return;
    }
    NotFound(b.zone, z, LIGHT, bound, sides, r0, occ0, b.result, b.occupied);
    FloorKeys(z, r0, occ0, b.result, b.occupied);
    ghost var occ := b.occupied;
    fixed := RepairBySwap(b, z, e, bound);
    FloorStepTrans(z, r0, occ0, r0, occ, b.result, b.occupied);
    SearchedOr(b.zone, z, LIGHT, bound, sides, swaps, swaps, r0, occ0, occ, b.result, b.occupied, fixed);
    if fixed {
      SearchedPart(b.zone, z, LIGHT, bound, sides + swaps, sides + swaps + groups, r0, occ0, b.result, b.occupied);
      return;
    }
    NotFound(b.zone, z, LIGHT, bound, sides + swaps, r0, occ0, b.result, b.occupied);
    fixed := RepairByShift(b, z, e, onX, shifts, bound);
    FloorStepTrans(z, r0, occ0, r0, occ, b.result, b.occupied);
    SearchedOr(b.zone, z, LIGHT, bound, sides + swaps, Union(ShiftReaches(b.zone, r0, occ[z], z, e, onX, shifts)), groups, r0, occ0, occ, b.result, b.occupied, fixed);
  }

  // ---- One floor ----

  ghost predicate RepairsSome(zone: Zone, r: Layout, cells: set<Cell>, z: int, x: Layout) {
    exists e :: e in AllOut(zone, r.order) && MismatchFn(r, z)(e) == 1 && x in Repairs(zone, r, cells, z, e)
  }

  /** What may be tried on the floor: the repairs of every violated exit. */
  ghost function RepairMoves(zone: Zone, r: Layout, cells: set<Cell>, z: int): iset<Layout> {
    iset x: Layout | RepairsSome(zone, r, cells, z, x)
  }

  ghost function RepairReaches(zone: Zone, r: Layout, cells: set<Cell>, z: int, violations: seq<Edge>): (reaches: seq<iset<Layout>>)
    ensures |reaches| == |violations| && forall i :: 0 <= i < |violations| ==> reaches[i] == Repairs(zone, r, cells, z, violations[i])
  {
    seq(|violations|, i requires 0 <= i < |violations| => Repairs(zone, r, cells, z, violations[i]))
  }

  lemma RepairReachesAll(zone: Zone, r: Layout, cells: set<Cell>, z: int, violations: seq<Edge>)
    requires forall e :: e in violations <==> e in AllOut(zone, r.order) && MismatchFn(r, z)(e) == 1
    ensures Union(RepairReaches(zone, r, cells, z, violations)) == RepairMoves(zone, r, cells, z)
  {
    hide Repairs, RepairReaches, MismatchFn, AllOut;
    var reaches := RepairReaches(zone, r, cells, z, violations);
    forall x ensures x in Union(reaches) <==> x in RepairMoves(zone, r, cells, z) {
      if x in Union(reaches) {
        var i :| 0 <= i < |reaches| && x in reaches[i];
        assert violations[i] in violations;
      }
      if x in RepairMoves(zone, r, cells, z) {
        var e :| e in AllOut(zone, r.order) && MismatchFn(r, z)(e) == 1 && x in Repairs(zone, r, cells, z, e);
        var i :| 0 <= i < |violations| && violations[i] == e;
        assert x in reaches[i];
      }
    }
  }

  /** One pass: the first move that brings the score down ends it; if it ends without one, no move
      of any strategy for any violated exit would bring it down. */
  method RepairPass(b: Board, z: int) returns (fixed: bool)
    requires b.Ready() && z in b.occupied
    modifies b`result, b`occupied
    ensures b.Ready() && FloorStep(z, old(b.result), old(b.occupied), b.result, b.occupied)
    ensures Searched(b.zone, z, LIGHT, Score(b.zone, old(b.result), z, LIGHT), RepairMoves(b.zone, old(b.result), old(b.occupied)[z], z),
                     old(b.result), old(b.occupied), b.result, b.occupied, fixed)
    ensures Mismatches(b.zone, old(b.result), z) == 0 ==> !fixed && b.occupied == old(b.occupied)
  {
    hide Agrees, Score, FloorStep, Flagged, Searched, Repairs, Union, RepairMoves;
    fixed := false;
    ghost var r0, occ0 := b.result, b.occupied;
    FloorStepRefl(z, r0, occ0);
    var violations := Flagged(AllOut(b.zone, b.result.order), MismatchFn(b.result, z));
    FlaggedCount(b.zone, r0, MismatchFn(r0, z));
    FlaggedMembers(AllOut(b.zone, r0.order), MismatchFn(r0, z));
    RepairReachesAll(b.zone, r0, occ0[z], z, violations);
    ghost var reaches := RepairReaches(b.zone, r0, occ0[z], z, violations);
    var currentScore := Score(b.zone, b.result, z, LIGHT);
    SearchedStart(b.zone, z, LIGHT, currentScore, reaches, r0, occ0);
    if violations == [] {
      SearchedAll(b.zone, z, LIGHT, currentScore, reaches, r0, occ0, occ0);
      return;
    }
    for i := 0 to |violations|
      invariant b.Ready() && b.result == r0 && z in b.occupied && FloorStep(z, r0, occ0, r0, b.occupied)
      invariant Searched(b.zone, z, LIGHT, currentScore, Union(reaches[..i]), r0, occ0, r0, b.occupied, false)
    {
      assert violations[i] in violations;
      ghost var occ := b.occupied;
      fixed := Repair(b, z, violations[i], currentScore);
      FloorStepTrans(z, r0, occ0, r0, occ, b.result, b.occupied);
      SearchedStep(b.zone, z, LIGHT, currentScore, reaches, i, Repairs(b.zone, r0, occ[z], z, violations[i]), r0, occ0, occ, b.result, b.occupied, fixed);
      if fixed { return; }
      NotFound(b.zone, z, LIGHT, currentScore, Union(reaches[..i + 1]), r0, occ0, b.result, b.occupied);
      FloorKeys(z, r0, occ, b.result, b.occupied);
    }
    SearchedAll(b.zone, z, LIGHT, currentScore, reaches, r0, occ0, b.occupied);
  }

  /** No move of any strategy for any violated exit of the floor lowers its score. */
  ghost predicate RepairStuck(zone: Zone, r: Layout, occ: Occupancy, z: int)
    requires z in occ
  {
    forall x :: x in RepairMoves(zone, r, occ[z], z) ==> Score(zone, r, z, LIGHT) <= Score(zone, x, z, LIGHT)
  }

  /** Phase 5b went through so many passes, each of which lowered the score, until no strategy had
      a move left, unless it reached the cap. */
  ghost predicate Repaired(zone: Zone, z: int, r: Layout, occ: Occupancy, passes: nat, r': Layout, occ': Occupancy) {
    && Improves(zone, z, LIGHT, r, occ, r', occ') && z in occ' && passes <= DIRECTION_VIOLATION_PASSES
    && Score(zone, r', z, LIGHT) + passes <= Score(zone, r, z, LIGHT)
    && (passes < DIRECTION_VIOLATION_PASSES && Agrees(r, occ) ==> RepairStuck(zone, r', occ', z))
  }

  /** Phase 5b on one floor. */
  method RepairFloor(b: Board, z: int) returns (ghost passes: nat)
    requires b.Ready() && z in b.occupied
    modifies b`result, b`occupied
    ensures b.Ready() && Repaired(b.zone, z, old(b.result), old(b.occupied), passes, b.result, b.occupied)
    ensures Mismatches(b.zone, old(b.result), z) == 0 ==> b.result == old(b.result) && b.occupied == old(b.occupied)
  {
    hide Agrees, Score, FloorStep, Improves, Mismatches, RepairMoves;
    ghost var r0, occ0 := b.result, b.occupied;
    ImprovesRefl(b.zone, z, LIGHT, r0, occ0);
    passes := 0;
    for pass := 0 to DIRECTION_VIOLATION_PASSES
      invariant b.Ready() && Improves(b.zone, z, LIGHT, r0, occ0, b.result, b.occupied)
      invariant passes == pass && z in b.occupied && Score(b.zone, b.result, z, LIGHT) + passes <= Score(b.zone, r0, z, LIGHT)
      invariant Mismatches(b.zone, r0, z) == 0 ==> b.result == r0 && b.occupied == occ0
    {
      ghost var r, occ := b.result, b.occupied;
      ImprovesParts(b.zone, z, LIGHT, r0, occ0, r, occ);
      ImprovesStep(b.zone, z, LIGHT, r0, occ0, r, occ);
      StepAgrees(z, r0, occ0, r, occ);
      var fixed := RepairPass(b, z);
      StepImproves(b.zone, z, LIGHT, r, occ, b.result, b.occupied, fixed);
      ImprovesTrans(b.zone, z, LIGHT, r0, occ0, r, occ, b.result, b.occupied);
      ImprovesParts(b.zone, z, LIGHT, r0, occ0, b.result, b.occupied);
      if !fixed { break; }
      passes := passes + 1;
    }
  }

  ghost predicate RepairRun(zone: Zone, floors: seq<int>, s: State, s': State, run: seq<State>, passes: seq<nat>) {
    && Run(run, |floors|, s, s') && |passes| == |floors|
    && forall i :: 0 <= i < |floors| ==> Repaired(zone, floors[i], run[i].r, run[i].occ, passes[i], run[i + 1].r, run[i + 1].occ)
  }

  /** The phase took the floors in turn. */
  ghost predicate RepairedAll(zone: Zone, floors: seq<int>, s: State, s': State) {
    exists run, passes :: RepairRun(zone, floors, s, s', run, passes)
  }

  /** Phase 5b: the violated exits of every floor in turn; no floor's layout score rises. */
  method FixDirectionViolations(b: Board)
    requires b.Ready()
    modifies b`result, b`occupied
    ensures b.Ready() && Kept(old(b.result), old(b.occupied), b.result, b.occupied)
    ensures forall z :: Score(b.zone, b.result, z, LIGHT) <= Score(b.zone, old(b.result), z, LIGHT)
    ensures AllPerfect(b.zone, old(b.result)) ==> b.result == old(b.result) && b.occupied == old(b.occupied)
    ensures RepairedAll(b.zone, b.floors, State(old(b.result), old(b.occupied)), State(b.result, b.occupied))
  {
    hide Agrees, Score, Perfect, FloorStep, Kept, Improves, Mismatches, ReadyState, RepairStuck;
    ghost var r0, occ0 := b.result, b.occupied;
    KeptRefl(r0, occ0);
    ghost var run, passes: seq<nat> := [State(r0, occ0)], [];
    for i := 0 to |b.floors|
      invariant b.Ready() && Kept(r0, occ0, b.result, b.occupied)
      invariant forall z :: Score(b.zone, b.result, z, LIGHT) <= Score(b.zone, r0, z, LIGHT)
      invariant AllPerfect(b.zone, r0) ==> b.result == r0 && b.occupied == occ0
      invariant Run(run, i, State(r0, occ0), State(b.result, b.occupied)) && |passes| == i
      invariant forall j :: 0 <= j < i ==> Repaired(b.zone, b.floors[j], run[j].r, run[j].occ, passes[j], run[j + 1].r, run[j + 1].occ)
    {
      var z := b.floors[i];
      ghost var r, occ := b.result, b.occupied;
      FloorIsOpen(b.zone, r, b.floors, occ, i);
      PerfectScores(b.zone, r, b.floors, occ, z);
      ghost var here := RepairFloor(b, z);
      ImprovesParts(b.zone, z, LIGHT, r, occ, b.result, b.occupied);
      ImprovesStep(b.zone, z, LIGHT, r, occ, b.result, b.occupied);
      KeptStep(z, r0, occ0, r, occ, b.result, b.occupied);
      forall y | y != z ensures Score(b.zone, b.result, y, LIGHT) == Score(b.zone, r, y, LIGHT) {
        OtherFloors(z, y, r, occ, b.result, b.occupied);
        ScoreFrame(b.zone, r, b.result, y, LIGHT);
      }
      run, passes := run + [State(b.result, b.occupied)], passes + [here];
    }
    assert RepairRun(b.zone, b.floors, State(r0, occ0), State(b.result, b.occupied), run, passes);
  }
}
