/** Phase 5: straightening diagonal exits by moves, swaps, displacements, pair moves and pushes. */
module Cascades {
  import opened Sums
  import opened Zones
  import opened Boards
  import opened Scores
  import opened Guards
  import opened Relax
  import Diamond
  import Segments

  const DIAGONAL_CASCADE_PASSES := 60
  const DIAGONAL_DISPLACE_RADIUS := 5
  const MAX_PUSH_GROUP_SIZE := 40
  const POST_DIAGONAL_RELAX_ITERATIONS := 100
  const POST_DIAGONAL_CANDIDATE_RADIUS := 3

  // ---- Finding the exits to repair ----

  /** The exits a 0/1 count counts. */
  function Flagged(edges: seq<Edge>, f: Edge -> int): seq<Edge> {
    if edges == [] then [] else (if f(edges[0]) > 0 then [edges[0]] else []) + Flagged(edges[1..], f)
  }

  lemma {:induction false} FlaggedMembers(edges: seq<Edge>, f: Edge -> int)
    requires forall e :: f(e) == 0 || f(e) == 1
    ensures |Flagged(edges, f)| == Sum(edges, f)
    ensures forall e :: e in Flagged(edges, f) <==> e in edges && f(e) == 1
  {
    if edges != [] { FlaggedMembers(edges[1..], f); }
  }

  lemma {:induction false} AllOutSum(zone: Zone, ids: seq<RoomId>, f: Edge -> int)
    ensures Sum(AllOut(zone, ids), f) == Total(zone, ids, f)
  {
    if ids != [] {
      AllOutSum(zone, ids[1..], f);
      SumAppend(zone.Out(ids[0]), AllOut(zone, ids[1..]), f);
    }
  }

  /** The exits found are those the floor's count counts. */
  lemma FlaggedCount(zone: Zone, r: Layout, f: Edge -> int)
    requires forall e :: f(e) == 0 || f(e) == 1
    ensures |Flagged(AllOut(zone, r.order), f)| == Total(zone, r.order, f)
    ensures forall e :: e in Flagged(AllOut(zone, r.order), f) ==> e.from in r.order && e in zone.Out(e.from) && f(e) == 1
  {
    FlaggedMembers(AllOut(zone, r.order), f);
    AllOutSum(zone, r.order, f);
    AllOutMembers(zone, r.order);
  }

  /** The last room of the layout order on a cell, as a map filled in that order holds it. */
  function PosToRoom(r: Layout, z: int, c: Cell, ids: seq<RoomId>): (id: Option<RoomId>)
    ensures id.Some? ==> id.value in ids && id.value in r.at && r.at[id.value] == At(c, z)
  {
    if ids == [] then None
    else
      var last := |ids| - 1;
      if ids[last] in r.at && r.at[ids[last]] == At(c, z) then Some(ids[last]) else PosToRoom(r, z, c, ids[..last])
  }

  /** The two guards of single moves in this phase. */
  predicate Guarded(zone: Zone, r: Layout, z: int, id: RoomId, c: Cell) {
    MoveWouldIncreaseMismatches(zone, r, z, id, c) || MoveWouldBreakAlignment(zone, r, z, id, c)
  }

  // ---- Strategy 1: one endpoint, with the room in its way ----

  /** The two rooms' cells after the occupant makes way. */
  function MakeWay(mover: RoomId, target: Cell, occupant: RoomId, c: Cell): map<RoomId, Cell> {
    map[mover := target, occupant := c]
  }

  lemma MakeWayFits(r: Layout, occ: Occupancy, z: int, mover: RoomId, target: Cell, occupant: RoomId, c: Cell)
    requires r.On(mover, z) && r.On(occupant, z) && mover != occupant && z in occ
    requires r.at[occupant].AtCell() == target && c !in occ[z]
    ensures var to := MakeWay(mover, target, occupant, c);
            && OnFloor(r, z, to) && (forall id :: id in [mover, occupant] <==> id in to)
            && (Agrees(r, occ) ==> Fits(r, occ[z], to))
  {
    var to := MakeWay(mover, target, occupant, c);
    InHome(r, to, occupant);
    if Agrees(r, occ) { assert Taken(r, z, target); }
  }

  /** The occupant goes to a free cell near its own, and the mover takes its place. */
  ghost predicate Displaced(r: Layout, cells: set<Cell>, z: int, mover: RoomId, occupant: RoomId, x: Layout) {
    && occupant in r.at
    && exists c :: c !in cells && 1 <= Diamond.Dist(r.at[occupant].AtCell(), c) <= DIAGONAL_DISPLACE_RADIUS
                   && x == Applied(r, z, MakeWay(mover, r.at[occupant].AtCell(), occupant, c))
  }

  ghost function Displacements(r: Layout, cells: set<Cell>, z: int, mover: RoomId, occupant: RoomId): iset<Layout> {
    iset x: Layout | Displaced(r, cells, z, mover, occupant, x)
  }

  /** The first displacement below the bound, if there is one. */
  method Displace(b: Board, z: int, mover: RoomId, occupant: RoomId, bound: int) returns (improved: bool)
    requires b.Ready() && z in b.occupied && b.result.On(mover, z) && b.result.On(occupant, z) && mover != occupant
    modifies b`result, b`occupied
    ensures b.Ready() && FloorStep(z, old(b.result), old(b.occupied), b.result, b.occupied)
    ensures Searched(b.zone, z, LIGHT, bound, Displacements(old(b.result), old(b.occupied)[z], z, mover, occupant),
                     old(b.result), old(b.occupied), b.result, b.occupied, improved)
  {
    hide Agrees, Score, FloorStep, Fits, MakeWay, Applied, Diamond.Rings, Diamond.Dist;
    improved := false;
    ghost var r0, occ0 := b.result, b.occupied;
    FloorStepRefl(z, r0, occ0);
    var target := b.result.at[occupant].AtCell();
    var cands := Diamond.Rings(target, 1, DIAGONAL_DISPLACE_RADIUS);
    Diamond.RingsMembers(target, 1, DIAGONAL_DISPLACE_RADIUS);
    for i := 0 to |cands|
      invariant b.Ready() && b.result == r0 && z in b.occupied && FloorStep(z, r0, occ0, r0, b.occupied)
      invariant Agrees(r0, occ0) ==> b.occupied == occ0 && forall c :: c in cands[..i] && c !in occ0[z] ==>
        bound <= Score(b.zone, Applied(r0, z, MakeWay(mover, target, occupant, c)), z, LIGHT)
    {
      assert cands[i] in cands;
      TakeStep(cands, i);
      if cands[i] in b.occupied[z] { continue; }
      ghost var occ := b.occupied;
      MakeWayFits(r0, occ, z, mover, target, occupant, cands[i]);
      improved := b.TryRelocate(z, [mover, occupant], MakeWay(mover, target, occupant, cands[i]), LIGHT, bound);
      FloorStepTrans(z, r0, occ0, r0, occ, b.result, b.occupied);
      if improved { return; }
      FloorKeys(z, r0, occ, b.result, b.occupied);
      if Agrees(r0, occ0) { SameBoard(z, r0, occ0, b.occupied); }
    }
    TakeAll(cands);
  }

  /** Where an endpoint may go: onto the cell if it is free, or into the place of a third room,
      which is swapped with it or displaced. */
  ghost function EndpointMoves(zone: Zone, r: Layout, cells: set<Cell>, z: int, e: Edge, mover: RoomId, target: Cell): iset<Layout>
    requires mover in r.at
  {
    if r.at[mover].AtCell() == target || Guarded(zone, r, z, mover, target) then iset{}
    else if target !in cells then iset{Moved(r, mover, target, z)}
    else
      var occupant := PosToRoom(r, z, target, r.order);
      if occupant.None? || occupant.value == e.from || occupant.value == e.to then iset{}
      else iset{Swapped(r, mover, occupant.value)} + Displacements(r, cells, z, mover, occupant.value)
  }

  /** Move one endpoint onto the other's axis; if a third room is there, swap with it or make it
      give way. */
  method MoveEndpoint(b: Board, z: int, e: Edge, mover: RoomId, target: Cell, bound: int) returns (improved: bool)
    requires b.Ready() && z in b.occupied && b.result.On(mover, z) && (mover == e.from || mover == e.to)
    modifies b`result, b`occupied
    ensures b.Ready() && FloorStep(z, old(b.result), old(b.occupied), b.result, b.occupied)
    ensures Searched(b.zone, z, LIGHT, bound, EndpointMoves(b.zone, old(b.result), old(b.occupied)[z], z, e, mover, target),
                     old(b.result), old(b.occupied), b.result, b.occupied, improved)
  {
    hide Agrees, Score, FloorStep, Guarded, Displacements, Swapped, Moved;
    improved := false;
    ghost var r0, occ0 := b.result, b.occupied;
    FloorStepRefl(z, r0, occ0);
    if b.result.at[mover].AtCell() == target { return; }
    if Guarded(b.zone, b.result, z, mover, target) { return; }
    if target !in b.occupied[z] {
      improved := b.TryMove(z, mover, target, LIGHT, bound);
      SearchedOne(b.zone, z, LIGHT, bound, Moved(r0, mover, target, z), r0, occ0, b.result, b.occupied, improved);
      return;
    }
    var occupant := PosToRoom(b.result, z, target, b.result.order);
    if occupant.None? || occupant.value == e.from || occupant.value == e.to { return; }
    improved := b.TrySwap(z, mover, occupant.value, LIGHT, bound);
    if improved { return; }
    improved := Displace(b, z, mover, occupant.value, bound);
  }

  // ---- Strategy 2: both endpoints ----

  function PairMove(r: Layout, e: Edge, vertical: bool, axisVal: int): map<RoomId, Cell>
    requires e.from in r.at && e.to in r.at
  {
    var posA, posB := r.at[e.from], r.at[e.to];
    if vertical then map[e.from := Cell(axisVal, posA.y), e.to := Cell(axisVal, posB.y)]
    else map[e.from := Cell(posA.x, axisVal), e.to := Cell(posB.x, axisVal)]
  }

  predicate FreeFor(r: Layout, cells: set<Cell>, e: Edge, c: Cell)
    requires e.from in r.at && e.to in r.at
  {
    c == r.at[e.from].AtCell() || c == r.at[e.to].AtCell() || c !in cells
  }

  lemma PairFits(r: Layout, cells: set<Cell>, z: int, e: Edge, vertical: bool, axisVal: int)
    requires BothOn(r, z, e) && e.from != e.to
    requires var to := PairMove(r, e, vertical, axisVal);
             FreeFor(r, cells, e, to[e.from]) && FreeFor(r, cells, e, to[e.to]) && to[e.from] != to[e.to]
    ensures var to := PairMove(r, e, vertical, axisVal);
            OnFloor(r, z, to) && (forall id :: id in [e.from, e.to] <==> id in to) && Fits(r, cells, to)
  {
    var to := PairMove(r, e, vertical, axisVal);
    InHome(r, to, e.from);
    InHome(r, to, e.to);
  }

  /** Both endpoints move onto the line, keeping their other coordinate. */
  ghost function PairMoves(zone: Zone, r: Layout, cells: set<Cell>, z: int, e: Edge, vertical: bool, axisVal: int): iset<Layout>
    requires e.from in r.at && e.to in r.at && e.from != e.to
  {
    var to := PairMove(r, e, vertical, axisVal);
    if to == PairHome(r, e) || !FreeFor(r, cells, e, to[e.from]) || !FreeFor(r, cells, e, to[e.to]) || to[e.from] == to[e.to] then iset{}
    else if Guarded(zone, r, z, e.from, to[e.from]) || Guarded(zone, r, z, e.to, to[e.to]) then iset{}
    else iset{Applied(r, z, to)}
  }

  function PairHome(r: Layout, e: Edge): map<RoomId, Cell>
    requires e.from in r.at && e.to in r.at
  {
    map[e.from := r.at[e.from].AtCell(), e.to := r.at[e.to].AtCell()]
  }

  method MovePair(b: Board, z: int, e: Edge, vertical: bool, axisVal: int, bound: int) returns (improved: bool)
    requires b.Ready() && z in b.occupied && BothOn(b.result, z, e) && e.from != e.to
    modifies b`result, b`occupied
    ensures b.Ready() && FloorStep(z, old(b.result), old(b.occupied), b.result, b.occupied)
    ensures Searched(b.zone, z, LIGHT, bound, PairMoves(b.zone, old(b.result), old(b.occupied)[z], z, e, vertical, axisVal),
                     old(b.result), old(b.occupied), b.result, b.occupied, improved)
  {
    hide Agrees, Score, FloorStep, FreeFor, Fits, Applied, MoveWouldIncreaseMismatches, MoveWouldBreakAlignment;
    improved := false;
    ghost var r0, occ0 := b.result, b.occupied;
    FloorStepRefl(z, r0, occ0);
    var to := PairMove(b.result, e, vertical, axisVal);
    var newA, newB := to[e.from], to[e.to];
    if newA == b.result.at[e.from].AtCell() && newB == b.result.at[e.to].AtCell() { return; }
    if FreeFor(b.result, b.occupied[z], e, newA) && FreeFor(b.result, b.occupied[z], e, newB) && newA != newB {
      if MoveWouldIncreaseMismatches(b.zone, b.result, z, e.from, newA) || MoveWouldIncreaseMismatches(b.zone, b.result, z, e.to, newB) { return; }
      if MoveWouldBreakAlignment(b.zone, b.result, z, e.from, newA) || MoveWouldBreakAlignment(b.zone, b.result, z, e.to, newB) { return; }
      PairFits(b.result, b.occupied[z], z, e, vertical, axisVal);
      improved := b.TryRelocate(z, [e.from, e.to], to, LIGHT, bound);
      SearchedOne(b.zone, z, LIGHT, bound, Applied(r0, z, to), r0, occ0, b.result, b.occupied, improved);
    }
  }

  // ---- Strategy 3: pushes ----

  /** An adjacent neighbour that the push would leave diagonal, on the wrong side or far away. */
  predicate Disturbed(o: Offset, p: Pos, now: Pos, q: Pos) {
    Stretch(p, q) == 1 && (Diagonal(now, q) || Mismatch(o, now, q) || Stretch(now, q) > 2)
  }

  /** Pushing the source of the exit takes its target along. */
  predicate TakesAlong(r: Layout, z: int, vertical: bool, shift: int, e: Edge) {
    BothOn(r, z, e) && Disturbed(Off(e.dir), r.at[e.from], At(MovedCell(r.at[e.from], vertical, shift), z), r.at[e.to])
  }

  /** A pushed room forces the neighbours it takes along, and the room on the cell it enters. */
  ghost predicate Forced(zone: Zone, r: Layout, cells: set<Cell>, z: int, vertical: bool, shift: int, id: RoomId, x: RoomId) {
    || (exists e :: e in zone.Out(id) && TakesAlong(r, z, vertical, shift, e) && e.to == x)
    || (id in r.at && MovedCell(r.at[id], vertical, shift) in cells && PosToRoom(r, z, MovedCell(r.at[id], vertical, shift), r.order) == Some(x))
  }

  ghost function Forces(zone: Zone, r: Layout, cells: set<Cell>, z: int, vertical: bool, shift: int): (RoomId, RoomId) -> bool {
    (id: RoomId, x: RoomId) => Forced(zone, r, cells, z, vertical, shift, id, x)
  }

  /** The least set with the start room and every room one of its rooms forces, up to the size cap. */
  method PushSet(zone: Zone, r: Layout, cells: set<Cell>, z: int, vertical: bool, shift: int, start: RoomId)
    returns (push: seq<RoomId>, tooLarge: bool)
    requires r.Valid() && r.On(start, z)
    ensures NoDup(push) && start in push && forall id :: id in push ==> r.On(id, z)
    ensures Least(Forces(zone, r, cells, z, vertical, shift), start, push)
    ensures if tooLarge then |push| > MAX_PUSH_GROUP_SIZE
            else |push| <= MAX_PUSH_GROUP_SIZE && Closed(Forces(zone, r, cells, z, vertical, shift), start, push)
  {
    hide Forces, Least, PosToRoom, Zone.Out, TakesAlong, MovedCell;
    push, tooLarge := [start], false;
    ghost var forces := Forces(zone, r, cells, z, vertical, shift);
    LeastStart(forces, start);
    var head := 0;
    while head < |push|
      invariant 0 <= head <= |push| <= MAX_PUSH_GROUP_SIZE && push != [] && NoDup(push) && push[0] == start && (forall id :: id in push ==> r.On(id, z))
      invariant Least(forces, start, push)
      invariant forall i, x :: 0 <= i < head && forces(push[i], x) ==> x in push
      decreases |r.order| - head
    {
      forall x | x in push ensures x in r.order { }
      DistinctWithin(push, r.order);
      ghost var before := push;
      var pid := push[head];
      assert pid in push;
      var target := MovedCell(r.at[pid], vertical, shift);
      var withOccupant := push;
      if target in cells {
        var occupant := PosToRoom(r, z, target, r.order);
        if occupant.Some? && occupant.value !in push { withOccupant := push + [occupant.value]; }
      }
      push := AdjoinDisturbed(zone, r, z, vertical, shift, pid, withOccupant);
      ForcedBy(zone, r, cells, z, vertical, shift, pid, before, withOccupant, push);
      assert push[0] == before[0];
      LeastGrows(forces, start, before, pid, push);
      if |push| > MAX_PUSH_GROUP_SIZE { tooLarge := true; return; }
      head := head + 1;
    }
  }

  /** What one turn of the search adds is what its room forces. */
  lemma ForcedBy(zone: Zone, r: Layout, cells: set<Cell>, z: int, vertical: bool, shift: int, id: RoomId, before: seq<RoomId>, middle: seq<RoomId>, push: seq<RoomId>)
    requires id in r.at && middle <= push
    requires var target := MovedCell(r.at[id], vertical, shift); var occupant := PosToRoom(r, z, target, r.order);
             middle == if target in cells && occupant.Some? && occupant.value !in before then before + [occupant.value] else before
    requires forall x :: x in push <==> x in middle || exists e :: e in zone.Out(id) && TakesAlong(r, z, vertical, shift, e) && e.to == x
    ensures forall x :: x in push <==> x in before || Forces(zone, r, cells, z, vertical, shift)(id, x)
    ensures before <= push
  {
    hide Zone.Out, TakesAlong, PosToRoom, MovedCell;
    assert forall x :: x in before ==> x in middle;
  }

  method AdjoinDisturbed(zone: Zone, r: Layout, z: int, vertical: bool, shift: int, pid: RoomId, start: seq<RoomId>) returns (push: seq<RoomId>)
    requires NoDup(start) && forall id :: id in start ==> r.On(id, z)
    ensures NoDup(push) && start <= push && forall id :: id in push ==> r.On(id, z)
    ensures forall x :: x in push <==> x in start || exists e :: e in zone.Out(pid) && TakesAlong(r, z, vertical, shift, e) && e.to == x
  {
    push := start;
    var out := zone.Out(pid);
    for i := 0 to |out|
      invariant NoDup(push) && start <= push && forall id :: id in push ==> r.On(id, z)
      invariant forall x :: x in push <==> x in start || exists e :: e in out[..i] && TakesAlong(r, z, vertical, shift, e) && e.to == x
    {
      TakeStep(out, i);
      if out[i].to !in push && TakesAlong(r, z, vertical, shift, out[i]) { push := push + [out[i].to]; }
    }
    TakeAll(out);
  }

  function PushMoves(r: Layout, vertical: bool, shift: int, push: seq<RoomId>): map<RoomId, Cell> {
    map id | id in push && id in r.at :: MovedCell(r.at[id], vertical, shift)
  }

  /** Every cell the push enters is free or held by a pushed room. */
  predicate CanMove(r: Layout, cells: set<Cell>, z: int, vertical: bool, shift: int, push: seq<RoomId>) {
    forall id :: id in push && id in r.at ==>
      var c := MovedCell(r.at[id], vertical, shift);
      c in cells ==> PosToRoom(r, z, c, r.order).Some? && PosToRoom(r, z, c, r.order).value in push
  }

  lemma PushFits(r: Layout, occ: Occupancy, z: int, vertical: bool, shift: int, push: seq<RoomId>)
    requires z in occ && (forall id :: id in push ==> r.On(id, z)) && CanMove(r, occ[z], z, vertical, shift, push)
    ensures var to := PushMoves(r, vertical, shift, push);
            && OnFloor(r, z, to) && (forall id :: id in push <==> id in to)
            && (Agrees(r, occ) ==> Fits(r, occ[z], to))
  {
    var to := PushMoves(r, vertical, shift, push);
    if Agrees(r, occ) {
      forall id | id in to && to[id] in occ[z] ensures to[id] in Cells(Home(r, to)) {
        var m := PosToRoom(r, z, to[id], r.order).value;
        InHome(r, to, m);
      }
      forall x, y | x in to && y in to && x != y ensures to[x] != to[y] { assert r.at[x] != r.at[y]; }
    }
  }

  /** The set is the one the push takes along, small enough, and nothing forbids to move it. */
  ghost predicate Pushable(zone: Zone, r: Layout, cells: set<Cell>, z: int, vertical: bool, shift: int, start: RoomId, push: seq<RoomId>) {
    && NoDup(push) && 2 <= |push| <= MAX_PUSH_GROUP_SIZE
    && Closed(Forces(zone, r, cells, z, vertical, shift), start, push) && Least(Forces(zone, r, cells, z, vertical, shift), start, push)
    && CanMove(r, cells, z, vertical, shift, push)
    && forall id :: id in push && id in r.at ==> !Guarded(zone, r, z, id, MovedCell(r.at[id], vertical, shift))
  }

  ghost predicate Pushed(zone: Zone, r: Layout, cells: set<Cell>, z: int, vertical: bool, shift: int, start: RoomId, x: Layout) {
    exists push :: Pushable(zone, r, cells, z, vertical, shift, start, push) && x == Applied(r, z, PushMoves(r, vertical, shift, push))
  }

  ghost function Pushes(zone: Zone, r: Layout, cells: set<Cell>, z: int, vertical: bool, shift: int, start: RoomId): iset<Layout> {
    iset x: Layout | Pushed(zone, r, cells, z, vertical, shift, start, x)
  }

  /** Whatever can be pushed is the set found. */
  lemma PushFound(zone: Zone, r: Layout, cells: set<Cell>, z: int, vertical: bool, shift: int, start: RoomId, push: seq<RoomId>)
    requires NoDup(push) && Least(Forces(zone, r, cells, z, vertical, shift), start, push) && forall id :: id in push ==> id in r.at
    requires |push| <= MAX_PUSH_GROUP_SIZE ==> Closed(Forces(zone, r, cells, z, vertical, shift), start, push)
    ensures Pushable(zone, r, cells, z, vertical, shift, start, push) <==>
            && 2 <= |push| <= MAX_PUSH_GROUP_SIZE && CanMove(r, cells, z, vertical, shift, push)
            && !exists id :: id in push && Guarded(zone, r, z, id, MovedCell(r.at[id], vertical, shift))
    ensures Pushes(zone, r, cells, z, vertical, shift, start) ==
            if Pushable(zone, r, cells, z, vertical, shift, start, push) then iset{Applied(r, z, PushMoves(r, vertical, shift, push))} else iset{}
  {
    hide Closed, Least, Forces, CanMove, Guarded, Applied;
    forall other | Pushable(zone, r, cells, z, vertical, shift, start, other)
      ensures Pushable(zone, r, cells, z, vertical, shift, start, push) && PushMoves(r, vertical, shift, other) == PushMoves(r, vertical, shift, push)
    {
      OneClosure(Forces(zone, r, cells, z, vertical, shift), start, push, other);
      SameCanMove(r, cells, z, vertical, shift, other, push);
    }
  }

  lemma SameCanMove(r: Layout, cells: set<Cell>, z: int, vertical: bool, shift: int, push: seq<RoomId>, other: seq<RoomId>)
    requires CanMove(r, cells, z, vertical, shift, push) && forall id :: id in push <==> id in other
    ensures CanMove(r, cells, z, vertical, shift, other)
  {
  }

  method TryPush(b: Board, z: int, vertical: bool, shift: int, start: RoomId, bound: int) returns (improved: bool)
    requires b.Ready() && z in b.occupied && b.result.On(start, z)
    modifies b`result, b`occupied
    ensures b.Ready() && FloorStep(z, old(b.result), old(b.occupied), b.result, b.occupied)
    ensures Searched(b.zone, z, LIGHT, bound, Pushes(b.zone, old(b.result), old(b.occupied)[z], z, vertical, shift, start),
                     old(b.result), old(b.occupied), b.result, b.occupied, improved)
  {
    hide Agrees, Score, FloorStep, Guarded, CanMove, Closed, Least, Fits, Pushable, Pushes, Applied;
    improved := false;
    ghost var r0, occ0 := b.result, b.occupied;
    FloorStepRefl(z, r0, occ0);
    var push, tooLarge := PushSet(b.zone, b.result, b.occupied[z], z, vertical, shift, start);
    PushFound(b.zone, r0, occ0[z], z, vertical, shift, start, push);
    if tooLarge { return; }
    if |push| < 2 { return; }
    if !CanMove(b.result, b.occupied[z], z, vertical, shift, push) { return; }
    if exists id :: id in push && Guarded(b.zone, b.result, z, id, MovedCell(b.result.at[id], vertical, shift)) { return; }
    PushFits(b.result, b.occupied, z, vertical, shift, push);
    improved := b.TryRelocate(z, push, PushMoves(b.result, vertical, shift, push), LIGHT, bound);
    SearchedOne(b.zone, z, LIGHT, bound, Applied(r0, z, PushMoves(r0, vertical, shift, push)), r0, occ0, b.result, b.occupied, improved);
  }

  /** The exact shift first, if there is one, then the small ones, each once. */
  function Shifts(needed: int): seq<int> {
    var s := if needed != 0 then [needed] else [];
    AddShift(AddShift(AddShift(AddShift(s, -1), 1), -2), 2)
  }

  function AddShift(s: seq<int>, n: int): seq<int> {
    if n in s then s else s + [n]
  }

  ghost function PushReaches(zone: Zone, r: Layout, cells: set<Cell>, z: int, vertical: bool, start: RoomId, shifts: seq<int>): (reaches: seq<iset<Layout>>)
    ensures |reaches| == |shifts| && forall i :: 0 <= i < |shifts| ==> reaches[i] == Pushes(zone, r, cells, z, vertical, shifts[i], start)
  {
    seq(|shifts|, i requires 0 <= i < |shifts| => Pushes(zone, r, cells, z, vertical, shifts[i], start))
  }

  function ShiftsToward(r: Layout, vertical: bool, start: RoomId, other: RoomId): seq<int>
    requires start in r.at && other in r.at
  {
    var s, o := r.at[start], r.at[other];
    Shifts(if vertical then o.x - s.x else o.y - s.y)
  }

  method PushEndpoint(b: Board, z: int, vertical: bool, start: RoomId, other: RoomId, bound: int) returns (improved: bool)
    requires b.Ready() && z in b.occupied && b.result.On(start, z) && b.result.On(other, z)
    modifies b`result, b`occupied
    ensures b.Ready() && FloorStep(z, old(b.result), old(b.occupied), b.result, b.occupied)
    ensures var shifts := ShiftsToward(old(b.result), vertical, start, other);
            Searched(b.zone, z, LIGHT, bound, Union(PushReaches(b.zone, old(b.result), old(b.occupied)[z], z, vertical, start, shifts)),
                     old(b.result), old(b.occupied), b.result, b.occupied, improved)
  {
    hide Agrees, Score, FloorStep, Searched, Pushes, Union;
    improved := false;
    ghost var r0, occ0 := b.result, b.occupied;
    FloorStepRefl(z, r0, occ0);
    var shifts := ShiftsToward(b.result, vertical, start, other);
    ghost var reaches := PushReaches(b.zone, r0, occ0[z], z, vertical, start, shifts);
    SearchedStart(b.zone, z, LIGHT, bound, reaches, r0, occ0);
    for i := 0 to |shifts|
      invariant b.Ready() && b.result == r0 && z in b.occupied && FloorStep(z, r0, occ0, r0, b.occupied)
      invariant Searched(b.zone, z, LIGHT, bound, Union(reaches[..i]), r0, occ0, r0, b.occupied, false)
    {
      ghost var occ := b.occupied;
      improved := TryPush(b, z, vertical, shifts[i], start, bound);
      FloorStepTrans(z, r0, occ0, r0, occ, b.result, b.occupied);
      SearchedStep(b.zone, z, LIGHT, bound, reaches, i, Pushes(b.zone, r0, occ[z], z, vertical, shifts[i], start), r0, occ0, occ, b.result, b.occupied, improved);
      if improved { return; }
      NotFound(b.zone, z, LIGHT, bound, Union(reaches[..i + 1]), r0, occ0, b.result, b.occupied);
      FloorKeys(z, r0, occ, b.result, b.occupied);
    }
    SearchedAll(b.zone, z, LIGHT, bound, reaches, r0, occ0, b.occupied);
  }

  // ---- One diagonal exit ----

  /** The cells that put one endpoint on the other's axis. */
  function EndTargets(r: Layout, e: Edge, vertical: bool): seq<(RoomId, Cell)>
    requires e.from in r.at && e.to in r.at
  {
    var posA, posB := r.at[e.from], r.at[e.to];
    if vertical then [(e.from, Cell(posB.x, posA.y)), (e.to, Cell(posA.x, posB.y))]
    else [(e.from, Cell(posA.x, posB.y)), (e.to, Cell(posB.x, posA.y))]
  }

  ghost function EndReaches(zone: Zone, r: Layout, cells: set<Cell>, z: int, e: Edge, vertical: bool): seq<iset<Layout>>
    requires e.from in r.at && e.to in r.at
  {
    var ends := EndTargets(r, e, vertical);
    [EndpointMoves(zone, r, cells, z, e, ends[0].0, ends[0].1), EndpointMoves(zone, r, cells, z, e, ends[1].0, ends[1].1)]
  }

  method StraightenByEnd(b: Board, z: int, e: Edge, vertical: bool, bound: int) returns (improved: bool)
    requires b.Ready() && z in b.occupied && BothOn(b.result, z, e)
    modifies b`result, b`occupied
    ensures b.Ready() && FloorStep(z, old(b.result), old(b.occupied), b.result, b.occupied)
    ensures Searched(b.zone, z, LIGHT, bound, Union(EndReaches(b.zone, old(b.result), old(b.occupied)[z], z, e, vertical)),
                     old(b.result), old(b.occupied), b.result, b.occupied, improved)
  {
    hide Agrees, Score, FloorStep, Searched, EndpointMoves, Union;
    improved := false;
    ghost var r0, occ0 := b.result, b.occupied;
    FloorStepRefl(z, r0, occ0);
    ghost var reaches := EndReaches(b.zone, r0, occ0[z], z, e, vertical);
    SearchedStart(b.zone, z, LIGHT, bound, reaches, r0, occ0);
    var endMoves := EndTargets(b.result, e, vertical);
    for i := 0 to |endMoves|
      invariant b.Ready() && b.result == r0 && z in b.occupied && FloorStep(z, r0, occ0, r0, b.occupied)
      invariant Searched(b.zone, z, LIGHT, bound, Union(reaches[..i]), r0, occ0, r0, b.occupied, false)
    {
      ghost var occ := b.occupied;
      improved := MoveEndpoint(b, z, e, endMoves[i].0, endMoves[i].1, bound);
      FloorStepTrans(z, r0, occ0, r0, occ, b.result, b.occupied);
      SearchedStep(b.zone, z, LIGHT, bound, reaches, i, EndpointMoves(b.zone, r0, occ[z], z, e, endMoves[i].0, endMoves[i].1), r0, occ0, occ, b.result, b.occupied, improved);
      if improved { return; }
      NotFound(b.zone, z, LIGHT, bound, Union(reaches[..i + 1]), r0, occ0, b.result, b.occupied);
      FloorKeys(z, r0, occ, b.result, b.occupied);
    }
    SearchedAll(b.zone, z, LIGHT, bound, reaches, r0, occ0, b.occupied);
  }

  /** Either endpoint's line, or the one in the middle. */
  function AxisTargets(r: Layout, e: Edge, vertical: bool): seq<int>
    requires e.from in r.at && e.to in r.at
  {
    var posA, posB := r.at[e.from], r.at[e.to];
    if vertical then [posA.x, posB.x, Rounded(posA.x + posB.x, 2)] else [posA.y, posB.y, Rounded(posA.y + posB.y, 2)]
  }

  ghost function PairReaches(zone: Zone, r: Layout, cells: set<Cell>, z: int, e: Edge, vertical: bool): seq<iset<Layout>>
    requires e.from in r.at && e.to in r.at && e.from != e.to
  {
    var lines := AxisTargets(r, e, vertical);
    [PairMoves(zone, r, cells, z, e, vertical, lines[0]), PairMoves(zone, r, cells, z, e, vertical, lines[1]), PairMoves(zone, r, cells, z, e, vertical, lines[2])]
  }

  method StraightenByPair(b: Board, z: int, e: Edge, vertical: bool, bound: int) returns (improved: bool)
    requires b.Ready() && z in b.occupied && BothOn(b.result, z, e) && e.from != e.to
    modifies b`result, b`occupied
    ensures b.Ready() && FloorStep(z, old(b.result), old(b.occupied), b.result, b.occupied)
    ensures Searched(b.zone, z, LIGHT, bound, Union(PairReaches(b.zone, old(b.result), old(b.occupied)[z], z, e, vertical)),
                     old(b.result), old(b.occupied), b.result, b.occupied, improved)
  {
    hide Agrees, Score, FloorStep, Searched, PairMoves, Union, Rounded;
    improved := false;
    ghost var r0, occ0 := b.result, b.occupied;
    FloorStepRefl(z, r0, occ0);
    ghost var reaches := PairReaches(b.zone, r0, occ0[z], z, e, vertical);
    SearchedStart(b.zone, z, LIGHT, bound, reaches, r0, occ0);
    var axisTargets := AxisTargets(b.result, e, vertical);
    for i := 0 to |axisTargets|
      invariant b.Ready() && b.result == r0 && z in b.occupied && FloorStep(z, r0, occ0, r0, b.occupied)
      invariant Searched(b.zone, z, LIGHT, bound, Union(reaches[..i]), r0, occ0, r0, b.occupied, false)
    {
      ghost var occ := b.occupied;
      improved := MovePair(b, z, e, vertical, axisTargets[i], bound);
      FloorStepTrans(z, r0, occ0, r0, occ, b.result, b.occupied);
      SearchedStep(b.zone, z, LIGHT, bound, reaches, i, PairMoves(b.zone, r0, occ[z], z, e, vertical, axisTargets[i]), r0, occ0, occ, b.result, b.occupied, improved);
      if improved { return; }
      NotFound(b.zone, z, LIGHT, bound, Union(reaches[..i + 1]), r0, occ0, b.result, b.occupied);
      FloorKeys(z, r0, occ, b.result, b.occupied);
    }
    SearchedAll(b.zone, z, LIGHT, bound, reaches, r0, occ0, b.occupied);
  }

  ghost function EndPushes(zone: Zone, r: Layout, cells: set<Cell>, z: int, e: Edge, vertical: bool): seq<iset<Layout>>
    requires e.from in r.at && e.to in r.at
  {
    [Union(PushReaches(zone, r, cells, z, vertical, e.from, ShiftsToward(r, vertical, e.from, e.to))),
     Union(PushReaches(zone, r, cells, z, vertical, e.to, ShiftsToward(r, vertical, e.to, e.from)))]
  }

  method StraightenByPush(b: Board, z: int, e: Edge, vertical: bool, bound: int) returns (improved: bool)
    requires b.Ready() && z in b.occupied && BothOn(b.result, z, e)
    modifies b`result, b`occupied
    ensures b.Ready() && FloorStep(z, old(b.result), old(b.occupied), b.result, b.occupied)
    ensures Searched(b.zone, z, LIGHT, bound, Union(EndPushes(b.zone, old(b.result), old(b.occupied)[z], z, e, vertical)),
                     old(b.result), old(b.occupied), b.result, b.occupied, improved)
  {
    hide Agrees, Score, FloorStep, Searched, PushReaches, Union, ShiftsToward;
    improved := false;
    ghost var r0, occ0 := b.result, b.occupied;
    FloorStepRefl(z, r0, occ0);
    ghost var reaches := EndPushes(b.zone, r0, occ0[z], z, e, vertical);
    SearchedStart(b.zone, z, LIGHT, bound, reaches, r0, occ0);
    var starts := [(e.from, e.to), (e.to, e.from)];
    for i := 0 to |starts|
      invariant b.Ready() && b.result == r0 && z in b.occupied && FloorStep(z, r0, occ0, r0, b.occupied)
      invariant Searched(b.zone, z, LIGHT, bound, Union(reaches[..i]), r0, occ0, r0, b.occupied, false)
    {
      ghost var occ := b.occupied;
      var start, other := starts[i].0, starts[i].1;
      improved := PushEndpoint(b, z, vertical, start, other, bound);
      FloorStepTrans(z, r0, occ0, r0, occ, b.result, b.occupied);
      SearchedStep(b.zone, z, LIGHT, bound, reaches, i, Union(PushReaches(b.zone, r0, occ[z], z, vertical, start, ShiftsToward(r0, vertical, start, other))),
                   r0, occ0, occ, b.result, b.occupied, improved);
      if improved { return; }
      NotFound(b.zone, z, LIGHT, bound, Union(reaches[..i + 1]), r0, occ0, b.result, b.occupied);
      FloorKeys(z, r0, occ, b.result, b.occupied);
    }
    SearchedAll(b.zone, z, LIGHT, bound, reaches, r0, occ0, b.occupied);
  }

  /** Everything the three strategies may try for a diagonal exit. */
  ghost function Straightenings(zone: Zone, r: Layout, cells: set<Cell>, z: int, e: Edge): iset<Layout>
  {
    if !BothOn(r, z, e) || e.from == e.to then iset{}
    else
      var vertical := Off(e.dir).dy != 0;
      Union(EndReaches(zone, r, cells, z, e, vertical)) + Union(PairReaches(zone, r, cells, z, e, vertical)) + Union(EndPushes(zone, r, cells, z, e, vertical))
  }

  /** One diagonal exit: the first thing tried that brings the score below the bound, if any does. */
  method Straighten(b: Board, z: int, e: Edge, bound: int) returns (improved: bool)
    requires b.Ready() && z in b.occupied && BothOn(b.result, z, e) && Diagonal(b.result.at[e.from], b.result.at[e.to])
    modifies b`result, b`occupied
    ensures b.Ready() && FloorStep(z, old(b.result), old(b.occupied), b.result, b.occupied)
    ensures Searched(b.zone, z, LIGHT, bound, Straightenings(b.zone, old(b.result), old(b.occupied)[z], z, e),
                     old(b.result), old(b.occupied), b.result, b.occupied, improved)
  {
    hide Agrees, Score, FloorStep, Searched, EndReaches, PairReaches, EndPushes, Union;
    ghost var r0, occ0 := b.result, b.occupied;
    var vertical := Off(e.dir).dy != 0;
    ghost var ends, pairs, pushes := Union(EndReaches(b.zone, r0, occ0[z], z, e, vertical)), Union(PairReaches(b.zone, r0, occ0[z], z, e, vertical)),
      Union(EndPushes(b.zone, r0, occ0[z], z, e, vertical));
    improved := StraightenByEnd(b, z, e, vertical, bound);
    if improved {
      SearchedPart(b.zone, z, LIGHT, bound, ends, ends + pairs + pushes, r0, occ0, b.result, b.occupied);
      return;
    }
    NotFound(b.zone, z, LIGHT, bound, ends, r0, occ0, b.result, b.occupied);
    FloorKeys(z, r0, occ0, b.result, b.occupied);
    ghost var occ := b.occupied;
    improved := StraightenByPair(b, z, e, vertical, bound);
    FloorStepTrans(z, r0, occ0, r0, occ, b.result, b.occupied);
    SearchedOr(b.zone, z, LIGHT, bound, ends, Union(PairReaches(b.zone, r0, occ[z], z, e, vertical)), pairs, r0, occ0, occ, b.result, b.occupied, improved);
    if improved {
      SearchedPart(b.zone, z, LIGHT, bound, ends + pairs, ends + pairs + pushes, r0, occ0, b.result, b.occupied);
      return;
    }
    NotFound(b.zone, z, LIGHT, bound, ends + pairs, r0, occ0, b.result, b.occupied);
    FloorKeys(z, r0, occ, b.result, b.occupied);
    occ := b.occupied;
    improved := StraightenByPush(b, z, e, vertical, bound);
    FloorStepTrans(z, r0, occ0, r0, occ, b.result, b.occupied);
    SearchedOr(b.zone, z, LIGHT, bound, ends + pairs, Union(EndPushes(b.zone, r0, occ[z], z, e, vertical)), pushes, r0, occ0, occ, b.result, b.occupied, improved);
  }

  // ---- One floor ----

  /** What may be tried on the floor: the straightenings of every diagonal exit. */
  ghost predicate Straightens(zone: Zone, r: Layout, cells: set<Cell>, z: int, x: Layout) {
    exists e :: e in AllOut(zone, r.order) && DiagonalFn(r, z)(e) == 1 && x in Straightenings(zone, r, cells, z, e)
  }

  ghost function CascadeMoves(zone: Zone, r: Layout, cells: set<Cell>, z: int): iset<Layout> {
    iset x: Layout | Straightens(zone, r, cells, z, x)
  }

  ghost function DiagReaches(zone: Zone, r: Layout, cells: set<Cell>, z: int, diags: seq<Edge>): (reaches: seq<iset<Layout>>)
    ensures |reaches| == |diags| && forall i :: 0 <= i < |diags| ==> reaches[i] == Straightenings(zone, r, cells, z, diags[i])
  {
    seq(|diags|, i requires 0 <= i < |diags| => Straightenings(zone, r, cells, z, diags[i]))
  }

  lemma DiagReachesAll(zone: Zone, r: Layout, cells: set<Cell>, z: int, diags: seq<Edge>)
    requires forall e :: e in diags <==> e in AllOut(zone, r.order) && DiagonalFn(r, z)(e) == 1
    ensures Union(DiagReaches(zone, r, cells, z, diags)) == CascadeMoves(zone, r, cells, z)
  {
    hide Straightenings, DiagReaches, DiagonalFn, AllOut;
    var reaches := DiagReaches(zone, r, cells, z, diags);
    forall x ensures x in Union(reaches) <==> x in CascadeMoves(zone, r, cells, z) {
      if x in Union(reaches) {
        var i :| 0 <= i < |reaches| && x in reaches[i];
        assert diags[i] in diags;
      }
      if x in CascadeMoves(zone, r, cells, z) {
        var e :| e in AllOut(zone, r.order) && DiagonalFn(r, z)(e) == 1 && x in Straightenings(zone, r, cells, z, e);
        var i :| 0 <= i < |diags| && diags[i] == e;
        assert x in reaches[i];
      }
    }
  }

  /** One pass: the first move that brings the score down ends it; if it ends without one, no move
      of any strategy for any diagonal exit would bring it down. */
  method CascadePass(b: Board, z: int) returns (improved: bool)
    requires b.Ready() && z in b.occupied
    modifies b`result, b`occupied
    ensures b.Ready() && FloorStep(z, old(b.result), old(b.occupied), b.result, b.occupied)
    ensures Searched(b.zone, z, LIGHT, Score(b.zone, old(b.result), z, LIGHT), CascadeMoves(b.zone, old(b.result), old(b.occupied)[z], z),
                     old(b.result), old(b.occupied), b.result, b.occupied, improved)
    ensures Diagonals(b.zone, old(b.result), z) == 0 ==> !improved && b.occupied == old(b.occupied)
  {
    hide Agrees, Score, FloorStep, Flagged, Searched, Straightenings, Union, CascadeMoves;
    improved := false;
    ghost var r0, occ0 := b.result, b.occupied;
    FloorStepRefl(z, r0, occ0);
    var diags := Flagged(AllOut(b.zone, b.result.order), DiagonalFn(b.result, z));
    FlaggedCount(b.zone, r0, DiagonalFn(r0, z));
    FlaggedMembers(AllOut(b.zone, r0.order), DiagonalFn(r0, z));
    DiagReachesAll(b.zone, r0, occ0[z], z, diags);
    ghost var reaches := DiagReaches(b.zone, r0, occ0[z], z, diags);
    var currentScore := Score(b.zone, b.result, z, LIGHT);
    SearchedStart(b.zone, z, LIGHT, currentScore, reaches, r0, occ0);
    if diags == [] {
      SearchedAll(b.zone, z, LIGHT, currentScore, reaches, r0, occ0, occ0);
      return;
    }
    for i := 0 to |diags|
      invariant b.Ready() && b.result == r0 && z in b.occupied && FloorStep(z, r0, occ0, r0, b.occupied)
      invariant Searched(b.zone, z, LIGHT, currentScore, Union(reaches[..i]), r0, occ0, r0, b.occupied, false)
    {
      assert diags[i] in diags;
      ghost var occ := b.occupied;
      improved := Straighten(b, z, diags[i], currentScore);
      FloorStepTrans(z, r0, occ0, r0, occ, b.result, b.occupied);
      SearchedStep(b.zone, z, LIGHT, currentScore, reaches, i, Straightenings(b.zone, r0, occ[z], z, diags[i]), r0, occ0, occ, b.result, b.occupied, improved);
      if improved { return; }
      NotFound(b.zone, z, LIGHT, currentScore, Union(reaches[..i + 1]), r0, occ0, b.result, b.occupied);
      FloorKeys(z, r0, occ, b.result, b.occupied);
    }
    SearchedAll(b.zone, z, LIGHT, currentScore, reaches, r0, occ0, b.occupied);
  }

  /** No move of any strategy for any diagonal exit of the floor lowers its score. */
  ghost predicate CascadeStuck(zone: Zone, r: Layout, occ: Occupancy, z: int)
    requires z in occ
  {
    forall x :: x in CascadeMoves(zone, r, occ[z], z) ==> Score(zone, r, z, LIGHT) <= Score(zone, x, z, LIGHT)
  }

  /** Each pass but the last lowers the score, and short of the cap none of the strategies is left
      with a move that would lower it further. */
  method CascadeDiagonals(b: Board, z: int) returns (ghost done: nat)
    requires b.Ready() && z in b.occupied
    modifies b`result, b`occupied
    ensures b.Ready() && Improves(b.zone, z, LIGHT, old(b.result), old(b.occupied), b.result, b.occupied)
    ensures Score(b.zone, b.result, z, LIGHT) + done <= Score(b.zone, old(b.result), z, LIGHT)
    ensures z in b.occupied && done <= DIAGONAL_CASCADE_PASSES
    ensures done < DIAGONAL_CASCADE_PASSES && Agrees(old(b.result), old(b.occupied)) ==> CascadeStuck(b.zone, b.result, b.occupied, z)
    ensures Diagonals(b.zone, old(b.result), z) == 0 ==> b.result == old(b.result) && b.occupied == old(b.occupied)
  {
    hide Agrees, Score, FloorStep, Improves, Diagonals, CascadeMoves;
    ghost var r0, occ0 := b.result, b.occupied;
    ImprovesRefl(b.zone, z, LIGHT, r0, occ0);
    done := 0;
    for pass := 0 to DIAGONAL_CASCADE_PASSES
      invariant b.Ready() && Improves(b.zone, z, LIGHT, r0, occ0, b.result, b.occupied)
      invariant done == pass && z in b.occupied && Score(b.zone, b.result, z, LIGHT) + done <= Score(b.zone, r0, z, LIGHT)
      invariant Diagonals(b.zone, r0, z) == 0 ==> b.result == r0 && b.occupied == occ0
    {
      ghost var r, occ := b.result, b.occupied;
      ImprovesParts(b.zone, z, LIGHT, r0, occ0, r, occ);
      ImprovesStep(b.zone, z, LIGHT, r0, occ0, r, occ);
      StepAgrees(z, r0, occ0, r, occ);
      var improved := CascadePass(b, z);
      StepImproves(b.zone, z, LIGHT, r, occ, b.result, b.occupied, improved);
      ImprovesTrans(b.zone, z, LIGHT, r0, occ0, r, occ, b.result, b.occupied);
      ImprovesParts(b.zone, z, LIGHT, r0, occ0, b.result, b.occupied);
      if !improved { break; }
      done := done + 1;
    }
  }

  /** How phase 5 went on a floor: so many passes until no strategy had a move left, then so many
      rounds of relaxation until every room was at rest, unless either count reached its cap. */
  datatype Cascade = Cascade(middle: Layout, midOcc: Occupancy, passes: nat, rounds: nat)

  ghost predicate Cascaded(zone: Zone, z: int, r: Layout, occ: Occupancy, how: Cascade, r': Layout, occ': Occupancy) {
    && Improves(zone, z, LIGHT, r, occ, how.middle, how.midOcc) && FloorStep(z, how.middle, how.midOcc, r', occ')
    && Score(zone, how.middle, z, LIGHT) + how.passes <= Score(zone, r, z, LIGHT)
    && Score(zone, r', z, RelaxationScore) + how.rounds <= Score(zone, how.middle, z, RelaxationScore)
    && (Agrees(r, occ) ==>
         && (how.passes == DIAGONAL_CASCADE_PASSES || (z in how.midOcc && CascadeStuck(zone, how.middle, how.midOcc, z)))
         && (|| Score(zone, r', z, RelaxationScore) == 0 || how.rounds == POST_DIAGONAL_RELAX_ITERATIONS
             || (z in occ' && AllAtRest(zone, r', occ'[z], z, RelaxationScore, POST_DIAGONAL_CANDIDATE_RADIUS, 0))))
  }

  /** Phase 5 on one floor; a perfect floor is left alone. */
  method FixDiagonalFloor(b: Board, z: int) returns (ghost how: Cascade)
    requires b.Ready() && z in b.occupied
    modifies b`result, b`occupied
    ensures b.Ready() && FloorStep(z, old(b.result), old(b.occupied), b.result, b.occupied)
    ensures Cascaded(b.zone, z, old(b.result), old(b.occupied), how, b.result, b.occupied)
    ensures Perfect(b.zone, old(b.result), z) ==> b.result == old(b.result) && b.occupied == old(b.occupied)
  {
    hide Agrees, Score, FloorStep, Improves, Perfect, Diagonals, Mismatches, NoLoops, ReadyState, AtRest, CascadeStuck, FloorRoomsOf;
    ghost var r0, occ0 := b.result, b.occupied;
    PerfectScores(b.zone, r0, b.floors, occ0, z);
    ghost var passes := CascadeDiagonals(b, z);
    ghost var middle, occ := b.result, b.occupied;
    ImprovesParts(b.zone, z, LIGHT, r0, occ0, middle, occ);
    ImprovesStep(b.zone, z, LIGHT, r0, occ0, middle, occ);
    StepAgrees(z, r0, occ0, middle, occ);
    FloorStepRefl(z, middle, occ);
    var score := Score(b.zone, b.result, z, RelaxationScore);
    var zRooms := FloorRooms(b.result, z);
    how := Cascade(middle, occ, passes, 0);
    if score > 0 {
      ghost var done;
      score, done := MoveRounds(b, zRooms, z, score, RelaxationScore, POST_DIAGONAL_RELAX_ITERATIONS, POST_DIAGONAL_CANDIDATE_RADIUS, 0);
      FloorStepTrans(z, r0, occ0, middle, occ, b.result, b.occupied);
      SameFloorRooms(z, middle, occ, b.result, b.occupied);
      how := how.(rounds := done);
    }
    ScoreZeroIffPerfect(b.zone, b.result, z, RelaxationScore);
  }

  lemma PerfectScores(zone: Zone, r: Layout, floors: seq<int>, occ: Occupancy, z: int)
    requires ReadyState(zone, r, floors, occ)
    ensures Perfect(zone, r, z) ==> Diagonals(zone, r, z) == 0 && Mismatches(zone, r, z) == 0 && Score(zone, r, z, RelaxationScore) == 0
  {
    if Perfect(zone, r, z) {
      Segments.PerfectIsClear(zone, r, z);
      ScoreZeroIffPerfect(zone, r, z, RelaxationScore);
    }
  }

  ghost predicate CascadeRun(zone: Zone, floors: seq<int>, s: State, s': State, run: seq<State>, how: seq<Cascade>) {
    && Run(run, |floors|, s, s') && |how| == |floors|
    && forall i :: 0 <= i < |floors| ==> Cascaded(zone, floors[i], run[i].r, run[i].occ, how[i], run[i + 1].r, run[i + 1].occ)
  }

  /** The phase took the floors in turn. */
  ghost predicate CascadedAll(zone: Zone, floors: seq<int>, s: State, s': State) {
    exists run, how :: CascadeRun(zone, floors, s, s', run, how)
  }

  /** Phase 5: the diagonal exits of every floor in turn. */
  method FixDiagonalCascade(b: Board)
    requires b.Ready()
    modifies b`result, b`occupied
    ensures b.Ready() && Kept(old(b.result), old(b.occupied), b.result, b.occupied)
    ensures AllPerfect(b.zone, old(b.result)) ==> b.result == old(b.result) && b.occupied == old(b.occupied)
    ensures CascadedAll(b.zone, b.floors, State(old(b.result), old(b.occupied)), State(b.result, b.occupied))
  {
    hide Agrees, Score, Perfect, FloorStep, Kept, Cascaded;
    ghost var r0, occ0 := b.result, b.occupied;
    KeptRefl(r0, occ0);
    ghost var run, how: seq<Cascade> := [State(r0, occ0)], [];
    for i := 0 to |b.floors|
      invariant b.Ready() && Kept(r0, occ0, b.result, b.occupied)
      invariant AllPerfect(b.zone, r0) ==> b.result == r0 && b.occupied == occ0
      invariant Run(run, i, State(r0, occ0), State(b.result, b.occupied)) && |how| == i
      invariant forall j :: 0 <= j < i ==> Cascaded(b.zone, b.floors[j], run[j].r, run[j].occ, how[j], run[j + 1].r, run[j + 1].occ)
    {
      assert b.floors[i] in b.floors;
      ghost var r, occ := b.result, b.occupied;
      ghost var here := FixDiagonalFloor(b, b.floors[i]);
      KeptStep(b.floors[i], r0, occ0, r, occ, b.result, b.occupied);
      run, how := run + [State(b.result, b.occupied)], how + [here];
    }
    assert CascadeRun(b.zone, b.floors, State(r0, occ0), State(b.result, b.occupied), run, how);
  }
}
