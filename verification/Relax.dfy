/** Phase 4: force-directed relaxation by single-room moves and pairwise swaps. */
module Relax {
  import opened Sums
  import opened Zones
  import opened Boards
  import opened Scores
  import opened Guards
  import opened Diamond

  const FORCE_RELAXATION_ITERATIONS := 200
  const RELAX_CANDIDATE_RADIUS := 4
  const NEIGHBOR_CANDIDATE_RADIUS := 2
  const SWAP_ITERATIONS := 50
  const POST_SWAP_MOVE_ITERATIONS := 50

  // ---- Candidate cells ----

  /** Where the neighbours on the floor want the room: their cell less the exit's offset. */
  function Wants(r: Layout, z: int, out: seq<Edge>): seq<Cell> {
    if out == [] then []
    else
      var e := out[0];
      (if Known(e.dir) && r.On(e.to, z) then [Cell(r.at[e.to].x - Off(e.dir).dx, r.at[e.to].y - Off(e.dir).dy)] else [])
      + Wants(r, z, out[1..])
  }

  /** Math.round of sum / count. */
  function Rounded(sum: int, count: nat): int
    requires count > 0
  {
    (2 * sum + count) / (2 * count)
  }

  /** The average of the wanted cells, if any neighbour is on the floor. */
  function IdealPosition(zone: Zone, r: Layout, z: int, id: RoomId): Option<Cell> {
    var wants := Wants(r, z, zone.Out(id));
    if wants == [] then None
    else Some(Cell(Rounded(Sum(wants, (c: Cell) => c.x), |wants|), Rounded(Sum(wants, (c: Cell) => c.y), |wants|)))
  }

  /** Add the cells of a diamond that are not listed yet. */
  method AddDiamond(cells: seq<Cell>, centre: Cell, lo: nat, hi: nat) returns (cells': seq<Cell>)
    requires NoDup(cells)
    ensures NoDup(cells') && cells <= cells'
    ensures forall c :: c in cells' <==> c in cells || lo <= Dist(centre, c) <= hi
  {
    cells' := cells;
    RingsMembers(centre, lo, hi);
    var ring := Rings(centre, lo, hi);
    for i := 0 to |ring|
      invariant NoDup(cells') && cells <= cells'
      invariant forall c :: c in cells' <==> c in cells || c in ring[..i]
    {
      assert ring[..i + 1] == ring[..i] + [ring[i]];
      if ring[i] !in cells' { cells' := cells' + [ring[i]]; }
    }
    assert ring[..|ring|] == ring;
  }

  /** The cells near the ideal one, then those near each wanted one. */
  method Candidates(start: seq<Cell>, wants: seq<Cell>, radius: nat) returns (cells: seq<Cell>)
    requires NoDup(start)
    ensures NoDup(cells) && start <= cells
    ensures forall c :: c in cells <==> c in start || exists w :: w in wants && Dist(w, c) <= radius
  {
    cells := start;
    for i := 0 to |wants|
      invariant NoDup(cells) && start <= cells
      invariant forall c :: c in cells <==> c in start || exists w :: w in wants[..i] && Dist(w, c) <= radius
    {
      assert wants[..i + 1] == wants[..i] + [wants[i]];
      cells := AddDiamond(cells, wants[i], 0, radius);
    }
    assert wants[..|wants|] == wants;
  }

  // ---- The best move of one room ----

  /** The guards a phase puts on single moves. */
  datatype Guard = KeepAlignment | NoNewDiagonal

  predicate WouldCreateDiag(zone: Zone, r: Layout, z: int, id: RoomId, c: Cell) {
    exists e :: e in zone.Out(id) && r.On(e.to, z) && Diagonal(At(c, z), r.at[e.to])
  }

  predicate Refused(zone: Zone, r: Layout, z: int, guard: Guard, id: RoomId, c: Cell) {
    match guard
    case KeepAlignment => MoveWouldIncreaseMismatches(zone, r, z, id, c) || MoveWouldBreakAlignment(zone, r, z, id, c)
    case NoNewDiagonal => WouldCreateDiag(zone, r, z, id, c) || MoveWouldIncreaseMismatches(zone, r, z, id, c)
  }

  /** A move the phase may try: to another cell, free, and not refused. */
  predicate Allowed(zone: Zone, r: Layout, cells: set<Cell>, z: int, guard: Guard, id: RoomId, c: Cell)
    requires id in r.at
  {
    c != r.at[id].AtCell() && c !in cells && !Refused(zone, r, z, guard, id, c)
  }

  lemma AllowedKeepsMismatches(zone: Zone, r: Layout, cells: set<Cell>, z: int, guard: Guard, id: RoomId, c: Cell)
    requires Whole(zone, r) && r.On(id, z) && Allowed(zone, r, cells, z, guard, id, c) && NoLoops(zone)
    ensures Mismatches(zone, Moved(r, id, c, z), z) <= Mismatches(zone, r, z)
  {
    MoveGuardExact(zone, r, z, id, c);
    NoLoopSlack(zone, r, z, id, c);
  }

  ghost predicate NoLoops(zone: Zone) {
    forall id, e :: e in zone.Out(id) ==> e.to != id
  }

  lemma NoLoopSlack(zone: Zone, r: Layout, z: int, id: RoomId, c: Cell)
    requires NoLoops(zone) && id in r.at
    ensures LoopSlack(zone, r, z, id, c) == 0
  {
    IntoMembers(zone.Out(id), id);
    SumZeros(LoopsOf(zone, id), LoopSlackFn(r, z, id, c));
  }

  /** Move a room, take the score, and move it back. */
  method Trial(b: Board, z: int, id: RoomId, c: Cell, fn: ScoreFn) returns (newScore: int)
    requires b.Ready() && z in b.occupied && b.result.On(id, z) && c !in b.occupied[z]
    modifies b`result, b`occupied
    ensures b.Ready() && b.result == old(b.result) && FloorStep(z, old(b.result), old(b.occupied), b.result, b.occupied)
    ensures Agrees(old(b.result), old(b.occupied)) ==> b.occupied == old(b.occupied)
    ensures z in b.occupied && forall d :: d != b.result.at[id].AtCell() ==> (d in b.occupied[z] <==> d in old(b.occupied)[z])
    ensures newScore == Score(b.zone, Moved(b.result, id, c, z), z, fn)
  {
    hide Agrees, Score, SameFloors;
    var home := b.result.at[id].AtCell();
    ghost var r, occ := b.result, b.occupied;
    MovedBack(r, occ, z, id, c);
    b.MoveRoom(id, c, z);
    newScore := Score(b.zone, b.result, z, fn);
    b.MoveRoom(id, home, z);
    UndoneStep(z, r, occ, b.result, b.occupied);
  }

  /** Try every candidate, taking each trial back, and report the one with the lowest score
      below the bound. */
  method BestMove(b: Board, z: int, id: RoomId, cands: seq<Cell>, guard: Guard, fn: ScoreFn, bound: int)
    returns (best: Option<Cell>, bestScore: int)
    requires b.Ready() && z in b.occupied && b.result.On(id, z)
    modifies b`result, b`occupied
    ensures b.Ready() && b.result == old(b.result) && FloorStep(z, old(b.result), old(b.occupied), b.result, b.occupied)
    ensures Agrees(old(b.result), old(b.occupied)) ==> b.occupied == old(b.occupied)
    ensures best.None? ==> bestScore == bound
    ensures best.Some? ==> best.value in cands && best.value !in b.occupied[z]
                           && Allowed(b.zone, b.result, old(b.occupied)[z], z, guard, id, best.value)
                           && bestScore == Score(b.zone, Moved(b.result, id, best.value, z), z, fn) < bound
    ensures forall c :: c in cands && Allowed(b.zone, b.result, old(b.occupied)[z], z, guard, id, c) ==>
      bestScore <= Score(b.zone, Moved(b.result, id, c, z), z, fn)
  {
    hide Agrees, Refused, Score, FloorStep, Moved;
    best, bestScore := None, bound;
    ghost var r, occ := b.result, b.occupied;
    var home := b.result.at[id].AtCell();
    FloorStepRefl(z, r, occ);
    for i := 0 to |cands|
      invariant b.Ready() && b.result == r && FloorStep(z, r, occ, b.result, b.occupied)
      invariant Agrees(r, occ) ==> b.occupied == occ
      invariant z in b.occupied && forall c :: c != home ==> (c in b.occupied[z] <==> c in occ[z])
      invariant best.None? ==> bestScore == bound
      invariant best.Some? ==> best.value in cands && Allowed(b.zone, r, occ[z], z, guard, id, best.value)
      invariant best.Some? ==> bestScore == Score(b.zone, Moved(r, id, best.value, z), z, fn) < bound
      invariant bestScore <= bound
      invariant forall j :: 0 <= j < i && Allowed(b.zone, r, occ[z], z, guard, id, cands[j]) ==>
        bestScore <= Score(b.zone, Moved(r, id, cands[j], z), z, fn)
    {
      var cand := cands[i];
      if cand == home { continue; }
      if cand in b.occupied[z] { continue; }
      if Refused(b.zone, b.result, z, guard, id, cand) { continue; }
      ghost var occ1 := b.occupied;
      var newScore := Trial(b, z, id, cand, fn);
      FloorStepTrans(z, r, occ, r, occ1, b.result, b.occupied);
      if newScore < bestScore {
        bestScore := newScore;
        best := Some(cand);
      }
    }
  }

  /** Relax one room: the best allowed candidate that brings the score below the running one. */
  method MoveToBest(b: Board, z: int, id: RoomId, cands: seq<Cell>, guard: Guard, fn: ScoreFn, score: int)
    returns (score': int, moved: bool)
    requires b.Ready() && z in b.occupied && b.result.On(id, z)
    modifies b`result, b`occupied
    ensures b.Ready() && FloorStep(z, old(b.result), old(b.occupied), b.result, b.occupied)
    ensures !moved ==> b.result == old(b.result) && score' == score
    ensures !moved && Agrees(old(b.result), old(b.occupied)) ==> b.occupied == old(b.occupied)
    ensures forall c :: c in cands && Allowed(b.zone, old(b.result), old(b.occupied)[z], z, guard, id, c) ==>
      score' <= Score(b.zone, Moved(old(b.result), id, c, z), z, fn)
    ensures moved ==> score' == Score(b.zone, b.result, z, fn) < score
    ensures moved ==>
      exists c :: c in cands && Allowed(b.zone, old(b.result), old(b.occupied)[z], z, guard, id, c)
                  && b.result == Moved(old(b.result), id, c, z)
    ensures NoLoops(b.zone) ==> Mismatches(b.zone, b.result, z) <= Mismatches(b.zone, old(b.result), z)
  {
    hide Agrees, Score, SameFloors, Allowed, Mismatches, NoLoops;
    var best, bestScore := BestMove(b, z, id, cands, guard, fn, score);
    score', moved := score, false;
    if best.Some? {
      ghost var r, occ := b.result, b.occupied;
      MovedStep(r, occ, z, id, best.value);
      if NoLoops(b.zone) {
        AllowedKeepsMismatches(b.zone, r, old(b.occupied)[z], z, guard, id, best.value);
      }
      b.MoveRoom(id, best.value, z);
      FloorStepTrans(z, old(b.result), old(b.occupied), r, occ, b.result, b.occupied);
      score', moved := bestScore, true;
    }
  }

  /** The cells a relaxation pass tries for a room. */
  ghost predicate Reaches(zone: Zone, r: Layout, z: int, radius: nat, wantRadius: nat, id: RoomId, c: Cell) {
    var ideal := IdealPosition(zone, r, z, id);
    && id in r.at && ideal.Some? && ideal.value != r.at[id].AtCell()
    && (Dist(ideal.value, c) <= radius || exists w :: w in Wants(r, z, zone.Out(id)) && Dist(w, c) <= wantRadius)
  }

  /** No allowed move of the room to a cell the pass tries brings the score below the running one. */
  ghost predicate AtRest(zone: Zone, r: Layout, cells: set<Cell>, z: int, fn: ScoreFn, radius: nat, wantRadius: nat, score: int, id: RoomId) {
    id in r.at && forall c :: Reaches(zone, r, z, radius, wantRadius, id, c) && Allowed(zone, r, cells, z, KeepAlignment, id, c) ==>
      score <= Score(zone, Moved(r, id, c, z), z, fn)
  }

  /** Relax one room: it moves to a better cell, or none is to be had. */
  method RelaxOne(b: Board, z: int, id: RoomId, score: int, fn: ScoreFn, radius: nat, wantRadius: nat) returns (score': int, moved: bool)
    requires b.Ready() && z in b.occupied && b.result.On(id, z)
    modifies b`result, b`occupied
    ensures b.Ready() && FloorStep(z, old(b.result), old(b.occupied), b.result, b.occupied)
    ensures !moved ==> b.result == old(b.result) && score' == score
    ensures !moved && Agrees(old(b.result), old(b.occupied)) ==> b.occupied == old(b.occupied)
    ensures !moved ==> AtRest(b.zone, b.result, old(b.occupied)[z], z, fn, radius, wantRadius, score, id)
    ensures moved ==> score' == Score(b.zone, b.result, z, fn) < score
    ensures NoLoops(b.zone) ==> Mismatches(b.zone, b.result, z) <= Mismatches(b.zone, old(b.result), z)
  {
    hide Agrees, Score, Allowed, Mismatches, NoLoops, FloorStep, IdealPosition, Wants, Dist, Moved;
    FloorStepRefl(z, b.result, b.occupied);
    score', moved := score, false;
    var ideal := IdealPosition(b.zone, b.result, z, id);
    if ideal.None? { return; }
    if ideal.value == b.result.at[id].AtCell() { return; }
    var near := AddDiamond([], ideal.value, 0, radius);
    var cands := Candidates(near, Wants(b.result, z, b.zone.Out(id)), wantRadius);
    score', moved := MoveToBest(b, z, id, cands, KeepAlignment, fn, score);
  }

  /** One pass of single-room relaxation. The returned score is the floor's score whenever a
      room moved, it never rises, and it falls exactly when a room moved; when none did, every
      room is at rest. */
  method RelaxRooms(b: Board, zRoomIds: seq<RoomId>, z: int, startScore: int, fn: ScoreFn, radius: nat, wantRadius: nat)
    returns (score: int, improved: bool)
    requires b.Ready() && z in b.occupied && forall id :: id in zRoomIds ==> b.result.On(id, z)
    modifies b`result, b`occupied
    ensures b.Ready() && FloorStep(z, old(b.result), old(b.occupied), b.result, b.occupied)
    ensures score <= startScore && (improved <==> score < startScore)
    ensures improved ==> score == Score(b.zone, b.result, z, fn)
    ensures !improved ==> b.result == old(b.result)
    ensures !improved && Agrees(old(b.result), old(b.occupied)) ==>
      b.occupied == old(b.occupied)
      && forall id :: id in zRoomIds ==> AtRest(b.zone, b.result, old(b.occupied)[z], z, fn, radius, wantRadius, score, id)
    ensures startScore == Score(b.zone, old(b.result), z, fn) ==> score == Score(b.zone, b.result, z, fn)
    ensures NoLoops(b.zone) ==> Mismatches(b.zone, b.result, z) <= Mismatches(b.zone, old(b.result), z)
  {
    hide Agrees, Score, AtRest, Mismatches, NoLoops, FloorStep;
    score, improved := startScore, false;
    ghost var r0, occ0 := b.result, b.occupied;
    FloorStepRefl(z, r0, occ0);
    for i := 0 to |zRoomIds|
      invariant b.Ready() && z in b.occupied && FloorStep(z, r0, occ0, b.result, b.occupied)
      invariant score <= startScore && (improved <==> score < startScore)
      invariant improved ==> score == Score(b.zone, b.result, z, fn)
      invariant !improved ==> b.result == r0
      invariant !improved && Agrees(r0, occ0) ==>
        b.occupied == occ0 && forall id :: id in zRoomIds[..i] ==> AtRest(b.zone, r0, occ0[z], z, fn, radius, wantRadius, score, id)
      invariant NoLoops(b.zone) ==> Mismatches(b.zone, b.result, z) <= Mismatches(b.zone, r0, z)
    {
      var id := zRoomIds[i];
      TakeStep(zRoomIds, i);
      ghost var r, occ := b.result, b.occupied;
      StillOn(z, r0, occ0, r, occ, id);
      var moved;
      score, moved := RelaxOne(b, z, id, score, fn, radius, wantRadius);
      FloorStepTrans(z, r0, occ0, r, occ, b.result, b.occupied);
      FloorKeys(z, r0, occ0, b.result, b.occupied);
      if moved { improved := true; }
    }
    TakeAll(zRoomIds);
  }

  lemma StillOn(z: int, r: Layout, occ: Occupancy, r': Layout, occ': Occupancy, id: RoomId)
    requires FloorStep(z, r, occ, r', occ')
    ensures forall y :: r.On(id, y) <==> r'.On(id, y)
  {
    hide Agrees;
  }

  lemma FloorKeys(z: int, r: Layout, occ: Occupancy, r': Layout, occ': Occupancy)
    requires FloorStep(z, r, occ, r', occ')
    ensures occ'.Keys == occ.Keys && r'.order == r.order
  {
    hide Agrees;
  }

  // ---- Swaps scored by difference ----

  /** Write the new cells of two rooms into a snapshot. */
  function Retarget(zPositions: seq<Placed>, a: RoomId, cellA: Cell, b: RoomId, cellB: Cell): seq<Placed> {
    if zPositions == [] then []
    else
      var o := zPositions[0];
      [if o.id == a then Placed(a, cellA) else if o.id == b then Placed(b, cellB) else o]
      + Retarget(zPositions[1..], a, cellA, b, cellB)
  }

  lemma {:induction false} RetargetSnapshot(r: Layout, z: int, a: RoomId, b: RoomId, ids: seq<RoomId>)
    requires r.Valid() && r.On(a, z) && r.On(b, z) && a != b
    ensures Retarget(SnapshotOf(r, z, ids), a, r.at[b].AtCell(), b, r.at[a].AtCell()) == SnapshotOf(Swapped(r, a, b), z, ids)
  {
    if ids != [] {
      RetargetSnapshot(r, z, a, b, ids[1..]);
      var tail := SnapshotOf(r, z, ids[1..]);
      var r' := Swapped(r, a, b);
      assert r'.On(ids[0], z) == r.On(ids[0], z);
      if r.On(ids[0], z) {
        assert SnapshotOf(r, z, ids) == [Placed(ids[0], r.at[ids[0]].AtCell())] + tail;
        assert SnapshotOf(r, z, ids)[1..] == tail;
      } else {
        assert SnapshotOf(r, z, ids) == tail;
      }
    }
  }

  /** Swap two rooms and keep the swap if the affected rooms' contributions fall. The snapshot
      is kept up to date, and the running score changes by exactly the floor's difference. */
  method TrySwapByDelta(b: Board, z: int, a: RoomId, other: RoomId, zPositions: seq<Placed>, score: int, fn: ScoreFn)
    returns (accepted: bool, score': int, zPositions': seq<Placed>)
    requires b.Ready() && z in b.occupied && b.result.On(a, z) && b.result.On(other, z) && a != other
    requires zPositions == Snapshot(b.result, z)
    modifies b`result
    ensures b.Ready() && FloorStep(z, old(b.result), b.occupied, b.result, b.occupied)
    ensures b.result == if accepted then Swapped(old(b.result), a, other) else old(b.result)
    ensures accepted <==> Score(b.zone, Swapped(old(b.result), a, other), z, fn) < Score(b.zone, old(b.result), z, fn)
    ensures score' - score == Score(b.zone, b.result, z, fn) - Score(b.zone, old(b.result), z, fn)
    ensures score' <= score && (accepted <==> score' < score)
    ensures zPositions' == Snapshot(b.result, z)
  {
    hide Agrees, Score, SameFloors, Total, Touches, CostFn, FloorStep;
    ghost var r := b.result;
    var affected := AffectedRooms(b.zone, b.result, z, [a, other]);
    var posA, posB := b.result.at[a].AtCell(), b.result.at[other].AtCell();
    var before := SumContributions(b.zone, b.result, affected, zPositions, z, fn);
    SwappedAgrees(r, b.occupied, z, a, other);
    RetargetSnapshot(r, z, a, other, r.order);
    SwapDeltaExact(b.zone, r, z, fn, a, other, affected);
    FloorStepRefl(z, r, b.occupied);
    b.SwapRooms(a, other, z);
    var moved := Retarget(zPositions, a, posB, other, posA);
    var after := SumContributions(b.zone, b.result, affected, moved, z, fn);
    var newScore := score - before + after;
    if newScore < score {
      return true, newScore, moved;
    }
    b.SwapRooms(a, other, z);
    accepted, score', zPositions' := false, score, zPositions;
  }

  /** The guards a phase puts on swaps. */
  predicate SwapRefused(zone: Zone, r: Layout, z: int, guard: Guard, a: RoomId, b: RoomId)
    requires a in r.at && b in r.at
  {
    || (guard == NoNewDiagonal
        && (WouldCreateDiag(zone, r, z, a, r.at[b].AtCell()) || WouldCreateDiag(zone, r, z, b, r.at[a].AtCell())))
    || SwapWouldIncreaseMismatches(zone, r, z, a, b)
  }

  /** Exchanging the two rooms is refused or does not lower the score. */
  ghost predicate NoBetterSwap(zone: Zone, r: Layout, z: int, guard: Guard, fn: ScoreFn, a: RoomId, other: RoomId) {
    && a in r.at && other in r.at
    && (SwapRefused(zone, r, z, guard, a, other) || Score(zone, Swapped(r, a, other), z, fn) >= Score(zone, r, z, fn))
  }

  /** The pairs of one room with those after it. */
  method SwapFrom(b: Board, zRoomIds: seq<RoomId>, i: nat, z: int, start: seq<Placed>, guard: Guard, startScore: int, fn: ScoreFn)
    returns (score: int, swapped: bool, zPositions: seq<Placed>)
    requires b.Ready() && z in b.occupied && NoDup(zRoomIds) && i < |zRoomIds| && forall id :: id in zRoomIds ==> b.result.On(id, z)
    requires start == Snapshot(b.result, z)
    modifies b`result
    ensures b.Ready() && FloorStep(z, old(b.result), b.occupied, b.result, b.occupied)
    ensures score - startScore == Score(b.zone, b.result, z, fn) - Score(b.zone, old(b.result), z, fn)
    ensures score <= startScore && (swapped <==> score < startScore)
    ensures !swapped ==> b.result == old(b.result)
    ensures !swapped ==> forall j :: i < j < |zRoomIds| ==> NoBetterSwap(b.zone, b.result, z, guard, fn, zRoomIds[i], zRoomIds[j])
    ensures zPositions == Snapshot(b.result, z)
  {
    hide Agrees, Score, FloorStep, SwapRefused, Snapshot;
    score, swapped, zPositions := startScore, false, start;
    ghost var r0, occ := b.result, b.occupied;
    FloorStepRefl(z, r0, occ);
    for j := i + 1 to |zRoomIds|
      invariant !swapped ==> forall m :: i < m < j ==> NoBetterSwap(b.zone, r0, z, guard, fn, zRoomIds[i], zRoomIds[m])
      invariant b.Ready() && FloorStep(z, r0, occ, b.result, b.occupied)
      invariant score - startScore == Score(b.zone, b.result, z, fn) - Score(b.zone, r0, z, fn)
      invariant score <= startScore && (swapped <==> score < startScore) && (!swapped ==> b.result == r0)
      invariant zPositions == Snapshot(b.result, z)
    {
      var a, other := zRoomIds[i], zRoomIds[j];
      ghost var r := b.result;
      StillOn(z, r0, occ, r, occ, a);
      StillOn(z, r0, occ, r, occ, other);
      assert a in zRoomIds && other in zRoomIds;
      assert r.On(a, z) && r.On(other, z);
      if SwapRefused(b.zone, b.result, z, guard, a, other) { continue; }
      var accepted;
      accepted, score, zPositions := TrySwapByDelta(b, z, a, other, zPositions, score, fn);
      FloorStepTrans(z, r0, occ, r, occ, b.result, b.occupied);
      if accepted { swapped := true; }
    }
  }

  /** One round over all pairs of rooms of the floor; when none is swapped, none should be. */
  method SwapRound(b: Board, zRoomIds: seq<RoomId>, z: int, start: seq<Placed>, guard: Guard, startScore: int, fn: ScoreFn)
    returns (score: int, swapped: bool, zPositions: seq<Placed>)
    requires b.Ready() && z in b.occupied && NoDup(zRoomIds) && forall id :: id in zRoomIds ==> b.result.On(id, z)
    requires start == Snapshot(b.result, z)
    modifies b`result
    ensures b.Ready() && FloorStep(z, old(b.result), b.occupied, b.result, b.occupied)
    ensures score - startScore == Score(b.zone, b.result, z, fn) - Score(b.zone, old(b.result), z, fn)
    ensures score <= startScore && (swapped <==> score < startScore)
    ensures !swapped ==> b.result == old(b.result)
    ensures !swapped && startScore > 0 ==> forall i, j :: 0 <= i < j < |zRoomIds| ==> NoBetterSwap(b.zone, b.result, z, guard, fn, zRoomIds[i], zRoomIds[j])
    ensures zPositions == Snapshot(b.result, z)
  {
    hide Agrees, Score, FloorStep, NoBetterSwap, Snapshot;
    score, swapped, zPositions := startScore, false, start;
    ghost var r0, occ := b.result, b.occupied;
    FloorStepRefl(z, r0, occ);
    var i := 0;
    while i < |zRoomIds| && score > 0
      invariant 0 <= i <= |zRoomIds|
      invariant b.Ready() && FloorStep(z, r0, occ, b.result, b.occupied)
      invariant score - startScore == Score(b.zone, b.result, z, fn) - Score(b.zone, r0, z, fn)
      invariant score <= startScore && (swapped <==> score < startScore) && (!swapped ==> b.result == r0)
      invariant zPositions == Snapshot(b.result, z)
      invariant !swapped ==> forall k, j :: 0 <= k < i && k < j < |zRoomIds| ==> NoBetterSwap(b.zone, r0, z, guard, fn, zRoomIds[k], zRoomIds[j])
    {
      ghost var r := b.result;
      forall id | id in zRoomIds ensures r.On(id, z) { StillOn(z, r0, occ, r, occ, id); }
      var here;
      score, here, zPositions := SwapFrom(b, zRoomIds, i, z, zPositions, guard, score, fn);
      FloorStepTrans(z, r0, occ, r, occ, b.result, b.occupied);
      if here { swapped := true; }
      i := i + 1;
    }
  }

  // ---- The phase ----

  /** How far off its axis a diagonal exit ends. */
  function OffAxis(o: Offset, p: Pos, q: Pos): nat {
    if o.dx != 0 then Abs(q.y - p.y) else Abs(q.x - p.x)
  }

  /** What a diagonal exit costs on top of the flat penalty. */
  function ExcessFn(r: Layout, z: int): Edge -> int {
    (e: Edge) =>
      if BothOn(r, z, e) && Diagonal(r.at[e.from], r.at[e.to]) && OffAxis(Off(e.dir), r.at[e.from], r.at[e.to]) > 1
      then DIAGONAL_PENALTY * (OffAxis(Off(e.dir), r.at[e.from], r.at[e.to]) - 1) else 0
  }

  function Excess(zone: Zone, r: Layout, z: int): int {
    Total(zone, r.order, ExcessFn(r, z))
  }

  lemma ExcessIsPositive(r: Layout, z: int, e: Edge)
    ensures ExcessFn(r, z)(e) > 0 <==>
            BothOn(r, z, e) && Diagonal(r.at[e.from], r.at[e.to]) && OffAxis(Off(e.dir), r.at[e.from], r.at[e.to]) > 1
  {
  }

  /** The relaxation score is the layout score plus the excess, which is zero exactly when every
      diagonal exit ends at most one step off its axis. */
  lemma RelaxationScoreAbove(zone: Zone, r: Layout, z: int)
    ensures Score(zone, r, z, RelaxationScore) == Score(zone, r, z, LIGHT) + Excess(zone, r, z)
    ensures Excess(zone, r, z) >= 0
    ensures Excess(zone, r, z) == 0 <==>
      forall id, e :: id in r.order && e in zone.Out(id) && BothOn(r, z, e) && Diagonal(r.at[e.from], r.at[e.to])
        ==> OffAxis(Off(e.dir), r.at[e.from], r.at[e.to]) <= 1
  {
    var f := CostFn(r, Snapshot(r, z), z, LIGHT);
    var g := CostFn(r, Snapshot(r, z), z, RelaxationScore);
    TotalPlus(zone, r.order, f, ExcessFn(r, z), g);
    TotalZero(zone, r.order, ExcessFn(r, z));
    forall e: Edge ensures ExcessFn(r, z)(e) == 0 <==>
      (BothOn(r, z, e) && Diagonal(r.at[e.from], r.at[e.to]) ==> OffAxis(Off(e.dir), r.at[e.from], r.at[e.to]) <= 1)
    {
      ExcessIsPositive(r, z, e);
    }
  }

  /** Relaxation by moves: the score never rises and the returned one is exact. Each round lowers
      it, and the last leaves every room at rest unless the score is zero or the rounds are used up. */
  method MoveRounds(b: Board, zRoomIds: seq<RoomId>, z: int, startScore: int, fn: ScoreFn, rounds: nat, radius: nat, wantRadius: nat)
    returns (score: int, ghost done: nat)
    requires b.Ready() && z in b.occupied && forall id :: id in zRoomIds ==> b.result.On(id, z)
    modifies b`result, b`occupied
    ensures b.Ready() && FloorStep(z, old(b.result), old(b.occupied), b.result, b.occupied)
    ensures score + done <= startScore && done <= rounds
    ensures Agrees(old(b.result), old(b.occupied)) ==>
      score <= 0 || done == rounds
      || (z in b.occupied && forall id :: id in zRoomIds ==> AtRest(b.zone, b.result, b.occupied[z], z, fn, radius, wantRadius, score, id))
    ensures startScore >= Score(b.zone, old(b.result), z, fn) ==> score >= Score(b.zone, b.result, z, fn)
    ensures startScore == Score(b.zone, old(b.result), z, fn) ==> score == Score(b.zone, b.result, z, fn)
    ensures NoLoops(b.zone) ==> Mismatches(b.zone, b.result, z) <= Mismatches(b.zone, old(b.result), z)
  {
    hide Agrees, Score, FloorStep, Mismatches, NoLoops, AtRest;
    score := startScore;
    ghost var r0, occ0 := b.result, b.occupied;
    FloorStepRefl(z, r0, occ0);
    var iter := 0;
    done := 0;
    while iter < rounds && score > 0
      invariant b.Ready() && FloorStep(z, r0, occ0, b.result, b.occupied)
      invariant done == iter <= rounds && score + done <= startScore
      invariant startScore >= Score(b.zone, r0, z, fn) ==> score >= Score(b.zone, b.result, z, fn)
      invariant startScore == Score(b.zone, r0, z, fn) ==> score == Score(b.zone, b.result, z, fn)
      invariant NoLoops(b.zone) ==> Mismatches(b.zone, b.result, z) <= Mismatches(b.zone, r0, z)
    {
      ghost var r, occ := b.result, b.occupied;
      FloorKeys(z, r0, occ0, r, occ);
      forall id | id in zRoomIds ensures r.On(id, z) { StillOn(z, r0, occ0, r, occ, id); }
      var improved;
      score, improved := RelaxRooms(b, zRoomIds, z, score, fn, radius, wantRadius);
      FloorStepTrans(z, r0, occ0, r, occ, b.result, b.occupied);
      StepAgrees(z, r0, occ0, r, occ);
      if !improved { return; }
      iter := iter + 1;
      done := iter;
    }
  }

  lemma StepAgrees(z: int, r: Layout, occ: Occupancy, r': Layout, occ': Occupancy)
    requires FloorStep(z, r, occ, r', occ')
    ensures Agrees(r, occ) ==> Agrees(r', occ')
  {
    hide Agrees, Contained;
  }

  lemma {:induction false} FloorRoomsDistinct(r: Layout, z: int, ids: seq<RoomId>)
    requires NoDup(ids)
    ensures NoDup(FloorRoomsOf(r, z, ids))
  {
    if ids != [] {
      NoDupTail(ids);
      FloorRoomsDistinct(r, z, ids[1..]);
    }
  }

  ghost predicate AllAtRest(zone: Zone, r: Layout, cells: set<Cell>, z: int, fn: ScoreFn, radius: nat, wantRadius: nat) {
    forall id :: id in FloorRooms(r, z) ==> AtRest(zone, r, cells, z, fn, radius, wantRadius, Score(zone, r, z, fn), id)
  }

  ghost predicate NoBetterSwaps(zone: Zone, r: Layout, z: int, guard: Guard, fn: ScoreFn) {
    var ids := FloorRooms(r, z);
    forall i, j :: 0 <= i < j < |ids| ==> NoBetterSwap(zone, r, z, guard, fn, ids[i], ids[j])
  }

  /** How phase 4 went on a floor: so many rounds of moves until every room was at rest, then so
      many of swaps until none was better, unless the rounds ran out or the score was zero. */
  datatype Relaxation = Relaxation(middle: Layout, midOcc: Occupancy, rounds: nat, swaps: nat)

  ghost predicate Relaxed(zone: Zone, z: int, r: Layout, occ: Occupancy, how: Relaxation, r': Layout, occ': Occupancy) {
    && FloorStep(z, r, occ, how.middle, how.midOcc) && FloorStep(z, how.middle, how.midOcc, r', occ')
    && Score(zone, how.middle, z, RelaxationScore) + how.rounds <= Score(zone, r, z, RelaxationScore)
    && Score(zone, r', z, LIGHT) + how.swaps <= Score(zone, how.middle, z, RelaxationScore)
    && (Agrees(r, occ) ==>
         || Score(zone, how.middle, z, RelaxationScore) == 0 || how.rounds == FORCE_RELAXATION_ITERATIONS
         || (z in how.midOcc && AllAtRest(zone, how.middle, how.midOcc[z], z, RelaxationScore, RELAX_CANDIDATE_RADIUS, NEIGHBOR_CANDIDATE_RADIUS)))
    && (Score(zone, r', z, LIGHT) == 0 || how.swaps == SWAP_ITERATIONS || NoBetterSwaps(zone, r', z, KeepAlignment, LIGHT))
  }

  /** Phase 4 on one floor; a perfect floor is left alone. The layout score can rise by the excess at
      most, so never if no diagonal exit ends more than a step off its axis. */
  method RelaxFloor(b: Board, z: int) returns (ghost how: Relaxation)
    requires b.Ready() && z in b.occupied
    modifies b`result, b`occupied
    ensures b.Ready() && FloorStep(z, old(b.result), old(b.occupied), b.result, b.occupied)
    ensures Perfect(b.zone, old(b.result), z) ==> b.result == old(b.result) && b.occupied == old(b.occupied)
    ensures Relaxed(b.zone, z, old(b.result), old(b.occupied), how, b.result, b.occupied)
    ensures Score(b.zone, b.result, z, LIGHT) <= Score(b.zone, old(b.result), z, LIGHT) + Excess(b.zone, old(b.result), z)
  {
    hide Excess, Agrees, Score, FloorStep, Mismatches, NoLoops, Snapshot, Perfect, AtRest, NoBetterSwap, FloorRoomsOf;
    var zRoomIds := FloorRooms(b.result, z);
    FloorRoomsDistinct(b.result, z, b.result.order);
    ghost var r0, occ0 := b.result, b.occupied;
    FloorStepRefl(z, r0, occ0);
    ScoreZeroIffPerfect(b.zone, r0, z, RelaxationScore);
    RelaxationScoreAbove(b.zone, r0, z);
    var score := Score(b.zone, b.result, z, RelaxationScore);
    how := Relaxation(r0, occ0, 0, 0);
    if score == 0 {
      ScoreZeroIffPerfect(b.zone, r0, z, LIGHT);
      return;
    }
    ghost var done;
    score, done := MoveRounds(b, zRoomIds, z, score, RelaxationScore, FORCE_RELAXATION_ITERATIONS, RELAX_CANDIDATE_RADIUS, NEIGHBOR_CANDIDATE_RADIUS);
    RelaxationScoreAbove(b.zone, b.result, z);
    SameFloorRooms(z, r0, occ0, b.result, b.occupied);
    how := Relaxation(b.result, b.occupied, done, 0);
    FloorStepRefl(z, b.result, b.occupied);
    if score > 0 {
      ghost var swaps := RelaxBySwaps(b, zRoomIds, z, score);
      FloorStepTrans(z, r0, occ0, how.middle, how.midOcc, b.result, b.occupied);
      how := how.(swaps := swaps);
    } else {
      ScoreZeroIffPerfect(b.zone, how.middle, z, RelaxationScore);
      ScoreZeroIffPerfect(b.zone, how.middle, z, LIGHT);
    }
  }

  lemma SameFloorRooms(z: int, r: Layout, occ: Occupancy, r': Layout, occ': Occupancy)
    requires FloorStep(z, r, occ, r', occ')
    ensures FloorRooms(r', z) == FloorRooms(r, z)
  {
    hide Agrees;
    SameRoomsOf(z, r, r', r.order);
  }

  lemma {:induction false} SameRoomsOf(z: int, r: Layout, r': Layout, ids: seq<RoomId>)
    requires forall id :: r'.On(id, z) <==> r.On(id, z)
    ensures FloorRoomsOf(r', z, ids) == FloorRoomsOf(r, z, ids)
  {
    if ids != [] { SameRoomsOf(z, r, r', ids[1..]); }
  }

  /** Rounds of swaps, each followed by moves: each lowers the running score, which stays above
      the floor's, and the last leaves no better swap. */
  method RelaxBySwaps(b: Board, zRoomIds: seq<RoomId>, z: int, startScore: int) returns (ghost swaps: nat)
    requires b.Ready() && z in b.occupied && NoDup(zRoomIds) && zRoomIds == FloorRooms(b.result, z)
    requires startScore >= Score(b.zone, b.result, z, LIGHT) && startScore > 0
    modifies b`result, b`occupied
    ensures b.Ready() && FloorStep(z, old(b.result), old(b.occupied), b.result, b.occupied)
    ensures && Score(b.zone, b.result, z, LIGHT) + swaps <= startScore
            && (Score(b.zone, b.result, z, LIGHT) == 0 || swaps == SWAP_ITERATIONS || NoBetterSwaps(b.zone, b.result, z, KeepAlignment, LIGHT))
  {
    hide Agrees, Score, FloorStep, Mismatches, NoLoops, Snapshot, AtRest, NoBetterSwap, FloorRoomsOf;
    var score := startScore;
    ghost var r0, occ0 := b.result, b.occupied;
    FloorStepRefl(z, r0, occ0);
    var zPositions := Snapshot(b.result, z);
    var swapIter := 0;
    swaps := 0;
    while swapIter < SWAP_ITERATIONS && score > 0
      invariant b.Ready() && FloorStep(z, r0, occ0, b.result, b.occupied)
      invariant zPositions == Snapshot(b.result, z) && swaps == swapIter <= SWAP_ITERATIONS
      invariant Score(b.zone, b.result, z, LIGHT) <= score && score + swaps <= startScore
    {
      ghost var r, occ := b.result, b.occupied;
      FloorKeys(z, r0, occ0, r, occ);
      SameFloorRooms(z, r0, occ0, r, occ);
      forall id | id in zRoomIds ensures r.On(id, z) { StillOn(z, r0, occ0, r, occ, id); }
      var swapped;
      score, swapped, zPositions := SwapRound(b, zRoomIds, z, zPositions, KeepAlignment, score, LIGHT);
      FloorStepTrans(z, r0, occ0, r, occ, b.result, b.occupied);
      if !swapped { return; }
      ghost var r1, occ1 := b.result, b.occupied;
      forall id | id in zRoomIds ensures r1.On(id, z) { StillOn(z, r0, occ0, r1, occ1, id); }
      ghost var done;
      score, done := MoveRounds(b, zRoomIds, z, score, LIGHT, POST_SWAP_MOVE_ITERATIONS, RELAX_CANDIDATE_RADIUS, NEIGHBOR_CANDIDATE_RADIUS);
      FloorStepTrans(z, r0, occ0, r1, occ1, b.result, b.occupied);
      zPositions := Snapshot(b.result, z);
      swapIter := swapIter + 1;
      swaps := swapIter;
    }
    ScoreZeroIffPerfect(b.zone, b.result, z, LIGHT);
  }

  ghost predicate AllPerfect(zone: Zone, r: Layout) {
    forall z :: Perfect(zone, r, z)
  }

  ghost predicate RelaxRun(zone: Zone, floors: seq<int>, s: State, s': State, run: seq<State>, how: seq<Relaxation>) {
    && Run(run, |floors|, s, s') && |how| == |floors|
    && forall i :: 0 <= i < |floors| ==> Relaxed(zone, floors[i], run[i].r, run[i].occ, how[i], run[i + 1].r, run[i + 1].occ)
  }

  /** The phase took the floors in turn and relaxed each. */
  ghost predicate RelaxedAll(zone: Zone, floors: seq<int>, s: State, s': State) {
    exists run, how :: RelaxRun(zone, floors, s, s', run, how)
  }

  /** Phase 4: every floor is relaxed in turn. */
  method ForceDirectedRelax(b: Board)
    requires b.Ready()
    modifies b`result, b`occupied
    ensures b.Ready() && Kept(old(b.result), old(b.occupied), b.result, b.occupied)
    ensures AllPerfect(b.zone, old(b.result)) ==> b.result == old(b.result) && b.occupied == old(b.occupied)
    ensures RelaxedAll(b.zone, b.floors, State(old(b.result), old(b.occupied)), State(b.result, b.occupied))
  {
    hide Agrees, Score, Perfect, FloorStep, Kept, Relaxed;
    KeptRefl(b.result, b.occupied);
    ghost var r0, occ0 := b.result, b.occupied;
    ghost var run, how: seq<Relaxation> := [State(r0, occ0)], [];
    for i := 0 to |b.floors|
      invariant b.Ready() && Kept(r0, occ0, b.result, b.occupied)
      invariant AllPerfect(b.zone, r0) ==> b.result == r0 && b.occupied == occ0
      invariant Run(run, i, State(r0, occ0), State(b.result, b.occupied)) && |how| == i
      invariant forall j :: 0 <= j < i ==> Relaxed(b.zone, b.floors[j], run[j].r, run[j].occ, how[j], run[j + 1].r, run[j + 1].occ)
    {
      assert b.floors[i] in b.floors;
      ghost var r, occ := b.result, b.occupied;
      ghost var here := RelaxFloor(b, b.floors[i]);
      KeptStep(b.floors[i], r0, occ0, r, occ, b.result, b.occupied);
      run, how := run + [State(b.result, b.occupied)], how + [here];
    }
    assert RelaxRun(b.zone, b.floors, State(r0, occ0), State(b.result, b.occupied), run, how);
  }
}
