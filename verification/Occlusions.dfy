/** Phases 6 and 8: moving rooms off the exit lines of other rooms. */
module Occlusions {
  import opened Sums
  import opened Zones
  import opened Boards
  import opened Scores
  import opened Guards
  import opened Relax
  import Diamond
  import Segments

  const OCCLUSION_FIX_ITERATIONS := 200
  const OCCLUDER_SEARCH_RADIUS := 8
  const TWO_MOVE_OCCLUDER_RADIUS := 6
  const TWO_MOVE_EVICTEE_RADIUS := 4
  const COMPACTION_CANDIDATE_RADIUS := 2

  /** A floor that ends where it started was never left: every move lowers the score. */
  lemma NeverLeft(zone: Zone, z: int, r: Layout, occ: Occupancy, r1: Layout, occ1: Occupancy, r2: Layout, occ2: Occupancy)
    requires Improves(zone, z, HEAVY, r, occ, r1, occ1) && Improves(zone, z, HEAVY, r1, occ1, r2, occ2)
    ensures r2 == r ==> r1 == r && (Agrees(r, occ) ==> occ1 == occ && occ2 == occ)
  {
    ImprovesStep(zone, z, HEAVY, r, occ, r1, occ1);
    ImprovesStep(zone, z, HEAVY, r1, occ1, r2, occ2);
    hide Agrees, Score, FloorStep;
    if r2 == r && Agrees(r, occ) {
      SameBoard(z, r, occ, occ1);
      SameBoard(z, r, occ1, occ2);
    }
  }

  // ---- Strategy A: single moves ----

  /** No allowed move of the room to a cell near the centre, or near one a neighbour wants, lowers
      the heavy score. */
  ghost predicate Stuck(zone: Zone, r: Layout, cells: set<Cell>, z: int, centre: Cell, lo: nat, radius: nat, wantRadius: nat, id: RoomId) {
    id in r.at && forall c :: Near(zone, r, z, centre, lo, radius, wantRadius, id, c) && Allowed(zone, r, cells, z, NoNewDiagonal, id, c) ==>
      Score(zone, r, z, HEAVY) <= Score(zone, Moved(r, id, c, z), z, HEAVY)
  }

  ghost predicate Near(zone: Zone, r: Layout, z: int, centre: Cell, lo: nat, radius: nat, wantRadius: nat, id: RoomId, c: Cell) {
    lo <= Diamond.Dist(centre, c) <= radius || exists w :: w in Wants(r, z, zone.Out(id)) && Diamond.Dist(w, c) <= wantRadius
  }

  /** Move the room to the best of the allowed cells near the centre and those its neighbours want;
      when it stays, none of them is better. */
  method MoveNear(b: Board, z: int, id: RoomId, centre: Cell, lo: nat, radius: nat, wantRadius: nat, score: int) returns (score': int, moved: bool)
    requires b.Ready() && z in b.occupied && b.result.On(id, z) && score == Score(b.zone, b.result, z, HEAVY)
    modifies b`result, b`occupied
    ensures b.Ready() && Improves(b.zone, z, HEAVY, old(b.result), old(b.occupied), b.result, b.occupied)
    ensures score' == Score(b.zone, b.result, z, HEAVY) && (moved <==> b.result != old(b.result))
    ensures !moved ==> Stuck(b.zone, old(b.result), old(b.occupied)[z], z, centre, lo, radius, wantRadius, id)
    ensures moved ==> exists c ::
      && Near(b.zone, old(b.result), z, centre, lo, radius, wantRadius, id, c) && Allowed(b.zone, old(b.result), old(b.occupied)[z], z, NoNewDiagonal, id, c)
      && b.result == Moved(old(b.result), id, c, z)
  {
    hide Agrees, Score, Allowed, Mismatches, NoLoops, FloorStep, Moved, Wants, Zone.Out, Diamond.Dist;
    var near := AddDiamond([], centre, lo, radius);
    var cands := Candidates(near, Wants(b.result, z, b.zone.Out(id)), wantRadius);
    score', moved := MoveToBest(b, z, id, cands, NoNewDiagonal, HEAVY, score);
  }

  ghost predicate SingleStuck(zone: Zone, r: Layout, cells: set<Cell>, z: int, id: RoomId) {
    var ideal := IdealPosition(zone, r, z, id);
    ideal.Some? ==> Stuck(zone, r, cells, z, ideal.value, 0, RELAX_CANDIDATE_RADIUS, NEIGHBOR_CANDIDATE_RADIUS, id)
  }

  method SinglePass(b: Board, zRoomIds: seq<RoomId>, z: int, startScore: int) returns (score: int, improved: bool)
    requires b.Ready() && z in b.occupied && forall id :: id in zRoomIds ==> b.result.On(id, z)
    requires startScore == Score(b.zone, b.result, z, HEAVY)
    modifies b`result, b`occupied
    ensures b.Ready() && Improves(b.zone, z, HEAVY, old(b.result), old(b.occupied), b.result, b.occupied)
    ensures score == Score(b.zone, b.result, z, HEAVY) && (improved <==> b.result != old(b.result))
    ensures !improved && Agrees(old(b.result), old(b.occupied)) ==>
      b.occupied == old(b.occupied) && forall id :: id in zRoomIds ==> SingleStuck(b.zone, b.result, b.occupied[z], z, id)
  {
    hide Agrees, Score, Improves, FloorStep, IdealPosition, Stuck, Allowed;
    score, improved := startScore, false;
    ghost var r0, occ0 := b.result, b.occupied;
    ImprovesRefl(b.zone, z, HEAVY, r0, occ0);
    for i := 0 to |zRoomIds|
      invariant b.Ready() && Improves(b.zone, z, HEAVY, r0, occ0, b.result, b.occupied)
      invariant score == Score(b.zone, b.result, z, HEAVY) && (improved <==> b.result != r0)
      invariant !improved && Agrees(r0, occ0) ==>
        b.occupied == occ0 && forall id :: id in zRoomIds[..i] ==> SingleStuck(b.zone, r0, occ0[z], z, id)
    {
      var id := zRoomIds[i];
      assert id in zRoomIds;
      TakeStep(zRoomIds, i);
      ghost var r, occ := b.result, b.occupied;
      ImprovesParts(b.zone, z, HEAVY, r0, occ0, r, occ);
      var ideal := IdealPosition(b.zone, b.result, z, id);
      if ideal.None? { continue; }
      var moved;
      score, moved := MoveNear(b, z, id, ideal.value, 0, RELAX_CANDIDATE_RADIUS, NEIGHBOR_CANDIDATE_RADIUS, score);
      ImprovesTrans(b.zone, z, HEAVY, r0, occ0, r, occ, b.result, b.occupied);
      NeverLeft(b.zone, z, r0, occ0, r, occ, b.result, b.occupied);
      if moved { improved := true; }
    }
    TakeAll(zRoomIds);
  }

  /** The running score is the floor's heavy score throughout. Each pass lowers it, until no room
      has a better cell, the score is zero or the passes run out. */
  method SingleMoves(b: Board, zRoomIds: seq<RoomId>, z: int, startScore: int) returns (score: int, ghost done: nat)
    requires b.Ready() && z in b.occupied && forall id :: id in zRoomIds ==> b.result.On(id, z)
    requires startScore == Score(b.zone, b.result, z, HEAVY)
    modifies b`result, b`occupied
    ensures b.Ready() && Improves(b.zone, z, HEAVY, old(b.result), old(b.occupied), b.result, b.occupied)
    ensures score == Score(b.zone, b.result, z, HEAVY) && score + done <= startScore
    ensures z in b.occupied && (Agrees(old(b.result), old(b.occupied)) ==>
      score <= 0 || done == OCCLUSION_FIX_ITERATIONS || forall id :: id in zRoomIds ==> SingleStuck(b.zone, b.result, b.occupied[z], z, id))
  {
    hide Agrees, Score, SingleStuck, Improves, FloorStep;
    score := startScore;
    ghost var r0, occ0 := b.result, b.occupied;
    ImprovesRefl(b.zone, z, HEAVY, r0, occ0);
    var iter := 0;
    done := 0;
    while iter < OCCLUSION_FIX_ITERATIONS && score > 0
      invariant b.Ready() && z in b.occupied && Improves(b.zone, z, HEAVY, r0, occ0, b.result, b.occupied)
      invariant score == Score(b.zone, b.result, z, HEAVY) && score + done <= startScore && done == iter <= OCCLUSION_FIX_ITERATIONS
    {
      ghost var r, occ := b.result, b.occupied;
      ImprovesParts(b.zone, z, HEAVY, r0, occ0, r, occ);
      ImprovesStep(b.zone, z, HEAVY, r0, occ0, r, occ);
      StepAgrees(z, r0, occ0, r, occ);
      var improved;
      score, improved := SinglePass(b, zRoomIds, z, score);
      ImprovedOr(b.zone, z, HEAVY, r, occ, b.result, b.occupied);
      ImprovesTrans(b.zone, z, HEAVY, r0, occ0, r, occ, b.result, b.occupied);
      ImprovesParts(b.zone, z, HEAVY, r0, occ0, b.result, b.occupied);
      if !improved { return; }
      iter := iter + 1;
      done := iter;
    }
  }

  // ---- Strategy B: swaps ----

  /** The running score is the floor's heavy score throughout. Each round lowers it, until no swap
      is better, the score is zero or the rounds run out. */
  method Swaps(b: Board, zRoomIds: seq<RoomId>, z: int, startScore: int) returns (score: int, ghost done: nat)
    requires b.Ready() && z in b.occupied && NoDup(zRoomIds) && zRoomIds == FloorRooms(b.result, z) && forall id :: id in zRoomIds ==> b.result.On(id, z)
    requires startScore == Score(b.zone, b.result, z, HEAVY)
    modifies b`result
    ensures b.Ready() && Improves(b.zone, z, HEAVY, old(b.result), b.occupied, b.result, b.occupied)
    ensures score == Score(b.zone, b.result, z, HEAVY) && score + done <= startScore
    ensures score <= 0 || done == SWAP_ITERATIONS || NoBetterSwaps(b.zone, b.result, z, NoNewDiagonal, HEAVY)
  {
    hide Agrees, Score, Improves, FloorStep, Snapshot, NoBetterSwap, FloorRoomsOf;
    score := startScore;
    ghost var r0, occ := b.result, b.occupied;
    ImprovesRefl(b.zone, z, HEAVY, r0, occ);
    var zPositions := Snapshot(b.result, z);
    var swapIter := 0;
    done := 0;
    while swapIter < SWAP_ITERATIONS && score > 0
      invariant b.Ready() && Improves(b.zone, z, HEAVY, r0, occ, b.result, b.occupied)
      invariant score == Score(b.zone, b.result, z, HEAVY) && zPositions == Snapshot(b.result, z)
      invariant score + done <= startScore && done == swapIter <= SWAP_ITERATIONS
    {
      ghost var r := b.result;
      ImprovesParts(b.zone, z, HEAVY, r0, occ, r, occ);
      ImprovesStep(b.zone, z, HEAVY, r0, occ, r, occ);
      SameFloorRooms(z, r0, occ, r, occ);
      var swapped;
      score, swapped, zPositions := SwapRound(b, zRoomIds, z, zPositions, NoNewDiagonal, score, HEAVY);
      StepImproves(b.zone, z, HEAVY, r, occ, b.result, occ, swapped);
      ImprovesTrans(b.zone, z, HEAVY, r0, occ, r, occ, b.result, occ);
      if !swapped { return; }
      zPositions := Snapshot(b.result, z);
      swapIter := swapIter + 1;
      done := swapIter;
    }
  }

  // ---- Strategy C: occluders ----

  /** The rooms on a straight exit of two others, each once. */
  method OccludingRooms(zone: Zone, r: Layout, z: int, zRoomIds: seq<RoomId>) returns (occluders: seq<RoomId>)
    requires forall id :: id in zRoomIds ==> r.On(id, z)
    ensures NoDup(occluders) && forall id :: id in occluders ==> id in zRoomIds
    ensures forall id :: id in occluders <==> id in zRoomIds && OnSomeSegment(zone, r, z, zRoomIds, id)
  {
    hide Segments.SegmentsFrom, OnSegment;
    occluders := [];
    var segments := Segments.SegmentsFrom(r, z, 2, AllOut(zone, zRoomIds), {});
    for i := 0 to |segments|
      invariant NoDup(occluders)
      invariant forall id :: id in occluders <==> id in zRoomIds && exists s :: s in segments[..i] && OnSegment(r, s, id)
    {
      assert segments[..i + 1] == segments[..i] + [segments[i]];
      ghost var before := occluders;
      for j := 0 to |zRoomIds|
        invariant NoDup(occluders)
        invariant forall id :: id in occluders <==> id in before || (id in zRoomIds[..j] && OnSegment(r, segments[i], id))
      {
        assert zRoomIds[..j + 1] == zRoomIds[..j] + [zRoomIds[j]];
        assert zRoomIds[j] in zRoomIds;
        if OnSegment(r, segments[i], zRoomIds[j]) { occluders := Adjoin(occluders, zRoomIds[j]); }
      }
      assert zRoomIds[..|zRoomIds|] == zRoomIds;
    }
    assert segments[..|segments|] == segments;
  }

  predicate OnSegment(r: Layout, s: Segments.Segment, id: RoomId) {
    id in r.at && Blocks(s.edge, Pos(s.x1, s.y1, 0), Pos(s.x2, s.y2, 0), Placed(id, r.at[id].AtCell()))
  }

  ghost predicate OnSomeSegment(zone: Zone, r: Layout, z: int, zRoomIds: seq<RoomId>, id: RoomId) {
    exists s :: s in Segments.SegmentsFrom(r, z, 2, AllOut(zone, zRoomIds), {}) && OnSegment(r, s, id)
  }

  ghost predicate OccluderStuck(zone: Zone, r: Layout, cells: set<Cell>, z: int, id: RoomId) {
    id in r.at && Stuck(zone, r, cells, z, r.at[id].AtCell(), 1, OCCLUDER_SEARCH_RADIUS, RELAX_CANDIDATE_RADIUS, id)
  }

  /** Each occluder in turn goes to its best cell; if none moves, none has a better one. */
  method DisplaceOccluders(b: Board, zRoomIds: seq<RoomId>, z: int)
    requires b.Ready() && z in b.occupied && forall id :: id in zRoomIds ==> b.result.On(id, z)
    modifies b`result, b`occupied
    ensures b.Ready() && Improves(b.zone, z, HEAVY, old(b.result), old(b.occupied), b.result, b.occupied)
    ensures b.result == old(b.result) && Agrees(old(b.result), old(b.occupied)) ==>
      b.occupied == old(b.occupied)
      && forall id :: id in zRoomIds && OnSomeSegment(b.zone, b.result, z, zRoomIds, id) ==> OccluderStuck(b.zone, b.result, b.occupied[z], z, id)
  {
    hide Agrees, Score, Improves, FloorStep, OnSomeSegment, Stuck, Allowed;
    ghost var r0, occ0 := b.result, b.occupied;
    ImprovesRefl(b.zone, z, HEAVY, r0, occ0);
    var occluders := OccludingRooms(b.zone, b.result, z, zRoomIds);
    for i := 0 to |occluders|
      invariant b.Ready() && Improves(b.zone, z, HEAVY, r0, occ0, b.result, b.occupied)
      invariant b.result == r0 && Agrees(r0, occ0) ==>
        b.occupied == occ0 && forall id :: id in occluders[..i] ==> OccluderStuck(b.zone, r0, occ0[z], z, id)
    {
      var id := occluders[i];
      assert id in occluders;
      TakeStep(occluders, i);
      ghost var r, occ := b.result, b.occupied;
      ImprovesParts(b.zone, z, HEAVY, r0, occ0, r, occ);
      var score := Score(b.zone, b.result, z, HEAVY);
      var moved;
      score, moved := MoveNear(b, z, id, b.result.at[id].AtCell(), 1, OCCLUDER_SEARCH_RADIUS, RELAX_CANDIDATE_RADIUS, score);
      ImprovesTrans(b.zone, z, HEAVY, r0, occ0, r, occ, b.result, b.occupied);
      NeverLeft(b.zone, z, r0, occ0, r, occ, b.result, b.occupied);
    }
    TakeAll(occluders);
  }

  // ---- Strategy C, second part: two moves at once ----

  /** The first room of the layout on a cell of the floor. */
  method RoomAt(r: Layout, z: int, c: Cell) returns (id: Option<RoomId>)
    requires r.Valid()
    ensures id.Some? ==> id.value in r.at && r.at[id.value] == At(c, z)
    ensures id.None? <==> !Taken(r, z, c)
  {
    for i := 0 to |r.order|
      invariant forall j :: 0 <= j < i ==> r.at[r.order[j]] != At(c, z)
    {
      assert r.order[i] in r.order;
      if r.at[r.order[i]] == At(c, z) { return Some(r.order[i]); }
    }
    id := None;
  }

  function TwoMoves(occluder: RoomId, tgt: Cell, evictee: RoomId, evTgt: Cell): map<RoomId, Cell> {
    map[occluder := tgt, evictee := evTgt]
  }

  lemma TwoMovesFit(r: Layout, occ: Occupancy, z: int, occluder: RoomId, tgt: Cell, evictee: RoomId, evTgt: Cell)
    requires r.On(occluder, z) && r.On(evictee, z) && occluder != evictee && z in occ
    requires r.at[evictee].AtCell() == tgt && evTgt != tgt
    requires evTgt in occ[z] ==> evTgt == r.at[occluder].AtCell()
    ensures Fits(r, occ[z], TwoMoves(occluder, tgt, evictee, evTgt))
  {
    var to := TwoMoves(occluder, tgt, evictee, evTgt);
    InHome(r, to, occluder);
    InHome(r, to, evictee);
  }

  /** Try moving the occluder to a taken cell and its occupant to a cell nearby, and undo. */
  method TrialTwo(b: Board, z: int, occluder: RoomId, tgt: Cell, evictee: RoomId, evTgt: Cell)
    returns (score: int, diagonal: bool)
    requires b.Ready() && z in b.occupied && b.result.On(occluder, z) && b.result.On(evictee, z) && occluder != evictee
    requires b.result.at[evictee].AtCell() == tgt && evTgt != tgt
    requires evTgt in b.occupied[z] ==> evTgt == b.result.at[occluder].AtCell()
    modifies b`result, b`occupied
    ensures b.Ready() && b.result == old(b.result) && FloorStep(z, old(b.result), old(b.occupied), b.result, b.occupied)
    ensures z in b.occupied && tgt in b.occupied[z]
    ensures forall c :: c != tgt && c != b.result.at[occluder].AtCell() ==> (c in b.occupied[z] <==> c in old(b.occupied)[z])
    ensures var r' := Applied(b.result, z, TwoMoves(occluder, tgt, evictee, evTgt));
            && score == Score(b.zone, r', z, HEAVY)
            && (diagonal <==> WouldCreateDiag(b.zone, r', z, evictee, evTgt) || WouldCreateDiag(b.zone, r', z, occluder, tgt))
  {
    hide Agrees, Score, SameFloors, Fits, Applied, Home, Cells, TwoMoves, WouldCreateDiag;
    ghost var r, occ := b.result, b.occupied;
    var to := TwoMoves(occluder, tgt, evictee, evTgt);
    var home := Home(b.result, to);
    TwoMoveKeys(r, z, occluder, tgt, evictee, evTgt);
    TwoMovesFit(r, occ, z, occluder, tgt, evictee, evTgt);
    AppliedBack(r, occ, z, to);
    TwoMoveUndone(r, occ, z, occluder, tgt, evictee, evTgt);
    b.Relocate(z, [occluder, evictee], to);
    diagonal := WouldCreateDiag(b.zone, b.result, z, evictee, evTgt) || WouldCreateDiag(b.zone, b.result, z, occluder, tgt);
    score := Score(b.zone, b.result, z, HEAVY);
    b.Relocate(z, [occluder, evictee], home);
    UndoneStep(z, r, occ, b.result, b.occupied);
  }

  lemma TwoMoveKeys(r: Layout, z: int, occluder: RoomId, tgt: Cell, evictee: RoomId, evTgt: Cell)
    requires r.On(occluder, z) && r.On(evictee, z) && occluder != evictee
    ensures var to := TwoMoves(occluder, tgt, evictee, evTgt); var home := Home(r, to);
            && (forall id :: id in [occluder, evictee] <==> id in to)
            && (forall id :: id in [occluder, evictee] <==> id in home)
            && OnFloor(r, z, to) && OnFloor(Applied(r, z, to), z, home)
  {
  }

  /** Undoing a two-move trial leaves every other cell as it was. */
  lemma TwoMoveUndone(r: Layout, occ: Occupancy, z: int, occluder: RoomId, tgt: Cell, evictee: RoomId, evTgt: Cell)
    requires z in occ && occluder in r.at && evictee in r.at && occluder != evictee
    requires r.at[evictee].AtCell() == tgt && evTgt != tgt
    requires evTgt in occ[z] ==> evTgt == r.at[occluder].AtCell()
    ensures var to := TwoMoves(occluder, tgt, evictee, evTgt); var home := Home(r, to);
            var after := Vacated(Vacated(occ, z, Cells(home), Cells(to)), z, Cells(to), Cells(home));
            && tgt in after[z]
            && forall c :: c != tgt && c != r.at[occluder].AtCell() ==> (c in after[z] <==> c in occ[z])
  {
    var to := TwoMoves(occluder, tgt, evictee, evTgt);
    assert to[occluder] == tgt && to[evictee] == evTgt;
    assert Home(r, to)[occluder] == r.at[occluder].AtCell() && Home(r, to)[evictee] == tgt;
    assert to[evictee] in Cells(to) && Home(r, to)[evictee] in Cells(Home(r, to));
  }

  /** The best two-move displacement found so far, if any, and its score. */
  datatype Best = Best(tgt: Cell, evictee: Option<RoomId>, evTgt: Cell, score: int)

  /** It can be applied, and has the score recorded for it. */
  ghost predicate BestOk(zone: Zone, r: Layout, occ: Occupancy, z: int, id: RoomId, best: Best, startScore: int) {
    match best.evictee
    case None => best.score == startScore
    case Some(e) =>
      && z in occ && r.On(id, z) && r.On(e, z) && e != id && r.at[e].AtCell() == best.tgt && best.evTgt != best.tgt
      && (best.evTgt in occ[z] ==> best.evTgt == r.at[id].AtCell())
      && best.score == Score(zone, Applied(r, z, TwoMoves(id, best.tgt, e, best.evTgt)), z, HEAVY) < startScore
  }

  /** A trial on a taken cell leaves the best pair applicable. */
  lemma BestOkAfterTrial(zone: Zone, r: Layout, occ: Occupancy, occ': Occupancy, z: int, id: RoomId, best: Best, startScore: int, tgt: Cell)
    requires BestOk(zone, r, occ, z, id, best, startScore) && z in occ && z in occ' && id in r.at && tgt in occ[z] && tgt != r.at[id].AtCell()
    requires forall c :: c != tgt && c != r.at[id].AtCell() ==> (c in occ'[z] <==> c in occ[z])
    ensures BestOk(zone, r, occ', z, id, best, startScore)
  {
    hide Score, Applied, TwoMoves;
  }

  function Evicted(r: Layout, z: int, id: RoomId, evictee: RoomId, evTgt: Cell): Layout
    requires evictee in r.at
  {
    Applied(r, z, TwoMoves(id, r.at[evictee].AtCell(), evictee, evTgt))
  }

  /** The occluder may take the evictee's cell and the evictee a free cell nearby, or the occluder's. */
  ghost predicate Evicts(zone: Zone, r: Layout, cells: set<Cell>, z: int, id: RoomId, evictee: RoomId, evTgt: Cell) {
    && r.On(id, z) && r.On(evictee, z) && evictee != id
    && var home, tgt := r.at[id].AtCell(), r.at[evictee].AtCell();
    && 1 <= Diamond.Dist(home, tgt) <= TWO_MOVE_OCCLUDER_RADIUS && 1 <= Diamond.Dist(tgt, evTgt) <= TWO_MOVE_EVICTEE_RADIUS
    && (evTgt in cells ==> evTgt == home)
    && !WouldCreateDiag(zone, r, z, id, tgt) && !MoveWouldIncreaseMismatches(zone, r, z, id, tgt)
    && !WouldCreateDiag(zone, r, z, evictee, evTgt) && !MoveWouldIncreaseMismatches(zone, r, z, evictee, evTgt)
    && !WouldCreateDiag(zone, Evicted(r, z, id, evictee, evTgt), z, evictee, evTgt) && !WouldCreateDiag(zone, Evicted(r, z, id, evictee, evTgt), z, id, tgt)
  }

  ghost predicate BestEvicts(zone: Zone, r: Layout, cells: set<Cell>, z: int, id: RoomId, best: Best) {
    best.evictee.Some? ==> Evicts(zone, r, cells, z, id, best.evictee.value, best.evTgt)
  }

  /** No eviction of the room beats the score. */
  ghost predicate Unbeaten(zone: Zone, r: Layout, cells: set<Cell>, z: int, id: RoomId, evictee: RoomId, score: int) {
    forall evTgt :: Evicts(zone, r, cells, z, id, evictee, evTgt) ==> score <= Score(zone, Evicted(r, z, id, evictee, evTgt), z, HEAVY)
  }

  /** Try every nearby cell for the room that has to make way. */
  method BestEviction(b: Board, z: int, id: RoomId, tgt: Cell, evictee: RoomId, start: Best, ghost startScore: int) returns (best: Best)
    requires b.Ready() && z in b.occupied && b.result.On(id, z) && b.result.On(evictee, z) && id != evictee
    requires b.result.at[evictee].AtCell() == tgt && 1 <= Diamond.Dist(b.result.at[id].AtCell(), tgt) <= TWO_MOVE_OCCLUDER_RADIUS && tgt in b.occupied[z]
    requires !WouldCreateDiag(b.zone, b.result, z, id, tgt) && !MoveWouldIncreaseMismatches(b.zone, b.result, z, id, tgt)
    requires BestOk(b.zone, b.result, b.occupied, z, id, start, startScore) && start.score <= startScore
    modifies b`result, b`occupied
    ensures b.Ready() && b.result == old(b.result) && FloorStep(z, old(b.result), old(b.occupied), b.result, b.occupied)
    ensures z in b.occupied && BestOk(b.zone, b.result, b.occupied, z, id, best, startScore) && best.score <= start.score
    ensures Agrees(old(b.result), old(b.occupied)) ==>
      && b.occupied == old(b.occupied)
      && Unbeaten(b.zone, b.result, b.occupied[z], z, id, evictee, best.score)
      && (BestEvicts(b.zone, b.result, b.occupied[z], z, id, start) ==> BestEvicts(b.zone, b.result, b.occupied[z], z, id, best))
  {
    hide Agrees, Score, FloorStep, Applied, TwoMoves, MoveWouldIncreaseMismatches, WouldCreateDiag, BestOk, Diamond.Rings, Diamond.Dist;
    best := start;
    ghost var r0, occ0 := b.result, b.occupied;
    var home := b.result.at[id].AtCell();
    FloorStepRefl(z, r0, occ0);
    SelfDistance(home);
    var evCands := Diamond.Rings(tgt, 1, TWO_MOVE_EVICTEE_RADIUS);
    Diamond.RingsMembers(tgt, 1, TWO_MOVE_EVICTEE_RADIUS);
    for j := 0 to |evCands|
      invariant b.Ready() && b.result == r0 && z in b.occupied && FloorStep(z, r0, occ0, b.result, b.occupied)
      invariant BestOk(b.zone, r0, b.occupied, z, id, best, startScore) && best.score <= start.score
      invariant tgt in b.occupied[z]
      invariant Agrees(r0, occ0) ==> b.occupied == occ0 && (BestEvicts(b.zone, r0, occ0[z], z, id, start) ==> BestEvicts(b.zone, r0, occ0[z], z, id, best))
      invariant Agrees(r0, occ0) ==> forall evTgt :: evTgt in evCands[..j] && Evicts(b.zone, r0, occ0[z], z, id, evictee, evTgt) ==>
        best.score <= Score(b.zone, Evicted(r0, z, id, evictee, evTgt), z, HEAVY)
    {
      var evTgt := evCands[j];
      assert evTgt in evCands && Diamond.Dist(tgt, evTgt) >= 1;
      TakeStep(evCands, j);
      SelfDistance(tgt);
      if evTgt in b.occupied[z] && evTgt != home { continue; }
      if WouldCreateDiag(b.zone, b.result, z, evictee, evTgt) { continue; }
      if MoveWouldIncreaseMismatches(b.zone, b.result, z, evictee, evTgt) { continue; }
      ghost var occ := b.occupied;
      var score, diagonal := TrialTwo(b, z, id, tgt, evictee, evTgt);
      FloorStepTrans(z, r0, occ0, r0, occ, b.result, b.occupied);
      BestOkAfterTrial(b.zone, r0, occ, b.occupied, z, id, best, startScore, tgt);
      if Agrees(r0, occ0) { SameBoard(z, r0, occ0, b.occupied); }
      if !diagonal && score < best.score {
        best := Best(tgt, Some(evictee), evTgt, score);
        BestOkNew(b.zone, r0, b.occupied, z, id, best, startScore);
      }
    }
    TakeAll(evCands);
  }

  lemma BestOkNew(zone: Zone, r: Layout, occ: Occupancy, z: int, id: RoomId, best: Best, startScore: int)
    requires best.evictee.Some? && z in occ && r.On(id, z) && r.On(best.evictee.value, z) && best.evictee.value != id
    requires r.at[best.evictee.value].AtCell() == best.tgt && best.evTgt != best.tgt
    requires best.evTgt in occ[z] ==> best.evTgt == r.at[id].AtCell()
    requires best.score == Score(zone, Applied(r, z, TwoMoves(id, best.tgt, best.evictee.value, best.evTgt)), z, HEAVY) < startScore
    ensures BestOk(zone, r, occ, z, id, best, startScore)
  {
  }

  lemma SelfDistance(c: Cell)
    ensures Diamond.Dist(c, c) == 0
  {
  }

  /** One cell the occluder may want: the room on it, if any, has to make way. */
  method EvictAt(b: Board, z: int, id: RoomId, tgt: Cell, start: Best, ghost startScore: int) returns (best: Best)
    requires b.Ready() && z in b.occupied && b.result.On(id, z)
    requires 1 <= Diamond.Dist(b.result.at[id].AtCell(), tgt) <= TWO_MOVE_OCCLUDER_RADIUS
    requires BestOk(b.zone, b.result, b.occupied, z, id, start, startScore) && start.score <= startScore
    modifies b`result, b`occupied
    ensures b.Ready() && b.result == old(b.result) && FloorStep(z, old(b.result), old(b.occupied), b.result, b.occupied)
    ensures z in b.occupied && BestOk(b.zone, b.result, b.occupied, z, id, best, startScore) && best.score <= start.score
    ensures Agrees(old(b.result), old(b.occupied)) ==>
      && b.occupied == old(b.occupied)
      && (forall ev :: b.result.On(ev, z) && b.result.at[ev].AtCell() == tgt ==> Unbeaten(b.zone, b.result, b.occupied[z], z, id, ev, best.score))
      && (BestEvicts(b.zone, b.result, b.occupied[z], z, id, start) ==> BestEvicts(b.zone, b.result, b.occupied[z], z, id, best))
  {
    hide Agrees, Score, FloorStep, Evicted, Taken, MoveWouldIncreaseMismatches, WouldCreateDiag, BestOk, Diamond.Dist, BestEvicts;
    best := start;
    ghost var r0, occ0 := b.result, b.occupied;
    FloorStepRefl(z, r0, occ0);
    if Agrees(r0, occ0) { AgreeingAlone(r0, occ0, z); }
    SelfDistance(tgt);
    if tgt == b.result.at[id].AtCell() { return; }
    if WouldCreateDiag(b.zone, b.result, z, id, tgt) { return; }
    if MoveWouldIncreaseMismatches(b.zone, b.result, z, id, tgt) { return; }
    if tgt !in b.occupied[z] { return; }
    var evictee := RoomAt(b.result, z, tgt);
    if evictee.None? { return; }
    best := BestEviction(b, z, id, tgt, evictee.value, best, startScore);
  }

  /** The best pair of moves for one occluder: it takes a neighbour's cell, the neighbour a cell
      nearby. No allowed pair is better than what is done. */
  method EvictFor(b: Board, z: int, id: RoomId)
    requires b.Ready() && z in b.occupied && b.result.On(id, z)
    modifies b`result, b`occupied
    ensures b.Ready() && Improves(b.zone, z, HEAVY, old(b.result), old(b.occupied), b.result, b.occupied)
    ensures Agrees(old(b.result), old(b.occupied)) ==>
      && (forall ev :: Unbeaten(b.zone, old(b.result), old(b.occupied)[z], z, id, ev, Score(b.zone, b.result, z, HEAVY)))
      && (|| (b.result == old(b.result) && b.occupied == old(b.occupied))
          || exists ev, evTgt :: Evicts(b.zone, old(b.result), old(b.occupied)[z], z, id, ev, evTgt) && b.result == Evicted(old(b.result), z, id, ev, evTgt))
  {
    hide Agrees, Score, Improves, FloorStep, Applied, TwoMoves, Taken, MoveWouldIncreaseMismatches, WouldCreateDiag, BestOk, Unbeaten, Diamond.Rings, Diamond.Dist;
    ghost var r0, occ0 := b.result, b.occupied;
    FloorStepRefl(z, r0, occ0);
    var home := b.result.at[id].AtCell();
    var startScore := Score(b.zone, b.result, z, HEAVY);
    var best := Best(home, None, home, startScore);
    BestOkStart(b.zone, r0, occ0, z, id, best);
    var targets := Diamond.Rings(home, 1, TWO_MOVE_OCCLUDER_RADIUS);
    Diamond.RingsMembers(home, 1, TWO_MOVE_OCCLUDER_RADIUS);
    for i := 0 to |targets|
      invariant b.Ready() && b.result == r0 && z in b.occupied && FloorStep(z, r0, occ0, b.result, b.occupied)
      invariant BestOk(b.zone, r0, b.occupied, z, id, best, startScore) && best.score <= startScore
      invariant Agrees(r0, occ0) ==> b.occupied == occ0 && BestEvicts(b.zone, r0, occ0[z], z, id, best)
      invariant Agrees(r0, occ0) ==> forall ev :: r0.On(ev, z) && r0.at[ev].AtCell() in targets[..i] ==> Unbeaten(b.zone, r0, occ0[z], z, id, ev, best.score)
    {
      assert targets[i] in targets;
      TakeStep(targets, i);
      ghost var occ, before := b.occupied, best;
      best := EvictAt(b, z, id, targets[i], best, startScore);
      FloorStepTrans(z, r0, occ0, r0, occ, b.result, b.occupied);
      if Agrees(r0, occ0) {
        forall ev | r0.On(ev, z) && r0.at[ev].AtCell() in targets[..i] ensures Unbeaten(b.zone, r0, occ0[z], z, id, ev, best.score) {
          UnbeatenLower(b.zone, r0, occ0[z], z, id, ev, before.score, best.score);
        }
      }
    }
    TakeAll(targets);
    FarUnbeaten(b.zone, r0, occ0[z], z, id, targets, best.score);
    if best.evictee.Some? {
      ghost var occ := b.occupied;
      BestOkApplies(b.zone, r0, occ, z, id, best, startScore);
      b.Relocate(z, [id, best.evictee.value], TwoMoves(id, best.tgt, best.evictee.value, best.evTgt));
      FloorStepTrans(z, r0, occ0, r0, occ, b.result, b.occupied);
    } else {
      BestScoreStart(b.zone, r0, b.occupied, z, id, best, startScore);
    }
    StepImproves(b.zone, z, HEAVY, r0, occ0, b.result, b.occupied, best.evictee.Some?);
  }

  lemma UnbeatenLower(zone: Zone, r: Layout, cells: set<Cell>, z: int, id: RoomId, evictee: RoomId, score: int, lower: int)
    requires Unbeaten(zone, r, cells, z, id, evictee, score) && lower <= score
    ensures Unbeaten(zone, r, cells, z, id, evictee, lower)
  {
    hide Score, Evicts;
  }

  /** Rooms off the floor or too far away are never evicted. */
  lemma FarUnbeaten(zone: Zone, r: Layout, cells: set<Cell>, z: int, id: RoomId, targets: seq<Cell>, score: int)
    requires id in r.at && forall c :: c in targets <==> 1 <= Diamond.Dist(r.at[id].AtCell(), c) <= TWO_MOVE_OCCLUDER_RADIUS
    ensures forall ev :: !(r.On(ev, z) && r.at[ev].AtCell() in targets) ==> Unbeaten(zone, r, cells, z, id, ev, score)
  {
    hide Diamond.Dist, Score, MoveWouldIncreaseMismatches, WouldCreateDiag, Evicted;
  }

  lemma BestScoreStart(zone: Zone, r: Layout, occ: Occupancy, z: int, id: RoomId, best: Best, startScore: int)
    requires BestOk(zone, r, occ, z, id, best, startScore) && best.evictee.None?
    ensures best.score == startScore
  {
    hide Score;
  }

  lemma BestOkStart(zone: Zone, r: Layout, occ: Occupancy, z: int, id: RoomId, best: Best)
    requires best.evictee.None?
    ensures BestOk(zone, r, occ, z, id, best, best.score)
  {
  }

  lemma BestOkApplies(zone: Zone, r: Layout, occ: Occupancy, z: int, id: RoomId, best: Best, startScore: int)
    requires BestOk(zone, r, occ, z, id, best, startScore) && best.evictee.Some? && r.Valid()
    ensures z in occ
    ensures var to := TwoMoves(id, best.tgt, best.evictee.value, best.evTgt);
            && OnFloor(r, z, to) && (forall x :: x in [id, best.evictee.value] <==> x in to)
            && FloorStep(z, r, occ, Applied(r, z, to), Vacated(occ, z, Cells(Home(r, to)), Cells(to)))
            && best.evictee.value in r.at && Applied(r, z, to) == Evicted(r, z, id, best.evictee.value, best.evTgt)
            && Score(zone, Applied(r, z, to), z, HEAVY) == best.score < startScore
  {
    hide Score, Agrees, Fits, FloorStep;
    TwoMoveKeys(r, z, id, best.tgt, best.evictee.value, best.evTgt);
    TwoMovesFit(r, occ, z, id, best.tgt, best.evictee.value, best.evTgt);
    AppliedStep(r, occ, z, TwoMoves(id, best.tgt, best.evictee.value, best.evTgt));
  }

  ghost predicate EvictionStuck(zone: Zone, r: Layout, cells: set<Cell>, z: int, id: RoomId) {
    forall ev :: Unbeaten(zone, r, cells, z, id, ev, Score(zone, r, z, HEAVY))
  }

  /** Each remaining occluder in turn; if nothing moves, no pair of moves would have helped. */
  method TwoMoveDisplacement(b: Board, zRoomIds: seq<RoomId>, z: int)
    requires b.Ready() && z in b.occupied && forall id :: id in zRoomIds ==> b.result.On(id, z)
    modifies b`result, b`occupied
    ensures b.Ready() && Improves(b.zone, z, HEAVY, old(b.result), old(b.occupied), b.result, b.occupied)
    ensures b.result == old(b.result) && Agrees(old(b.result), old(b.occupied)) ==>
      b.occupied == old(b.occupied)
      && forall id :: id in zRoomIds && OnSomeSegment(b.zone, b.result, z, zRoomIds, id) ==> EvictionStuck(b.zone, b.result, b.occupied[z], z, id)
  {
    hide Agrees, Score, Improves, FloorStep, OnSomeSegment, Unbeaten, Evicts, Evicted;
    ghost var r0, occ0 := b.result, b.occupied;
    ImprovesRefl(b.zone, z, HEAVY, r0, occ0);
    var occluders := OccludingRooms(b.zone, b.result, z, zRoomIds);
    for i := 0 to |occluders|
      invariant b.Ready() && Improves(b.zone, z, HEAVY, r0, occ0, b.result, b.occupied)
      invariant b.result == r0 && Agrees(r0, occ0) ==>
        b.occupied == occ0 && forall id :: id in occluders[..i] ==> EvictionStuck(b.zone, r0, occ0[z], z, id)
    {
      assert occluders[i] in occluders;
      TakeStep(occluders, i);
      ghost var r, occ := b.result, b.occupied;
      ImprovesParts(b.zone, z, HEAVY, r0, occ0, r, occ);
      EvictFor(b, z, occluders[i]);
      ImprovesTrans(b.zone, z, HEAVY, r0, occ0, r, occ, b.result, b.occupied);
      NeverLeft(b.zone, z, r0, occ0, r, occ, b.result, b.occupied);
    }
    TakeAll(occluders);
  }

  // ---- Strategy D: compaction ----

  predicate HasBlocker(r: Layout, zRoomIds: seq<RoomId>, e: Edge, p: Pos, q: Pos) {
    exists i :: 0 <= i < |zRoomIds| && zRoomIds[i] in r.at && Blocks(e, p, q, Placed(zRoomIds[i], r.at[zRoomIds[i]].AtCell()))
  }

  function Towards(anchor: int, mover: int): int {
    anchor + (if mover > anchor then 1 else if mover < anchor then -1 else 0)
  }

  /** No allowed move of the room to a cell beside the anchor lowers the heavy score. */
  ghost predicate EndStuck(zone: Zone, r: Layout, cells: set<Cell>, z: int, mover: RoomId, anchor: RoomId) {
    && mover in r.at && anchor in r.at
    && var adj := Cell(Towards(r.at[anchor].x, r.at[mover].x), Towards(r.at[anchor].y, r.at[mover].y));
       forall c :: Diamond.Dist(adj, c) <= COMPACTION_CANDIDATE_RADIUS && Allowed(zone, r, cells, z, NoNewDiagonal, mover, c) ==>
         Score(zone, r, z, HEAVY) <= Score(zone, Moved(r, mover, c, z), z, HEAVY)
  }

  lemma WithCentre(c: Cell, radius: nat)
    ensures forall d :: d in [c] + Diamond.Rings(c, 1, radius) <==> Diamond.Dist(c, d) <= radius
  {
    Diamond.RingsMembers(c, 1, radius);
    assert forall d :: d in [c] + Diamond.Rings(c, 1, radius) <==> d == c || d in Diamond.Rings(c, 1, radius);
  }

  /** Try to bring one end of an exit next to the other. */
  method Compact(b: Board, z: int, mover: RoomId, anchor: RoomId)
    requires b.Ready() && z in b.occupied && b.result.On(mover, z) && b.result.On(anchor, z)
    modifies b`result, b`occupied
    ensures b.Ready() && Improves(b.zone, z, HEAVY, old(b.result), old(b.occupied), b.result, b.occupied)
    ensures b.result == old(b.result) ==> EndStuck(b.zone, old(b.result), old(b.occupied)[z], z, mover, anchor)
  {
    var m, a := b.result.at[mover], b.result.at[anchor];
    var adj := Cell(Towards(a.x, m.x), Towards(a.y, m.y));
    var cands := [adj] + Diamond.Rings(adj, 1, COMPACTION_CANDIDATE_RADIUS);
    WithCentre(adj, COMPACTION_CANDIDATE_RADIUS);
    hide Agrees, Score, Allowed, Mismatches, NoLoops, FloorStep, Moved, Diamond.Rings, Diamond.Dist;
    var score := Score(b.zone, b.result, z, HEAVY);
    var moved;
    score, moved := MoveToBest(b, z, mover, cands, NoNewDiagonal, HEAVY, score);
  }

  /** A long straight pair of rooms with a room in between cannot be brought together at either end. */
  ghost predicate PairStuck(zone: Zone, r: Layout, cells: set<Cell>, z: int, zRoomIds: seq<RoomId>, x: RoomId, y: RoomId) {
    r.On(x, z) && r.On(y, z) && Between(r, zRoomIds, x, y) ==> EndStuck(zone, r, cells, z, x, y) && EndStuck(zone, r, cells, z, y, x)
  }

  predicate Between(r: Layout, zRoomIds: seq<RoomId>, x: RoomId, y: RoomId)
    requires x in r.at && y in r.at
  {
    Stretch(r.at[x], r.at[y]) >= 2 && !Diagonal(r.at[x], r.at[y]) && HasBlocker(r, zRoomIds, Edge(x, North, y), r.at[x], r.at[y])
  }

  lemma BetweenBoth(zone: Zone, r: Layout, cells: set<Cell>, z: int, zRoomIds: seq<RoomId>, x: RoomId, y: RoomId)
    requires PairStuck(zone, r, cells, z, zRoomIds, x, y)
    ensures PairStuck(zone, r, cells, z, zRoomIds, y, x)
  {
    hide EndStuck;
    if r.On(x, z) && r.On(y, z) && Between(r, zRoomIds, y, x) {
      var i :| 0 <= i < |zRoomIds| && zRoomIds[i] in r.at && Blocks(Edge(y, North, x), r.at[y], r.at[x], Placed(zRoomIds[i], r.at[zRoomIds[i]].AtCell()));
      assert Blocks(Edge(x, North, y), r.at[x], r.at[y], Placed(zRoomIds[i], r.at[zRoomIds[i]].AtCell()));
    }
  }

  /** What is known of the pairs tried, as long as nothing has moved. */
  ghost predicate SeenStuck(zone: Zone, r: Layout, cells: set<Cell>, z: int, zRoomIds: seq<RoomId>, seen: set<set<RoomId>>) {
    forall x, y :: {x, y} in seen ==> PairStuck(zone, r, cells, z, zRoomIds, x, y)
  }

  lemma SeenMore(zone: Zone, r: Layout, cells: set<Cell>, z: int, zRoomIds: seq<RoomId>, seen: set<set<RoomId>>, x: RoomId, y: RoomId)
    requires SeenStuck(zone, r, cells, z, zRoomIds, seen) && PairStuck(zone, r, cells, z, zRoomIds, x, y)
    ensures SeenStuck(zone, r, cells, z, zRoomIds, seen + {{x, y}})
  {
    BetweenBoth(zone, r, cells, z, zRoomIds, x, y);
    hide PairStuck;
    forall a, c | {a, c} in seen + {{x, y}} ensures PairStuck(zone, r, cells, z, zRoomIds, a, c) {
      if {a, c} !in seen {
        assert a in {x, y} && c in {x, y} && x in {a, c} && y in {a, c};
      }
    }
  }

  /** Bring both ends of an exit together, one after the other. */
  method CompactBoth(b: Board, z: int, x: RoomId, y: RoomId)
    requires b.Ready() && z in b.occupied && b.result.On(x, z) && b.result.On(y, z)
    modifies b`result, b`occupied
    ensures b.Ready() && Improves(b.zone, z, HEAVY, old(b.result), old(b.occupied), b.result, b.occupied)
    ensures b.result == old(b.result) && Agrees(old(b.result), old(b.occupied)) ==>
      && b.occupied == old(b.occupied)
      && EndStuck(b.zone, b.result, b.occupied[z], z, x, y) && EndStuck(b.zone, b.result, b.occupied[z], z, y, x)
  {
    hide Agrees, Score, Improves, FloorStep, EndStuck;
    ghost var r0, occ0 := b.result, b.occupied;
    Compact(b, z, x, y);
    ghost var r1, occ1 := b.result, b.occupied;
    ImprovesParts(b.zone, z, HEAVY, r0, occ0, r1, occ1);
    Compact(b, z, y, x);
    ImprovesTrans(b.zone, z, HEAVY, r0, occ0, r1, occ1, b.result, b.occupied);
    NeverLeft(b.zone, z, r0, occ0, r1, occ1, b.result, b.occupied);
  }

  /** The exits of one room, whose position p was read once, before any of them is tried. */
  method CompactExits(b: Board, zRoomIds: seq<RoomId>, z: int, id: RoomId, start: set<set<RoomId>>) returns (seen: set<set<RoomId>>)
    requires b.Ready() && z in b.occupied && b.result.On(id, z)
    modifies b`result, b`occupied
    ensures b.Ready() && Improves(b.zone, z, HEAVY, old(b.result), old(b.occupied), b.result, b.occupied)
    ensures b.result == old(b.result) && Agrees(old(b.result), old(b.occupied)) && SeenStuck(b.zone, old(b.result), old(b.occupied)[z], z, zRoomIds, start) ==>
      && b.occupied == old(b.occupied) && SeenStuck(b.zone, b.result, b.occupied[z], z, zRoomIds, seen)
      && forall e :: e in b.zone.Out(id) ==> PairStuck(b.zone, b.result, b.occupied[z], z, zRoomIds, id, e.to)
  {
    hide Agrees, Score, Improves, FloorStep, HasBlocker, EndStuck;
    seen := start;
    ghost var r0, occ0 := b.result, b.occupied;
    ghost var good := Agrees(r0, occ0) && SeenStuck(b.zone, r0, occ0[z], z, zRoomIds, start);
    ImprovesRefl(b.zone, z, HEAVY, r0, occ0);
    var p := b.result.at[id];
    var out := b.zone.Out(id);
    for j := 0 to |out|
      invariant b.Ready() && Improves(b.zone, z, HEAVY, r0, occ0, b.result, b.occupied)
      invariant b.result == r0 && good ==>
        && b.occupied == occ0 && SeenStuck(b.zone, r0, occ0[z], z, zRoomIds, seen)
        && forall e :: e in out[..j] ==> PairStuck(b.zone, r0, occ0[z], z, zRoomIds, id, e.to)
    {
      var e := out[j];
      TakeStep(out, j);
      ghost var r, occ := b.result, b.occupied;
      ImprovesParts(b.zone, z, HEAVY, r0, occ0, r, occ);
      if !b.result.On(e.to, z) { continue; }
      var q := b.result.at[e.to];
      if Stretch(p, q) < 2 { continue; }
      if Diagonal(p, q) { continue; }
      if {id, e.to} in seen { continue; }
      AnyDirection(r, zRoomIds, id, e.dir, e.to, p, q);
      ghost var before := seen;
      seen := seen + {{id, e.to}};
      if !HasBlocker(b.result, zRoomIds, Edge(id, e.dir, e.to), p, q) {
        if r == r0 && good { SeenMore(b.zone, r0, occ0[z], z, zRoomIds, before, id, e.to); }
        continue;
      }
      CompactBoth(b, z, id, e.to);
      ImprovesTrans(b.zone, z, HEAVY, r0, occ0, r, occ, b.result, b.occupied);
      NeverLeft(b.zone, z, r0, occ0, r, occ, b.result, b.occupied);
      if b.result == r0 && good { SeenMore(b.zone, r0, occ0[z], z, zRoomIds, before, id, e.to); }
    }
    TakeAll(out);
  }

  lemma AnyDirection(r: Layout, zRoomIds: seq<RoomId>, x: RoomId, d: Dir, y: RoomId, p: Pos, q: Pos)
    ensures HasBlocker(r, zRoomIds, Edge(x, d, y), p, q) <==> HasBlocker(r, zRoomIds, Edge(x, North, y), p, q)
  {
  }

  ghost predicate CompactStuck(zone: Zone, r: Layout, cells: set<Cell>, z: int, zRoomIds: seq<RoomId>, id: RoomId) {
    forall e :: e in zone.Out(id) ==> PairStuck(zone, r, cells, z, zRoomIds, id, e.to)
  }

  /** Each long straight exit with a room on it; if nothing moves, no exit could be shortened. */
  method CompactSegments(b: Board, zRoomIds: seq<RoomId>, z: int)
    requires b.Ready() && z in b.occupied && forall id :: id in zRoomIds ==> b.result.On(id, z)
    modifies b`result, b`occupied
    ensures b.Ready() && Improves(b.zone, z, HEAVY, old(b.result), old(b.occupied), b.result, b.occupied)
    ensures b.result == old(b.result) && Agrees(old(b.result), old(b.occupied)) ==>
      b.occupied == old(b.occupied) && forall id :: id in zRoomIds ==> CompactStuck(b.zone, b.result, b.occupied[z], z, zRoomIds, id)
  {
    hide Agrees, Score, Improves, FloorStep, PairStuck, Zone.Out;
    ghost var r0, occ0 := b.result, b.occupied;
    ImprovesRefl(b.zone, z, HEAVY, r0, occ0);
    var seen: set<set<RoomId>> := {};
    for i := 0 to |zRoomIds|
      invariant b.Ready() && Improves(b.zone, z, HEAVY, r0, occ0, b.result, b.occupied)
      invariant b.result == r0 && Agrees(r0, occ0) ==>
        && b.occupied == occ0 && SeenStuck(b.zone, r0, occ0[z], z, zRoomIds, seen)
        && forall id :: id in zRoomIds[..i] ==> CompactStuck(b.zone, r0, occ0[z], z, zRoomIds, id)
    {
      var id := zRoomIds[i];
      assert id in zRoomIds;
      TakeStep(zRoomIds, i);
      ghost var r, occ := b.result, b.occupied;
      ImprovesParts(b.zone, z, HEAVY, r0, occ0, r, occ);
      seen := CompactExits(b, zRoomIds, z, id, seen);
      ImprovesTrans(b.zone, z, HEAVY, r0, occ0, r, occ, b.result, b.occupied);
      NeverLeft(b.zone, z, r0, occ0, r, occ, b.result, b.occupied);
    }
    TakeAll(zRoomIds);
  }

  // ---- The phase ----

  /** No strategy that would still be tried has a move that lowers the heavy score. */
  ghost predicate OcclusionStuck(zone: Zone, r: Layout, cells: set<Cell>, z: int) {
    var ids := FloorRooms(r, z);
    && (forall id :: id in ids ==> SingleStuck(zone, r, cells, z, id))
    && NoBetterSwaps(zone, r, z, NoNewDiagonal, HEAVY)
    && (Segments.CountOcclusions(zone, r, z) > 0 ==>
         && (forall id :: id in ids && OnSomeSegment(zone, r, z, ids, id) ==> OccluderStuck(zone, r, cells, z, id) && EvictionStuck(zone, r, cells, z, id))
         && (forall id :: id in ids ==> CompactStuck(zone, r, cells, z, ids, id)))
  }

  /** What one floor's turn comes to. */
  ghost predicate Spaced(zone: Zone, z: int, r: Layout, occ: Occupancy, r': Layout, occ': Occupancy) {
    && Improves(zone, z, HEAVY, r, occ, r', occ')
    && (r' == r && Agrees(r, occ) ==> occ' == occ && (Perfect(zone, r, z) || (z in occ && OcclusionStuck(zone, r, occ[z], z))))
  }

  /** Phases 6 and 8 on one floor: the heavy score falls, or nothing has moved; and nothing moves
      only if the score is zero or no strategy has a move that lowers it. */
  method FixFloorOcclusions(b: Board, z: int)
    requires b.Ready() && z in b.occupied
    modifies b`result, b`occupied
    ensures b.Ready() && Spaced(b.zone, z, old(b.result), old(b.occupied), b.result, b.occupied)
    ensures Perfect(b.zone, old(b.result), z) ==> b.result == old(b.result) && b.occupied == old(b.occupied)
  {
    hide Agrees, Score, Improves, FloorStep, Perfect, Segments.CountOcclusions, SingleStuck, NoBetterSwaps, OnSomeSegment, OccluderStuck, EvictionStuck, CompactStuck, FloorRoomsOf;
    ghost var r0, occ0 := b.result, b.occupied;
    ImprovesRefl(b.zone, z, HEAVY, r0, occ0);
    var zRoomIds := FloorRooms(b.result, z);
    FloorRoomsDistinct(b.result, z, b.result.order);
    ScoreZeroIffPerfect(b.zone, r0, z, HEAVY);
    var score := Score(b.zone, b.result, z, HEAVY);
    if score == 0 { return; }
    ghost var done;
    score, done := SingleMoves(b, zRoomIds, z, score);
    ghost var r1, occ1 := b.result, b.occupied;
    ImprovesParts(b.zone, z, HEAVY, r0, occ0, r1, occ1);
    ImprovesStep(b.zone, z, HEAVY, r0, occ0, r1, occ1);
    SameFloorRooms(z, r0, occ0, r1, occ1);
    if score > 0 {
      score, done := Swaps(b, zRoomIds, z, score);
      ImprovesTrans(b.zone, z, HEAVY, r0, occ0, r1, occ1, b.result, b.occupied);
      NeverLeft(b.zone, z, r0, occ0, r1, occ1, b.result, b.occupied);
      ImprovesParts(b.zone, z, HEAVY, r0, occ0, b.result, b.occupied);
    }
    ghost var r2, occ2 := b.result, b.occupied;
    Spread(b, zRoomIds, z);
    ImprovesTrans(b.zone, z, HEAVY, r0, occ0, r2, occ2, b.result, b.occupied);
    NeverLeft(b.zone, z, r0, occ0, r2, occ2, b.result, b.occupied);
  }

  /** Strategies C and D, while there are occlusions. */
  method Spread(b: Board, zRoomIds: seq<RoomId>, z: int)
    requires b.Ready() && z in b.occupied && forall id :: id in zRoomIds ==> b.result.On(id, z)
    modifies b`result, b`occupied
    ensures b.Ready() && Improves(b.zone, z, HEAVY, old(b.result), old(b.occupied), b.result, b.occupied)
    ensures b.result == old(b.result) && Agrees(old(b.result), old(b.occupied)) && Segments.CountOcclusions(b.zone, b.result, z) > 0 ==>
      && b.occupied == old(b.occupied)
      && (forall id :: id in zRoomIds && OnSomeSegment(b.zone, b.result, z, zRoomIds, id) ==>
           OccluderStuck(b.zone, b.result, b.occupied[z], z, id) && EvictionStuck(b.zone, b.result, b.occupied[z], z, id))
      && (forall id :: id in zRoomIds ==> CompactStuck(b.zone, b.result, b.occupied[z], z, zRoomIds, id))
  {
    hide Agrees, Score, Improves, FloorStep, Segments.CountOcclusions, OnSomeSegment, OccluderStuck, EvictionStuck, CompactStuck;
    ghost var r0, occ0 := b.result, b.occupied;
    ImprovesRefl(b.zone, z, HEAVY, r0, occ0);
    if Segments.CountOcclusions(b.zone, b.result, z) > 0 {
      DisplaceOccluders(b, zRoomIds, z);
      ghost var r, occ := b.result, b.occupied;
      ImprovesParts(b.zone, z, HEAVY, r0, occ0, r, occ);
      TwoMoveDisplacement(b, zRoomIds, z);
      ImprovesTrans(b.zone, z, HEAVY, r0, occ0, r, occ, b.result, b.occupied);
      NeverLeft(b.zone, z, r0, occ0, r, occ, b.result, b.occupied);
      ImprovesParts(b.zone, z, HEAVY, r0, occ0, b.result, b.occupied);
    }
    if Segments.CountOcclusions(b.zone, b.result, z) > 0 {
      ghost var r, occ := b.result, b.occupied;
      CompactSegments(b, zRoomIds, z);
      ImprovesTrans(b.zone, z, HEAVY, r0, occ0, r, occ, b.result, b.occupied);
      NeverLeft(b.zone, z, r0, occ0, r, occ, b.result, b.occupied);
    }
  }

  lemma SpacedImproves(zone: Zone, z: int, r: Layout, occ: Occupancy, r': Layout, occ': Occupancy)
    requires Spaced(zone, z, r, occ, r', occ')
    ensures FloorStep(z, r, occ, r', occ') && Score(zone, r', z, HEAVY) <= Score(zone, r, z, HEAVY)
  {
    ImprovesParts(zone, z, HEAVY, r, occ, r', occ');
    ImprovesStep(zone, z, HEAVY, r, occ, r', occ');
    hide OcclusionStuck, Score, FloorStep, Improves, Perfect, Agrees;
  }

  ghost predicate SpaceRun(zone: Zone, floors: seq<int>, s: State, s': State, run: seq<State>) {
    && Run(run, |floors|, s, s')
    && forall i :: 0 <= i < |floors| ==> Spaced(zone, floors[i], run[i].r, run[i].occ, run[i + 1].r, run[i + 1].occ)
  }

  /** The phase took the floors in turn. */
  ghost predicate SpacedAll(zone: Zone, floors: seq<int>, s: State, s': State) {
    exists run :: SpaceRun(zone, floors, s, s', run)
  }

  /** Phases 6 and 8: every floor in turn; no floor's heavy score rises. */
  method FixOcclusions(b: Board)
    requires b.Ready()
    modifies b`result, b`occupied
    ensures b.Ready() && Kept(old(b.result), old(b.occupied), b.result, b.occupied)
    ensures AllPerfect(b.zone, old(b.result)) ==> b.result == old(b.result) && b.occupied == old(b.occupied)
    ensures forall z :: Score(b.zone, b.result, z, HEAVY) <= Score(b.zone, old(b.result), z, HEAVY)
    ensures SpacedAll(b.zone, b.floors, State(old(b.result), old(b.occupied)), State(b.result, b.occupied))
  {
    hide Agrees, Score, Spaced, FloorStep, Perfect, Kept;
    ghost var r0, occ0 := b.result, b.occupied;
    KeptRefl(r0, occ0);
    ghost var run := [State(r0, occ0)];
    for i := 0 to |b.floors|
      invariant b.Ready() && Kept(r0, occ0, b.result, b.occupied)
      invariant AllPerfect(b.zone, r0) ==> b.result == r0 && b.occupied == occ0
      invariant forall z :: Score(b.zone, b.result, z, HEAVY) <= Score(b.zone, r0, z, HEAVY)
      invariant Run(run, i, State(r0, occ0), State(b.result, b.occupied))
      invariant forall j :: 0 <= j < i ==> Spaced(b.zone, b.floors[j], run[j].r, run[j].occ, run[j + 1].r, run[j + 1].occ)
    {
      var z := b.floors[i];
      assert z in b.floors;
      ghost var r, occ := b.result, b.occupied;
      FixFloorOcclusions(b, z);
      SpacedImproves(b.zone, z, r, occ, b.result, b.occupied);
      KeptStep(z, r0, occ0, r, occ, b.result, b.occupied);
      forall y | y != z ensures Score(b.zone, b.result, y, HEAVY) == Score(b.zone, r, y, HEAVY) {
        OtherFloors(z, y, r, occ, b.result, b.occupied);
        ScoreFrame(b.zone, r, b.result, y, HEAVY);
      }
      run := run + [State(b.result, b.occupied)];
    }
    assert SpaceRun(b.zone, b.floors, State(r0, occ0), State(b.result, b.occupied), run);
  }
}
