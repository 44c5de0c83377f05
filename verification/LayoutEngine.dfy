/** The layout engine: placement, then the repair phases in their order. */
module LayoutEngine {
  import opened Zones
  import opened Boards
  import opened Scores
  import opened Segments
  import Align
  import Cascades
  import Crossings
  import opened Drawability
  import Expansion
  import Insertions
  import Occlusions
  import Placement
  import Relax
  import Validator
  import Violations
  import VisualPaths

  const EXPANSION_OCCLUSION_ROUNDS := 3

  // ---- Phase 9 ----

  lemma OcclusionsFrame(zone: Zone, r: Layout, r': Layout, z: int)
    requires SameFloor(r, r', z)
    ensures CountOcclusions(zone, r', z) == CountOcclusions(zone, r, z)
  {
    SnapshotFrame(r, r', z, r.order);
    TotalEq(zone, r.order, OcclusionFn(r', z), OcclusionFn(r, z));
  }

  lemma RestoredFloor(r: Layout, r0: Layout, z: int)
    requires SameFloors(r0, r)
    ensures SameFloors(r0, Insertions.Restored(r, r0, z)) && SameFloor(r0, Insertions.Restored(r, r0, z), z)
  {
  }

  lemma SameFloorsTrans(r: Layout, r1: Layout, r2: Layout)
    requires SameFloors(r, r1) && SameFloors(r1, r2)
    ensures SameFloors(r, r2)
  {
  }

  lemma KeptParts(r: Layout, occ: Occupancy, r': Layout, occ': Occupancy)
    requires Kept(r, occ, r', occ')
    ensures SameFloors(r, r') && occ'.Keys == occ.Keys
    ensures Agrees(r, occ) ==> Agrees(r', occ')
  {
    hide Agrees, SameFloors;
  }

  /** One round of phase 9: an insertion on some floor and the occlusion fix after it, and the floor
      is put back if it has more than two new occlusions. The phase stops there, or if there was no
      insertion. */
  ghost predicate RoundVia(zone: Zone, floors: seq<int>, z: int, s: State, total: nat, s1: State, s2: State, stop: bool, s': State) {
    && Insertions.InsertedAll(zone, floors, Some(1), true, s, s1, total)
    && (total == 0 ==> stop && s' == s)
    && (total > 0 ==>
         && Occlusions.SpacedAll(zone, floors, s1, s2)
         && var worse := CountOcclusions(zone, s2.r, z) > CountOcclusions(zone, s.r, z) + 2;
         && stop == worse && (worse ==> z in s.occ)
         && s' == if worse then State(Insertions.Restored(s2.r, s.r, z), s2.occ[z := s.occ[z]]) else s2)
  }

  ghost predicate Round(zone: Zone, floors: seq<int>, z: int, s: State, stop: bool, s': State) {
    exists total, s1, s2 :: RoundVia(zone, floors, z, s, total, s1, s2, stop, s')
  }

  /** One insertion with the occlusion fix after it; the floor is put back if that leaves more
      than two new occlusions on it. */
  method FinalStep(b: Board, z: int) returns (stop: bool)
    requires b.Ready() && z in b.occupied
    modifies b`result, b`occupied
    ensures b.Ready() && SameFloors(old(b.result), b.result) && b.occupied.Keys == old(b.occupied).Keys
    ensures CountOcclusions(b.zone, b.result, z) <= CountOcclusions(b.zone, old(b.result), z) + 2
    ensures Round(b.zone, b.floors, z, State(old(b.result), old(b.occupied)), stop, State(b.result, b.occupied))
  {
    hide ReadyState, SameFloors, CountOcclusions, CountCrossings, Insertions.InsertedAll, Occlusions.SpacedAll, Relax.AllPerfect, Snapshot, Kept, Score, Insertions.Restored;
    ghost var r0, occ0 := b.result, b.occupied;
    ReadyParts(b.zone, r0, b.floors, occ0);
    var snap := Snapshot(b.result, z);
    var occSnap := b.occupied[z];
    var occBefore := CountOcclusions(b.zone, b.result, z);
    var fixed := Insertions.FixCrossingsByInsertion(b, Some(1), true);
    Insertions.FixedNone(b.zone, true, fixed, r0, occ0, b.result, b.occupied);
    ghost var r1, occ1 := b.result, b.occupied;
    if fixed == 0 {
      assert RoundVia(b.zone, b.floors, z, State(r0, occ0), fixed, State(r1, occ1), State(r1, occ1), true, State(b.result, b.occupied));
      return true;
    }
    Occlusions.FixOcclusions(b);
    ghost var r2, occ2 := b.result, b.occupied;
    KeptParts(r1, occ1, b.result, b.occupied);
    SameFloorsTrans(r0, r1, b.result);
    stop := false;
    if CountOcclusions(b.zone, b.result, z) > occBefore + 2 {
      RestoredFloor(b.result, r0, z);
      Insertions.RestoreFloor(b, z, snap, r0);
      b.occupied := b.occupied[z := occSnap];
      StillReady(b.zone, r0, b.floors, occ0, b.result, b.occupied);
      OcclusionsFrame(b.zone, r0, b.result, z);
      stop := true;
    }
    assert RoundVia(b.zone, b.floors, z, State(r0, occ0), fixed, State(r1, occ1), State(r2, occ2), stop, State(b.result, b.occupied));
  }

  /** Rounds follow one another while there are crossings, up to the cap. */
  ghost predicate Rounds(zone: Zone, floors: seq<int>, z: int, run: seq<State>, stop: bool) {
    && 0 < |run| <= Insertions.INSERTION_FIX_PASSES + 1
    && (forall i :: 0 <= i < |run| - 1 ==> CountCrossings(zone, run[i].r, z) != 0 && Round(zone, floors, z, run[i], stop && i == |run| - 2, run[i + 1]))
    && (CountCrossings(zone, run[|run| - 1].r, z) == 0 || stop || |run| == Insertions.INSERTION_FIX_PASSES + 1)
  }

  /** Phase 9 on one floor. */
  method FinalFloor(b: Board, z: int) returns (ghost run: seq<State>, ghost stopped: bool)
    requires b.Ready() && z in b.occupied
    modifies b`result, b`occupied
    ensures b.Ready() && SameFloors(old(b.result), b.result) && b.occupied.Keys == old(b.occupied).Keys
    ensures CountOcclusions(b.zone, b.result, z) <= CountOcclusions(b.zone, old(b.result), z) + 2 * Insertions.INSERTION_FIX_PASSES
    ensures CountCrossings(b.zone, old(b.result), z) == 0 ==> b.result == old(b.result) && b.occupied == old(b.occupied)
    ensures Rounds(b.zone, b.floors, z, run, stopped)
    ensures run[0] == State(old(b.result), old(b.occupied)) && run[|run| - 1] == State(b.result, b.occupied)
  {
    hide ReadyState, SameFloors, CountOcclusions, CountCrossings, Round;
    ghost var r0, occ0 := b.result, b.occupied;
    SameFloorsRefl(r0);
    run, stopped := [State(r0, occ0)], false;
    for iter := 0 to Insertions.INSERTION_FIX_PASSES
      invariant b.Ready() && SameFloors(r0, b.result) && b.occupied.Keys == occ0.Keys
      invariant CountOcclusions(b.zone, b.result, z) <= CountOcclusions(b.zone, r0, z) + 2 * iter
      invariant CountCrossings(b.zone, r0, z) == 0 ==> b.result == r0 && b.occupied == occ0
      invariant !stopped && |run| == iter + 1 && run[0] == State(r0, occ0) && run[iter] == State(b.result, b.occupied)
      invariant forall i :: 0 <= i < iter ==> CountCrossings(b.zone, run[i].r, z) != 0 && Round(b.zone, b.floors, z, run[i], false, run[i + 1])
    {
      if CountCrossings(b.zone, b.result, z) == 0 { break; }
      ghost var r := b.result;
      var stop := FinalStep(b, z);
      SameFloorsTrans(r0, r, b.result);
      run := run + [State(b.result, b.occupied)];
      if stop {
        stopped := true;
        break;
      }
    }
  }

  /** What phase 9 does on one floor. */
  ghost predicate FloorFinished(zone: Zone, floors: seq<int>, z: int, s: State, s': State) {
    && CountOcclusions(zone, s'.r, z) <= CountOcclusions(zone, s.r, z) + 2 * Insertions.INSERTION_FIX_PASSES
    && exists run, stop :: Rounds(zone, floors, z, run, stop) && run[0] == s && run[|run| - 1] == s'
  }

  ghost predicate FinishRun(zone: Zone, floors: seq<int>, s: State, s': State, run: seq<State>) {
    Run(run, |floors|, s, s') && forall i :: 0 <= i < |floors| ==> FloorFinished(zone, floors, floors[i], run[i], run[i + 1])
  }

  /** Phase 9 took the floors in turn. */
  ghost predicate FinishedAll(zone: Zone, floors: seq<int>, s: State, s': State) {
    exists run :: FinishRun(zone, floors, s, s', run)
  }

  lemma SameFloorsRefl(r: Layout)
    ensures SameFloors(r, r)
  {
  }

  method FinalCrossings(b: Board)
    requires b.Ready()
    modifies b`result, b`occupied
    ensures b.Ready() && SameFloors(old(b.result), b.result)
    ensures Relax.AllPerfect(b.zone, old(b.result)) ==> b.result == old(b.result) && b.occupied == old(b.occupied)
    ensures FinishedAll(b.zone, b.floors, State(old(b.result), old(b.occupied)), State(b.result, b.occupied))
  {
    hide ReadyState, SameFloors, CountOcclusions, CountCrossings, Perfect, Rounds;
    ghost var r0, occ0 := b.result, b.occupied;
    ghost var run := [State(r0, occ0)];
    SameFloorsRefl(r0);
    for i := 0 to |b.floors|
      invariant b.Ready() && SameFloors(r0, b.result)
      invariant Relax.AllPerfect(b.zone, r0) ==> b.result == r0 && b.occupied == occ0
      invariant Run(run, i, State(r0, occ0), State(b.result, b.occupied))
      invariant forall j :: 0 <= j < i ==> FloorFinished(b.zone, b.floors, b.floors[j], run[j], run[j + 1])
    {
      FloorIsOpen(b.zone, b.result, b.floors, b.occupied, i);
      ReadyParts(b.zone, b.result, b.floors, b.occupied);
      ghost var r := b.result;
      if Perfect(b.zone, r, b.floors[i]) { PerfectIsClear(b.zone, r, b.floors[i]); }
      ghost var rounds, stopped := FinalFloor(b, b.floors[i]);
      SameFloorsTrans(r0, r, b.result);
      run := run + [State(b.result, b.occupied)];
    }
    assert FinishRun(b.zone, b.floors, State(r0, occ0), State(b.result, b.occupied), run);
  }

  // ---- The pipeline ----

  /** The two structures after each group of phases. */
  datatype Trace = Trace(placed: State, relaxed: State, straightened: State, repaired: State, aligned: State,
                         untangled: State, inserted: State, spaced: State, finished: State)

  /** The phases ran one after the other, each to its own end. */
  ghost predicate PhasesRan(zone: Zone, floors: seq<int>, t: Trace) {
    && Relax.RelaxedAll(zone, floors, t.placed, t.relaxed)
    && Cascades.CascadedAll(zone, floors, t.relaxed, t.straightened)
    && Violations.RepairedAll(zone, floors, t.straightened, t.repaired)
    && Align.AlignedAll(zone, floors, t.repaired, t.aligned)
    && Crossings.UntangledAll(zone, floors, t.aligned, t.untangled)
    && (exists total :: Insertions.InsertedAll(zone, floors, None, false, t.untangled, t.inserted, total))
    && WasSpaced(zone, floors, t.inserted, t.spaced)
    && FinishedAll(zone, floors, t.spaced, t.finished)
  }

  /** What the phases promise of one another. */
  ghost predicate PhasesKept(zone: Zone, R: nat, t: Trace) {
    && Exact(t.placed.r, t.placed.occ)
    && (Placement.Small(zone, R) ==> Agrees(t.repaired.r, t.repaired.occ))
    && (forall z :: Score(zone, t.repaired.r, z, LIGHT) <= Score(zone, t.straightened.r, z, LIGHT))
    && (forall z :: Crossings.NotWorse(zone, t.aligned.r, t.untangled.r, z))
    && (Agrees(t.aligned.r, t.aligned.occ) ==> Agrees(t.untangled.r, t.untangled.occ))
    && (forall z :: Insertions.FloorNotWorse(zone, false, t.untangled.r, t.inserted.r, z))
    && (Agrees(t.untangled.r, t.untangled.occ) && Insertions.AllStraight(zone, t.untangled.r) ==> Agrees(t.inserted.r, t.inserted.occ))
    && (forall z :: Score(zone, t.spaced.r, z, HEAVY) <= Score(zone, t.inserted.r, z, HEAVY))
    && (Agrees(t.inserted.r, t.inserted.occ) ==> Agrees(t.spaced.r, t.spaced.occ))
  }

  lemma FixedParts(zone: Zone, weighted: bool, total: nat, r: Layout, occ: Occupancy, r': Layout, occ': Occupancy)
    requires Insertions.Fixed(zone, weighted, total, r, occ, r', occ')
    ensures forall z :: Insertions.FloorNotWorse(zone, weighted, r, r', z)
    ensures total == 0 ==> r' == r && occ' == occ
    ensures Agrees(r, occ) && Insertions.AllStraight(zone, r) ==> Agrees(r', occ')
  {
    hide Insertions.FloorNotWorse, Agrees, Insertions.AllStraight, CountCrossings, Mismatches;
  }

  lemma KeptTrans(r: Layout, occ: Occupancy, r1: Layout, occ1: Occupancy, r2: Layout, occ2: Occupancy)
    requires Kept(r, occ, r1, occ1) && Kept(r1, occ1, r2, occ2)
    ensures Kept(r, occ, r2, occ2)
  {
    hide Agrees;
  }

  /** An occlusion fix, then so many rounds of an expansion and another fix. */
  ghost predicate SpacingRun(zone: Zone, floors: seq<int>, rounds: nat, s: State, s': State, run: seq<State>) {
    && Run(run, 2 * rounds + 1, s, s') && Occlusions.SpacedAll(zone, floors, run[0], run[1])
    && forall i :: 0 <= i < rounds ==>
         Expansion.ExpandedAll(zone, floors, run[2 * i + 1], run[2 * i + 2]) && Occlusions.SpacedAll(zone, floors, run[2 * i + 2], run[2 * i + 3])
  }

  ghost predicate WasSpaced(zone: Zone, floors: seq<int>, s: State, s': State) {
    exists run :: SpacingRun(zone, floors, EXPANSION_OCCLUSION_ROUNDS, s, s', run)
  }

  /** Phases 6 to 8. */
  method SpaceOut(b: Board)
    requires b.Ready()
    modifies b`result, b`occupied
    ensures b.Ready() && Kept(old(b.result), old(b.occupied), b.result, b.occupied)
    ensures forall z :: Score(b.zone, b.result, z, HEAVY) <= Score(b.zone, old(b.result), z, HEAVY)
    ensures Relax.AllPerfect(b.zone, old(b.result)) ==> b.result == old(b.result) && b.occupied == old(b.occupied)
    ensures WasSpaced(b.zone, b.floors, State(old(b.result), old(b.occupied)), State(b.result, b.occupied))
  {
    hide ReadyState, Score, Kept, Relax.AllPerfect, Diagonals, Mismatches, Occlusions.SpacedAll, Expansion.ExpandedAll;
    ghost var r0, occ0 := b.result, b.occupied;
    Occlusions.FixOcclusions(b);
    ghost var run := [State(r0, occ0), State(b.result, b.occupied)];
    for round := 0 to EXPANSION_OCCLUSION_ROUNDS
      invariant b.Ready() && Kept(r0, occ0, b.result, b.occupied)
      invariant forall z :: Score(b.zone, b.result, z, HEAVY) <= Score(b.zone, r0, z, HEAVY)
      invariant Relax.AllPerfect(b.zone, r0) ==> b.result == r0 && b.occupied == occ0
      invariant SpacingRun(b.zone, b.floors, round, State(r0, occ0), State(b.result, b.occupied), run)
    {
      ghost var r, occ := b.result, b.occupied;
      Expansion.ResolveOcclusionsByExpansion(b);
      ghost var r1, occ1 := b.result, b.occupied;
      KeptTrans(r0, occ0, r, occ, r1, occ1);
      Occlusions.FixOcclusions(b);
      KeptTrans(r0, occ0, r1, occ1, b.result, b.occupied);
      run := run + [State(r1, occ1), State(b.result, b.occupied)];
    }
  }

  /** computeLayout. For any map v that satisfies every exit and puts no two rooms on one cell,
      with the entry at the origin, the result is v. */
  method ComputeLayout(zone: Zone, R: nat, entry: RoomId, ghost v: map<RoomId, Pos>) returns (b: Board, ghost t: Trace)
    requires zone.Valid()
    ensures fresh(b) && b.zone == zone && b.Ready()
    ensures SameFloors(t.placed.r, b.result) && PhasesKept(zone, R, t)
    ensures PhasesRan(zone, b.floors, t) && t.finished == State(b.result, b.occupied)
    ensures Ideal(zone, entry, v) ==> b.result.at == v
  {
    hide ReadyState, Score, Kept, Relax.AllPerfect, Diagonals, Mismatches, SameFloors, Exact, NoOverlap, Agrees, Placement.Small, Placement.Embeds,
      Placement.AllReachable, Crossings.NotWorse, Insertions.FloorNotWorse, Insertions.Fixed, Insertions.AllStraight, CountCrossings,
      Relax.RelaxedAll, Cascades.CascadedAll, Violations.RepairedAll, Align.AlignedAll, Crossings.UntangledAll, Insertions.InsertedAll, WasSpaced, FinishedAll;
    b := Placement.PlaceRooms(zone, R, entry, v);
    var s0 := State(b.result, b.occupied);
    if Ideal(zone, entry, v) {
      ReadyParts(zone, b.result, b.floors, b.occupied);
      EmbeddingIsPerfect(zone, v, b.result);
    }
    SameFloorsRefl(b.result);
    Relax.ForceDirectedRelax(b);
    var s1 := State(b.result, b.occupied);
    KeptParts(s0.r, s0.occ, s1.r, s1.occ);
    Cascades.FixDiagonalCascade(b);
    var s2 := State(b.result, b.occupied);
    KeptParts(s1.r, s1.occ, s2.r, s2.occ);
    SameFloorsTrans(s0.r, s1.r, s2.r);
    Violations.FixDirectionViolations(b);
    var s3 := State(b.result, b.occupied);
    KeptParts(s2.r, s2.occ, s3.r, s3.occ);
    SameFloorsTrans(s0.r, s2.r, s3.r);
    Align.FixCardinalAlignment(b);
    var s4 := State(b.result, b.occupied);
    SameFloorsTrans(s0.r, s3.r, s4.r);
    Crossings.FixEdgeCrossings(b);
    var s5 := State(b.result, b.occupied);
    KeptParts(s4.r, s4.occ, s5.r, s5.occ);
    SameFloorsTrans(s0.r, s4.r, s5.r);
    var fixes := Insertions.FixCrossingsByInsertion(b, None, false);
    var s6 := State(b.result, b.occupied);
    FixedParts(zone, false, fixes, s5.r, s5.occ, s6.r, s6.occ);
    SameFloorsTrans(s0.r, s5.r, s6.r);
    SpaceOut(b);
    var s7 := State(b.result, b.occupied);
    KeptParts(s6.r, s6.occ, s7.r, s7.occ);
    SameFloorsTrans(s0.r, s6.r, s7.r);
    FinalCrossings(b);
    SameFloorsTrans(s0.r, s7.r, b.result);
    t := Trace(s0, s1, s2, s3, s4, s5, s6, s7, State(b.result, b.occupied));
  }

  /** A layout that satisfies every exit by one step is perfect on every floor. */
  lemma EmbeddingIsPerfect(zone: Zone, v: map<RoomId, Pos>, r: Layout)
    requires Placement.Embeds(zone, v) && zone.Valid() && r.Valid() && r.at == v
    ensures Relax.AllPerfect(zone, r)
  {
    forall z, id, e | id in r.order && e in zone.Out(id) && BothOn(r, z, e)
      ensures r.at[e.to] == Plus(r.at[e.from], Off(e.dir))
    {
      OutMembers(id, zone.ExitsOf(id));
      assert Exit(e.dir, e.to) in zone.exits[id];
    }
  }

  /** Perfect floors have no crossing in visual mode either, so the last pass finds nothing to do. */
  lemma PerfectLooksClear(zone: Zone, r: Layout, z: int)
    requires zone.Valid() && r.Valid() && (forall id :: id in r.order <==> id in zone.ids) && Perfect(zone, r, z)
    ensures VisualPaths.CountVisualCrossings(zone, r, z) == 0
  {
    PerfectIsClear(zone, r, z);
    VisualPaths.VisualAgrees(zone, r, z);
  }

  // ---- The engine and the validator ----

  /** The validator's verdict is the engine's result: when it finds no conflict and no collision in
      a zone whose exits are cardinal and stay inside, and every room can be reached, the layout is
      exactly the positions it computed. */
  method LayoutOfValidZone(zone: Zone, R: nat, entry: RoomId) returns (report: Validator.Report, b: Board, ghost positions: map<RoomId, Pos>)
    requires zone.Valid() && entry in zone.ids
    ensures Validator.Explored(zone, entry, positions)
    ensures report.valid <==> Validator.Consistent(zone, positions) && Validator.Injective(positions)
    // The verdict, the exits and the floors decide whether the zone can be drawn.
    ensures AllReached(zone, positions) ==> (Drawable(zone) <==> report.valid && StaysInside(zone) && HasFloors(zone))
    ensures Covered(zone, positions) && AllCardinal(zone) ==> (Drawable(zone) <==> report.valid)
    ensures AllReached(zone, positions) && Drawable(zone) ==> b.result.at == positions
    ensures report.valid && Covered(zone, positions) && LevelsAgree(zone, positions) ==> b.result.at == positions
    ensures report.valid && Covered(zone, positions) && AllCardinal(zone) ==> b.result.at == positions
    // Phase 10 would find no crossing on any floor, and so leave the layout as it is.
    ensures report.valid && Covered(zone, positions) && (LevelsAgree(zone, positions) || AllCardinal(zone)) ==>
      forall z :: VisualPaths.CountVisualCrossings(zone, b.result, z) == 0
  {
    hide Validator.Explored, Validator.FirstVisits, Validator.Consistent, Validator.Injective, StaysInside, AllReached, HasFloors, Drawable, AllCardinal, LevelsAgree, PhasesKept, PhasesRan, Ideal;
    ghost var firstVia;
    ghost var order;
    report, order, positions, firstVia := Validator.ValidateZoneTopology(zone, entry);
    if AllReached(zone, positions) {
      DrawableIff(zone, entry, positions);
      if StaysInside(zone) && AllCardinal(zone) { CardinalLevels(zone, entry, positions); }
      if report.valid && StaysInside(zone) && LevelsAgree(zone, positions) { AcceptedIsEmbedding(zone, entry, positions); }
    }
    ghost var t;
    b, t := ComputeLayout(zone, R, entry, positions);
    if Ideal(zone, entry, positions) {
      ReadyParts(zone, b.result, b.floors, b.occupied);
      IdealLooksClear(zone, entry, positions, b.result);
    }
  }

  lemma IdealLooksClear(zone: Zone, entry: RoomId, v: map<RoomId, Pos>, r: Layout)
    requires Ideal(zone, entry, v) && zone.Valid() && r.Valid() && (forall id :: id in r.order <==> id in zone.ids) && r.at == v
    ensures forall z :: VisualPaths.CountVisualCrossings(zone, r, z) == 0
  {
    EmbeddingIsPerfect(zone, v, r);
    forall z ensures VisualPaths.CountVisualCrossings(zone, r, z) == 0 { PerfectLooksClear(zone, r, z); }
  }
}
