/** Phase 5d: resolving edge crossings by moving one room. */
module Crossings {
  import opened Sums
  import opened Zones
  import opened Boards
  import opened Scores
  import opened Guards
  import opened Relax
  import opened Segments
  import Diamond

  const CROSSING_FIX_PASSES := 30
  const CROSSING_CANDIDATE_RADIUS := 6

  // ---- The crossing pairs of a floor ----

  function PairsWith(a: Segment, rest: seq<Segment>): seq<(Segment, Segment)> {
    if rest == [] then [] else (if SegmentsCross(a, rest[0]) then [(a, rest[0])] else []) + PairsWith(a, rest[1..])
  }

  function CrossingPairs(segments: seq<Segment>): seq<(Segment, Segment)> {
    if segments == [] then [] else PairsWith(segments[0], segments[1..]) + CrossingPairs(segments[1..])
  }

  lemma {:induction false} PairsWithMembers(a: Segment, rest: seq<Segment>)
    ensures |PairsWith(a, rest)| == Sum(rest, CrossFn(a))
    ensures forall p :: p in PairsWith(a, rest) ==> p.0 == a && p.1 in rest && SegmentsCross(p.0, p.1)
  {
    if rest != [] { PairsWithMembers(a, rest[1..]); }
  }

  /** There are as many pairs as crossings, and each is of two segments that cross. */
  lemma {:induction false} PairsAreCrossings(segments: seq<Segment>)
    ensures |CrossingPairs(segments)| == Crossings(segments)
    ensures forall p :: p in CrossingPairs(segments) ==> p.0 in segments && p.1 in segments && SegmentsCross(p.0, p.1)
  {
    if segments != [] {
      PairsWithMembers(segments[0], segments[1..]);
      PairsAreCrossings(segments[1..]);
    }
  }

  lemma {:induction false} SegmentEnds(r: Layout, z: int, least: nat, edges: seq<Edge>, seen: set<set<RoomId>>)
    ensures forall s :: s in SegmentsFrom(r, z, least, edges, seen) ==> BothOn(r, z, s.edge)
  {
    if edges != [] {
      SegmentEnds(r, z, least, edges[1..], seen);
      SegmentEnds(r, z, least, edges[1..], seen + {{edges[0].from, edges[0].to}});
    }
  }

  /** The segment of an exit at its rooms' current cells. */
  function Current(r: Layout, s: Segment): Segment
    requires s.edge.from in r.at && s.edge.to in r.at
  {
    var p, q := r.at[s.edge.from], r.at[s.edge.to];
    Segment(s.edge, p.x, p.y, q.x, q.y, p.y == q.y)
  }

  /** The pair still crosses at the current cells. */
  predicate StillCross(r: Layout, a: Segment, b: Segment)
    requires a.edge.from in r.at && a.edge.to in r.at && b.edge.from in r.at && b.edge.to in r.at
  {
    && !Diagonal(r.at[a.edge.from], r.at[a.edge.to]) && !Diagonal(r.at[b.edge.from], r.at[b.edge.to])
    && SegmentsCross(Current(r, a), Current(r, b))
  }

  // ---- One room ----

  /** Some exit of the room, or into it, would be diagonal. */
  predicate CreatesDiag(zone: Zone, r: Layout, z: int, id: RoomId, c: Cell) {
    || WouldCreateDiag(zone, r, z, id, c)
    || exists e :: e in zone.In(id) && r.On(e.from, z) && Diagonal(At(c, z), r.at[e.from])
  }

  /** The free cells the phase may try for a room. */
  predicate Untangling(zone: Zone, r: Layout, cells: set<Cell>, z: int, id: RoomId, c: Cell) {
    && c !in cells && !CreatesDiag(zone, r, z, id, c)
    && !MoveWouldIncreaseMismatches(zone, r, z, id, c) && !MoveWouldBreakAlignment(zone, r, z, id, c)
  }

  /** No exit becomes diagonal. */
  lemma UntanglingExit(zone: Zone, r: Layout, z: int, id: RoomId, c: Cell, s: RoomId, e: Edge)
    requires Whole(zone, r) && r.On(id, z) && !CreatesDiag(zone, r, z, id, c) && s in r.order && e in zone.Out(s)
    ensures DiagonalFn(Moved(r, id, c, z), z)(e) <= DiagonalFn(r, z)(e)
  {
    OutMembers(s, zone.ExitsOf(s));
    zone.InFromMembers(zone.ids, id);
    if e.to == id { assert e in zone.In(id); }
  }

  /** Such a move makes no exit diagonal and, without self-loops, none wrongly directed. */
  lemma UntanglingIsClean(zone: Zone, r: Layout, cells: set<Cell>, z: int, id: RoomId, c: Cell)
    requires Whole(zone, r) && r.On(id, z) && Untangling(zone, r, cells, z, id, c)
    ensures Diagonals(zone, Moved(r, id, c, z), z) <= Diagonals(zone, r, z)
    ensures NoLoops(zone) ==> Mismatches(zone, Moved(r, id, c, z), z) <= Mismatches(zone, r, z)
  {
    var r' := Moved(r, id, c, z);
    hide DiagonalFn, Zone.Out, Zone.In, CreatesDiag, MoveWouldBreakAlignment;
    forall s, e | s in r.order && e in zone.Out(s) ensures DiagonalFn(r', z)(e) <= DiagonalFn(r, z)(e) {
      UntanglingExit(zone, r, z, id, c, s, e);
    }
    TotalLe(zone, r.order, DiagonalFn(r', z), DiagonalFn(r, z));
    if NoLoops(zone) {
      MoveGuardExact(zone, r, z, id, c);
      NoLoopSlack(zone, r, z, id, c);
    }
  }

  /** What the phase keeps on a floor: nothing gets worse, and a changed floor has fewer crossings. */
  ghost predicate Untangles(zone: Zone, z: int, r: Layout, occ: Occupancy, r': Layout, occ': Occupancy) {
    && FloorStep(z, r, occ, r', occ')
    && Diagonals(zone, r', z) <= Diagonals(zone, r, z)
    && (NoLoops(zone) ==> Mismatches(zone, r', z) <= Mismatches(zone, r, z))
    && (r' == r || CountCrossings(zone, r', z) < CountCrossings(zone, r, z))
  }

  lemma UntanglesRefl(zone: Zone, z: int, r: Layout, occ: Occupancy)
    ensures Untangles(zone, z, r, occ, r, occ)
  {
    FloorStepRefl(z, r, occ);
  }

  lemma UntanglesTrans(zone: Zone, z: int, r: Layout, occ: Occupancy, r1: Layout, occ1: Occupancy, r2: Layout, occ2: Occupancy)
    requires Untangles(zone, z, r, occ, r1, occ1) && Untangles(zone, z, r1, occ1, r2, occ2)
    ensures Untangles(zone, z, r, occ, r2, occ2)
  {
    FloorStepTrans(z, r, occ, r1, occ1, r2, occ2);
    hide FloorStep, Diagonals, Mismatches, CountCrossings, NoLoops;
  }

  lemma UntanglesParts(zone: Zone, z: int, r: Layout, occ: Occupancy, r': Layout, occ': Occupancy)
    requires Untangles(zone, z, r, occ, r', occ')
    ensures FloorStep(z, r, occ, r', occ')
    ensures occ'.Keys == occ.Keys && r'.order == r.order && forall id, y :: r.On(id, y) <==> r'.On(id, y)
  {
    hide Agrees, Diagonals, Mismatches, CountCrossings, NoLoops;
  }

  /** Try the cells near a room, nearest first; take the first that lowers the crossings. */
  method Untangle(b: Board, z: int, id: RoomId, bound: int) returns (resolved: bool)
    requires b.Ready() && z in b.occupied && b.result.On(id, z)
    modifies b`result, b`occupied
    ensures b.Ready() && FloorStep(z, old(b.result), old(b.occupied), b.result, b.occupied)
    ensures !resolved ==> b.result == old(b.result)
    ensures !resolved && Agrees(b.result, old(b.occupied)) ==> b.occupied == old(b.occupied)
    ensures resolved ==> exists c ::
      && 1 <= Diamond.Dist(old(b.result).at[id].AtCell(), c) <= CROSSING_CANDIDATE_RADIUS
      && Untangling(b.zone, old(b.result), old(b.occupied)[z], z, id, c) && b.result == Moved(old(b.result), id, c, z)
      && CountCrossings(b.zone, b.result, z) < bound
    ensures !resolved ==> forall c ::
      1 <= Diamond.Dist(b.result.at[id].AtCell(), c) <= CROSSING_CANDIDATE_RADIUS && Untangling(b.zone, b.result, old(b.occupied)[z], z, id, c)
      ==> CountCrossings(b.zone, Moved(b.result, id, c, z), z) >= bound
  {
    hide Agrees, SameFloors, Untangling, CountCrossings, FloorStep, Diamond.Rings, Diamond.Dist, Vacated;
    ghost var r0, occ0 := b.result, b.occupied;
    FloorStepRefl(z, r0, occ0);
    var home := b.result.at[id].AtCell();
    var cands := Diamond.Rings(home, 1, CROSSING_CANDIDATE_RADIUS);
    Diamond.RingsMembers(home, 1, CROSSING_CANDIDATE_RADIUS);
    for i := 0 to |cands|
      invariant b.Ready() && b.result == r0 && z in b.occupied && FloorStep(z, r0, occ0, r0, b.occupied)
      invariant Agrees(r0, occ0) ==> b.occupied == occ0
      invariant forall d :: d != home ==> (d in b.occupied[z] <==> d in occ0[z])
      invariant forall j :: 0 <= j < i && Untangling(b.zone, r0, occ0[z], z, id, cands[j]) ==>
        CountCrossings(b.zone, Moved(r0, id, cands[j], z), z) >= bound
    {
      var c := cands[i];
      assert c in cands;
      AwayFromHome(home, c);
      SameUntangling(b.zone, r0, b.occupied[z], occ0[z], z, id, c);
      if !Untangling(b.zone, b.result, b.occupied[z], z, id, c) { continue; }
      ghost var occ := b.occupied;
      UntanglingFree(b.zone, r0, occ[z], z, id, c);
      MovedStep(r0, occ, z, id, c);
      MovedBack(r0, occ, z, id, c);
      b.MoveRoom(id, c, z);
      if CountCrossings(b.zone, b.result, z) < bound {
        FloorStepTrans(z, r0, occ0, r0, occ, b.result, b.occupied);
        return true;
      }
      b.MoveRoom(id, home, z);
      VacatedTwice(occ, z, home, c);
      UndoneStep(z, r0, occ, b.result, b.occupied);
      FloorStepTrans(z, r0, occ0, r0, occ, b.result, b.occupied);
    }
    resolved := false;
  }

  lemma AwayFromHome(home: Cell, c: Cell)
    requires 1 <= Diamond.Dist(home, c)
    ensures c != home
  {
  }

  lemma SameUntangling(zone: Zone, r: Layout, cells: set<Cell>, cells': set<Cell>, z: int, id: RoomId, c: Cell)
    requires c in cells <==> c in cells'
    ensures Untangling(zone, r, cells, z, id, c) <==> Untangling(zone, r, cells', z, id, c)
  {
  }

  lemma UntanglingFree(zone: Zone, r: Layout, cells: set<Cell>, z: int, id: RoomId, c: Cell)
    requires Untangling(zone, r, cells, z, id, c)
    ensures c !in cells
  {
  }

  lemma VacatedTwice(occ: Occupancy, z: int, home: Cell, c: Cell)
    requires z in occ && c !in occ[z] && c != home
    ensures var occ' := Vacated(Vacated(occ, z, {home}, {c}), z, {c}, {home});
            && occ'.Keys == occ.Keys && (forall y :: y in occ && y != z ==> occ'[y] == occ[y])
            && forall d :: d != home ==> (d in occ'[z] <==> d in occ[z])
  {
  }

  // ---- One pair ----

  function InsertByExits(zone: Zone, id: RoomId, s: seq<RoomId>): (t: seq<RoomId>)
    ensures forall x :: x in t <==> x in s || x == id
  {
    if s == [] || |zone.ExitsOf(id)| <= |zone.ExitsOf(s[0])| then [id] + s else [s[0]] + InsertByExits(zone, id, s[1..])
  }

  /** Rooms with fewer exits first; a stable sort. */
  function FewestExitsFirst(zone: Zone, s: seq<RoomId>): (t: seq<RoomId>)
    ensures forall x :: x in t <==> x in s
  {
    if s == [] then [] else InsertByExits(zone, s[0], FewestExitsFirst(zone, s[1..]))
  }

  lemma ResolvedUntangles(zone: Zone, z: int, r: Layout, occ: Occupancy, r': Layout, occ': Occupancy, id: RoomId, c: Cell)
    requires Whole(zone, r) && r.On(id, z) && z in occ && Untangling(zone, r, occ[z], z, id, c) && r' == Moved(r, id, c, z)
    requires FloorStep(z, r, occ, r', occ') && CountCrossings(zone, r', z) < CountCrossings(zone, r, z)
    ensures Untangles(zone, z, r, occ, r', occ')
  {
    hide FloorStep, CountCrossings, Untangling, Diagonals, Mismatches, Moved, NoLoops;
    UntanglingIsClean(zone, r, occ[z], z, id, c);
  }

  lemma SameUntangles(zone: Zone, z: int, r: Layout, occ: Occupancy, occ': Occupancy)
    requires FloorStep(z, r, occ, r, occ')
    ensures Untangles(zone, z, r, occ, r, occ')
  {
    hide FloorStep;
  }

  lemma ReadyWhole(zone: Zone, r: Layout, floors: seq<int>, occ: Occupancy)
    requires ReadyState(zone, r, floors, occ)
    ensures Whole(zone, r)
  {
  }

  /** No move the phase may try for the room lowers the crossings. */
  ghost predicate Stuck(zone: Zone, r: Layout, cells: set<Cell>, z: int, id: RoomId) {
    id in r.at && forall c ::
      1 <= Diamond.Dist(r.at[id].AtCell(), c) <= CROSSING_CANDIDATE_RADIUS && Untangling(zone, r, cells, z, id, c)
      ==> CountCrossings(zone, Moved(r, id, c, z), z) >= CountCrossings(zone, r, z)
  }

  /** The pair no longer crosses, or none of its four rooms has a move that helps. */
  ghost predicate PairStuck(zone: Zone, r: Layout, cells: set<Cell>, z: int, a: Segment, v: Segment) {
    && a.edge.from in r.at && a.edge.to in r.at && v.edge.from in r.at && v.edge.to in r.at
    && (StillCross(r, a, v) ==>
         Stuck(zone, r, cells, z, a.edge.from) && Stuck(zone, r, cells, z, a.edge.to)
         && Stuck(zone, r, cells, z, v.edge.from) && Stuck(zone, r, cells, z, v.edge.to))
  }

  method ResolvePair(b: Board, z: int, a: Segment, v: Segment) returns (resolved: bool)
    requires b.Ready() && z in b.occupied && BothOn(b.result, z, a.edge) && BothOn(b.result, z, v.edge)
    modifies b`result, b`occupied
    ensures b.Ready() && Untangles(b.zone, z, old(b.result), old(b.occupied), b.result, b.occupied)
    ensures resolved <==> b.result != old(b.result)
    ensures !resolved && Agrees(old(b.result), old(b.occupied)) ==>
      b.occupied == old(b.occupied) && PairStuck(b.zone, b.result, old(b.occupied)[z], z, a, v)
  {
    hide ReadyState, Untangles, FloorStep, Untangling, CountCrossings, StillCross, Moved, Whole, Agrees, Diamond.Dist, Stuck;
    ghost var r0, occ0 := b.result, b.occupied;
    UntanglesRefl(b.zone, z, r0, occ0);
    resolved := false;
    if !StillCross(b.result, a, v) { return; }
    var candidateRooms := FewestExitsFirst(b.zone, [a.edge.from, a.edge.to, v.edge.from, v.edge.to]);
    var crossingsBefore := CountCrossings(b.zone, b.result, z);
    for i := 0 to |candidateRooms|
      invariant b.Ready() && Untangles(b.zone, z, r0, occ0, b.result, b.occupied) && b.result == r0
      invariant Agrees(r0, occ0) ==>
        b.occupied == occ0 && forall id :: id in candidateRooms[..i] ==> Stuck(b.zone, r0, occ0[z], z, id)
    {
      ghost var r, occ := b.result, b.occupied;
      UntanglesParts(b.zone, z, r0, occ0, r, occ);
      TakeStep(candidateRooms, i);
      assert candidateRooms[i] in candidateRooms;
      ReadyWhole(b.zone, r, b.floors, occ);
      var done := Untangle(b, z, candidateRooms[i], crossingsBefore);
      if done {
        ghost var c :| Untangling(b.zone, r, occ[z], z, candidateRooms[i], c) && b.result == Moved(r, candidateRooms[i], c, z);
        ResolvedUntangles(b.zone, z, r, occ, b.result, b.occupied, candidateRooms[i], c);
        UntanglesTrans(b.zone, z, r0, occ0, r, occ, b.result, b.occupied);
        return true;
      }
      MakeStuck(b.zone, r, occ[z], z, candidateRooms[i]);
      SameUntangles(b.zone, z, r, occ, b.occupied);
      UntanglesTrans(b.zone, z, r0, occ0, r, occ, b.result, b.occupied);
    }
    TakeAll(candidateRooms);
  }

  lemma MakeStuck(zone: Zone, r: Layout, cells: set<Cell>, z: int, id: RoomId)
    requires id in r.at
    requires forall c ::
      1 <= Diamond.Dist(r.at[id].AtCell(), c) <= CROSSING_CANDIDATE_RADIUS && Untangling(zone, r, cells, z, id, c)
      ==> CountCrossings(zone, Moved(r, id, c, z), z) >= CountCrossings(zone, r, z)
    ensures Stuck(zone, r, cells, z, id)
  {
  }

  // ---- The phase ----

  /** No crossing pair of the floor can be resolved by the phase's moves. */
  ghost predicate FloorStuck(zone: Zone, r: Layout, cells: set<Cell>, z: int) {
    forall p :: p in CrossingPairs(BuildEdgeSegments(zone, r, z)) ==> PairStuck(zone, r, cells, z, p.0, p.1)
  }

  /** What one floor's turn comes to: each counted pass removed a crossing, and short of the cap
      no crossing is left that one of the phase's moves would resolve. */
  ghost predicate Untangled(zone: Zone, z: int, r: Layout, occ: Occupancy, done: nat, r': Layout, occ': Occupancy) {
    && Untangles(zone, z, r, occ, r', occ')
    && CountCrossings(zone, r', z) + done <= CountCrossings(zone, r, z) && done <= CROSSING_FIX_PASSES
    && (Agrees(r, occ) && done < CROSSING_FIX_PASSES ==> z in occ' && FloorStuck(zone, r', occ'[z], z))
  }

  /** Each counted pass removes a crossing; the phase ends when it can do no more, or after its
      last pass. */
  method UntangleFloor(b: Board, z: int) returns (ghost done: nat)
    requires b.Ready() && z in b.occupied
    modifies b`result, b`occupied
    ensures b.Ready() && Untangled(b.zone, z, old(b.result), old(b.occupied), done, b.result, b.occupied)
    ensures CountCrossings(b.zone, old(b.result), z) == 0 ==> b.result == old(b.result) && b.occupied == old(b.occupied)
  {
    hide ReadyState, Untangles, SegmentsFrom, SegmentsCross, CrossingPairs, Crossings, PairStuck, Agrees;
    ghost var r0, occ0 := b.result, b.occupied;
    UntanglesRefl(b.zone, z, r0, occ0);
    done := 0;
    for pass := 0 to CROSSING_FIX_PASSES
      invariant b.Ready() && Untangles(b.zone, z, r0, occ0, b.result, b.occupied) && z in b.occupied
      invariant done == pass && CountCrossings(b.zone, b.result, z) + done <= CountCrossings(b.zone, r0, z)
      invariant CountCrossings(b.zone, r0, z) == 0 ==> b.result == r0 && b.occupied == occ0
    {
      var segments := BuildEdgeSegments(b.zone, b.result, z);
      var crossings := CrossingPairs(segments);
      PairsAreCrossings(segments);
      if crossings == [] { return; }
      ghost var r, occ := b.result, b.occupied;
      SegmentEnds(r, z, 2, AllOut(b.zone, b.zone.ids), {});
      UntanglesParts(b.zone, z, r0, occ0, r, occ);
      StepAgrees(z, r0, occ0, r, occ);
      var anyResolved := ResolveAll(b, z, crossings);
      UntanglesTrans(b.zone, z, r0, occ0, r, occ, b.result, b.occupied);
      UntanglesParts(b.zone, z, r0, occ0, b.result, b.occupied);
      if !anyResolved { return; }
      FewerCrossings(b.zone, z, r, occ, b.result, b.occupied);
      done := done + 1;
    }
  }

  lemma FewerCrossings(zone: Zone, z: int, r: Layout, occ: Occupancy, r': Layout, occ': Occupancy)
    requires Untangles(zone, z, r, occ, r', occ')
    ensures r' != r ==> CountCrossings(zone, r', z) < CountCrossings(zone, r, z)
  {
    hide FloorStep, CountCrossings, Diagonals, Mismatches, NoLoops;
  }

  method ResolveAll(b: Board, z: int, crossings: seq<(Segment, Segment)>) returns (anyResolved: bool)
    requires b.Ready() && z in b.occupied
    requires forall p :: p in crossings ==> BothOn(b.result, z, p.0.edge) && BothOn(b.result, z, p.1.edge)
    modifies b`result, b`occupied
    ensures b.Ready() && Untangles(b.zone, z, old(b.result), old(b.occupied), b.result, b.occupied)
    ensures anyResolved <==> b.result != old(b.result)
    ensures !anyResolved && Agrees(old(b.result), old(b.occupied)) ==>
      b.occupied == old(b.occupied) && forall p :: p in crossings ==> PairStuck(b.zone, b.result, old(b.occupied)[z], z, p.0, p.1)
  {
    hide ReadyState, Untangles, PairStuck, Agrees, CountCrossings;
    anyResolved := false;
    ghost var r0, occ0 := b.result, b.occupied;
    UntanglesRefl(b.zone, z, r0, occ0);
    for i := 0 to |crossings|
      invariant b.Ready() && Untangles(b.zone, z, r0, occ0, b.result, b.occupied)
      invariant anyResolved <==> b.result != r0
      invariant !anyResolved && Agrees(r0, occ0) ==>
        b.occupied == occ0 && forall p :: p in crossings[..i] ==> PairStuck(b.zone, r0, occ0[z], z, p.0, p.1)
    {
      TakeStep(crossings, i);
      assert crossings[i] in crossings;
      ghost var r, occ := b.result, b.occupied;
      UntanglesParts(b.zone, z, r0, occ0, r, occ);
      var resolved := ResolvePair(b, z, crossings[i].0, crossings[i].1);
      FewerCrossings(b.zone, z, r0, occ0, r, occ);
      FewerCrossings(b.zone, z, r, occ, b.result, b.occupied);
      UntanglesTrans(b.zone, z, r0, occ0, r, occ, b.result, b.occupied);
      if resolved { anyResolved := true; }
    }
    TakeAll(crossings);
  }

  lemma PerfectFloorClear(zone: Zone, r: Layout, z: int)
    requires r.Valid() && zone.Valid() && (forall id :: id in r.order <==> id in zone.ids) && AllPerfect(zone, r)
    ensures CountCrossings(zone, r, z) == 0
  {
    PerfectIsClear(zone, r, z);
  }

  lemma NowhereWorse(zone: Zone, z: int, r0: Layout, r: Layout, occ: Occupancy, r': Layout, occ': Occupancy)
    requires Untangles(zone, z, r, occ, r', occ') && forall y :: NotWorse(zone, r0, r, y)
    ensures forall y :: NotWorse(zone, r0, r', y)
  {
    forall y ensures NotWorse(zone, r0, r', y) {
      UntanglesNotWorse(zone, z, y, r, occ, r', occ');
      NotWorseTrans(zone, r0, r, r', y);
    }
  }

  lemma UntangledStep(zone: Zone, z: int, r: Layout, occ: Occupancy, done: nat, r': Layout, occ': Occupancy)
    requires Untangled(zone, z, r, occ, done, r', occ')
    ensures Untangles(zone, z, r, occ, r', occ')
  {
    hide Untangles, CountCrossings, FloorStuck, Agrees;
  }

  ghost predicate UntangleRun(zone: Zone, floors: seq<int>, s: State, s': State, run: seq<State>, done: seq<nat>) {
    && Run(run, |floors|, s, s') && |done| == |floors|
    && forall i :: 0 <= i < |floors| ==> Untangled(zone, floors[i], run[i].r, run[i].occ, done[i], run[i + 1].r, run[i + 1].occ)
  }

  /** The phase took the floors in turn. */
  ghost predicate UntangledAll(zone: Zone, floors: seq<int>, s: State, s': State) {
    exists run, done :: UntangleRun(zone, floors, s, s', run, done)
  }

  /** Phase 5d: no floor gains a diagonal or a crossing (nor, without self-loops, a mismatch). */
  method FixEdgeCrossings(b: Board)
    requires b.Ready()
    modifies b`result, b`occupied
    ensures b.Ready() && Kept(old(b.result), old(b.occupied), b.result, b.occupied)
    ensures forall z :: NotWorse(b.zone, old(b.result), b.result, z)
    ensures UntangledAll(b.zone, b.floors, State(old(b.result), old(b.occupied)), State(b.result, b.occupied))
    ensures AllPerfect(b.zone, old(b.result)) ==> b.result == old(b.result) && b.occupied == old(b.occupied)
  {
    hide ReadyState, Untangled, Untangles, Kept, NotWorse, FloorStep, AllPerfect, CountCrossings;
    ghost var r0, occ0 := b.result, b.occupied;
    ghost var run, all: seq<nat> := [State(r0, occ0)], [];
    KeptRefl(r0, occ0);
    forall z ensures NotWorse(b.zone, r0, r0, z) { NotWorseRefl(b.zone, r0, z); }
    for i := 0 to |b.floors|
      invariant b.Ready() && Kept(r0, occ0, b.result, b.occupied)
      invariant forall z :: NotWorse(b.zone, r0, b.result, z)
      invariant AllPerfect(b.zone, r0) ==> b.result == r0 && b.occupied == occ0
      invariant Run(run, i, State(r0, occ0), State(b.result, b.occupied)) && |all| == i
      invariant forall j :: 0 <= j < i ==> Untangled(b.zone, b.floors[j], run[j].r, run[j].occ, all[j], run[j + 1].r, run[j + 1].occ)
    {
      var z := b.floors[i];
      ghost var r, occ := b.result, b.occupied;
      FloorIsOpen(b.zone, r, b.floors, occ, i);
      ReadyParts(b.zone, r, b.floors, occ);
      if AllPerfect(b.zone, r) { PerfectFloorClear(b.zone, r, z); }
      ghost var done := UntangleFloor(b, z);
      UntangledStep(b.zone, z, r, occ, done, b.result, b.occupied);
      UntanglesParts(b.zone, z, r, occ, b.result, b.occupied);
      KeptStep(z, r0, occ0, r, occ, b.result, b.occupied);
      NowhereWorse(b.zone, z, r0, r, occ, b.result, b.occupied);
      run, all := run + [State(b.result, b.occupied)], all + [done];
    }
    assert UntangleRun(b.zone, b.floors, State(r0, occ0), State(b.result, b.occupied), run, all);
  }

  ghost predicate NotWorse(zone: Zone, r: Layout, r': Layout, z: int) {
    && Diagonals(zone, r', z) <= Diagonals(zone, r, z)
    && CountCrossings(zone, r', z) <= CountCrossings(zone, r, z)
    && (NoLoops(zone) ==> Mismatches(zone, r', z) <= Mismatches(zone, r, z))
  }

  lemma NotWorseRefl(zone: Zone, r: Layout, z: int)
    ensures NotWorse(zone, r, r, z)
  {
  }

  lemma NotWorseTrans(zone: Zone, r: Layout, r1: Layout, r2: Layout, z: int)
    requires NotWorse(zone, r, r1, z) && NotWorse(zone, r1, r2, z)
    ensures NotWorse(zone, r, r2, z)
  {
    hide Diagonals, CountCrossings, Mismatches, NoLoops;
  }

  lemma UntanglesNotWorse(zone: Zone, z: int, y: int, r: Layout, occ: Occupancy, r': Layout, occ': Occupancy)
    requires Untangles(zone, z, r, occ, r', occ')
    ensures NotWorse(zone, r, r', y)
  {
    hide FloorStep, Diagonals, CountCrossings, Mismatches, NoLoops, SameFloor;
    if y != z {
      OtherFloors(z, y, r, occ, r', occ');
      ScoreFrame(zone, r, r', y, RelaxationScore);
      CrossingsFrame(zone, r, r', y);
    }
  }

  lemma {:induction false} SegmentsFrame(r: Layout, r': Layout, z: int, edges: seq<Edge>, seen: set<set<RoomId>>)
    requires SameFloor(r, r', z)
    ensures SegmentsFrom(r', z, 2, edges, seen) == SegmentsFrom(r, z, 2, edges, seen)
  {
    if edges != [] {
      SegmentsFrame(r, r', z, edges[1..], seen);
      SegmentsFrame(r, r', z, edges[1..], seen + {{edges[0].from, edges[0].to}});
    }
  }

  /** A floor's crossings depend on that floor only. */
  lemma CrossingsFrame(zone: Zone, r: Layout, r': Layout, z: int)
    requires SameFloor(r, r', z)
    ensures CountCrossings(zone, r', z) == CountCrossings(zone, r, z)
  {
    SegmentsFrame(r, r', z, AllOut(zone, zone.ids), {});
  }
}
