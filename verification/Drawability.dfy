/** Which zones can be drawn, and what the validator's verdict says about that. */
module Drawability {
  import opened Zones
  import Grid
  import Placement
  import Validator

  /** The map satisfies every exit, puts no two rooms on one cell, and has the entry at the origin;
      the entry leads to every room. */
  ghost predicate Ideal(zone: Zone, entry: RoomId, v: map<RoomId, Pos>) {
    Placement.Embeds(zone, v) && Placement.AllReachable(zone, entry) && entry in v && v[entry] == Pos(0, 0, 0)
  }

  /** Every exit with a known direction leads to a room of the zone. */
  ghost predicate StaysInside(zone: Zone) {
    forall e :: Validator.KnownEdge(zone, e) ==> e.to in zone.ids
  }

  ghost predicate AllCardinal(zone: Zone) {
    forall e :: Validator.KnownEdge(zone, e) ==> Cardinal(e.dir)
  }

  /** The search reached every room. */
  ghost predicate AllReached(zone: Zone, positions: map<RoomId, Pos>) {
    forall id :: id in zone.ids ==> id in positions
  }

  /** The exits stay inside the zone and the search reached all of it. */
  ghost predicate Covered(zone: Zone, positions: map<RoomId, Pos>) {
    StaysInside(zone) && AllReached(zone, positions)
  }

  /** Up and down exits agree on the floors (they always do when the zone has none). */
  ghost predicate LevelsAgree(zone: Zone, positions: map<RoomId, Pos>) {
    forall e :: Validator.KnownEdge(zone, e) && e.from in positions && e.to in positions ==>
      positions[e.to].z == positions[e.from].z + Off(e.dir).dz
  }

  lemma {:induction false} CardinalWalkIsFlat(zone: Zone, start: RoomId, walk: seq<Edge>, end: RoomId)
    requires AllCardinal(zone)
    requires Validator.IsWalk(zone, start, walk, end)
    ensures Validator.Displacement(zone, start, walk, end).z == 0
  {
    if walk != [] {
      CardinalWalkIsFlat(zone, start, walk[..|walk| - 1], walk[|walk| - 1].from);
    }
  }

  /** A zone with cardinal exits only lies on one floor. */
  lemma CardinalLevels(zone: Zone, start: RoomId, positions: map<RoomId, Pos>)
    requires Validator.Explored(zone, start, positions) && AllCardinal(zone)
    ensures LevelsAgree(zone, positions) && forall id :: id in positions ==> positions[id].z == 0
  {
    forall id | id in positions ensures positions[id].z == 0 {
      var walk :| Validator.IsWalk(zone, start, walk, id) && Validator.Displacement(zone, start, walk, id) == positions[id];
      CardinalWalkIsFlat(zone, start, walk, id);
    }
  }

  lemma {:induction false} WalkStaysClosed(zone: Zone, start: RoomId, walk: seq<Edge>, end: RoomId, s: set<RoomId>)
    requires zone.Valid() && StaysInside(zone) && start in s && Placement.ClosedUnderExits(zone, s)
    requires Validator.IsWalk(zone, start, walk, end)
    ensures end in s && (start in zone.ids ==> end in zone.ids)
  {
    if walk != [] {
      var last := walk[|walk| - 1];
      WalkStaysClosed(zone, start, walk[..|walk| - 1], last.from, s);
      assert Validator.KnownEdge(zone, last);
    }
  }

  /** The rooms the search reached are those of the zone, and exits lead from the entry to each. */
  lemma ReachedIsZone(zone: Zone, entry: RoomId, positions: map<RoomId, Pos>)
    requires zone.Valid() && entry in zone.ids && Covered(zone, positions) && Validator.Explored(zone, entry, positions)
    ensures forall id :: id in zone.ids <==> id in positions
    ensures Placement.AllReachable(zone, entry)
  {
    AllIsClosed(zone);
    forall s: set<RoomId>, id | entry in s && Placement.ClosedUnderExits(zone, s) && id in positions ensures id in s && id in zone.ids {
      ReachedIn(zone, entry, positions, id, s);
    }
    assert forall id :: id in positions ==> id in set x | x in zone.ids;
  }

  lemma ReachedIn(zone: Zone, entry: RoomId, positions: map<RoomId, Pos>, id: RoomId, s: set<RoomId>)
    requires zone.Valid() && entry in zone.ids && StaysInside(zone) && Validator.Explored(zone, entry, positions)
    requires entry in s && Placement.ClosedUnderExits(zone, s) && id in positions
    ensures id in s && id in zone.ids
  {
    hide Placement.ClosedUnderExits, StaysInside;
    var walk :| Validator.IsWalk(zone, entry, walk, id) && Validator.Displacement(zone, entry, walk, id) == positions[id];
    WalkStaysClosed(zone, entry, walk, id, s);
  }

  /** A consistent search satisfies every exit. */
  lemma ConsistentSteps(zone: Zone, entry: RoomId, positions: map<RoomId, Pos>)
    requires zone.Valid() && Validator.Explored(zone, entry, positions) && Validator.Consistent(zone, positions)
    requires LevelsAgree(zone, positions) && AllReached(zone, positions)
    ensures Grid.Steps(zone, positions)
  {
    hide Validator.Reaches;
    forall id, e | id in zone.exits && e in zone.exits[id] && Known(e.dir)
      ensures id in positions && e.target in positions && positions[e.target] == Plus(positions[id], Off(e.dir))
    {
      var d := Edge(id, e.dir, e.target);
      assert Validator.KnownEdge(zone, d) && d.from in positions && !Validator.Disagrees(positions, d);
    }
  }

  /** What the validator accepts is an embedding of the whole zone when every room is reached. */
  lemma AcceptedIsEmbedding(zone: Zone, entry: RoomId, positions: map<RoomId, Pos>)
    requires zone.Valid() && entry in zone.ids && Covered(zone, positions)
    requires Validator.Explored(zone, entry, positions) && Validator.Consistent(zone, positions) && Validator.Injective(positions)
    requires LevelsAgree(zone, positions)
    ensures Ideal(zone, entry, positions)
  {
    hide Validator.Consistent, LevelsAgree, Grid.Steps, Validator.Reaches, Placement.AllReachable;
    ReachedIsZone(zone, entry, positions);
    ConsistentSteps(zone, entry, positions);
  }

  lemma AllIsClosed(zone: Zone)
    requires zone.Valid() && StaysInside(zone)
    ensures Placement.ClosedUnderExits(zone, set x | x in zone.ids)
  {
  }

  // ---- Floors ----

  /** Every exit leads from its floor to the one its direction says. */
  ghost predicate FloorsFit(zone: Zone, floors: map<RoomId, int>) {
    forall e :: Validator.KnownEdge(zone, e) ==> e.from in floors && e.to in floors && floors[e.to] == floors[e.from] + Off(e.dir).dz
  }

  /** The floor condition on the zone alone: its rooms can be given such floors. */
  ghost predicate HasFloors(zone: Zone) {
    exists floors :: FloorsFit(zone, floors)
  }

  lemma {:induction false} FloorsFollowWalks(zone: Zone, floors: map<RoomId, int>, start: RoomId, walk: seq<Edge>, end: RoomId)
    requires FloorsFit(zone, floors) && Validator.IsWalk(zone, start, walk, end)
    ensures walk == [] || (start in floors && end in floors && floors[end] == floors[start] + Validator.Displacement(zone, start, walk, end).z)
  {
    hide Validator.KnownEdge;
    if walk != [] {
      var last := walk[|walk| - 1];
      FloorsFollowWalks(zone, floors, start, walk[..|walk| - 1], last.from);
      assert Validator.KnownEdge(zone, last);
    }
  }

  /** The floors of the search agree with all exits if and only if some floors do. */
  lemma {:induction false} LevelsAgreeIff(zone: Zone, entry: RoomId, positions: map<RoomId, Pos>)
    requires zone.Valid() && Validator.Explored(zone, entry, positions) && AllReached(zone, positions)
    ensures LevelsAgree(zone, positions) <==> HasFloors(zone)
  {
    hide Validator.Reaches;
    if LevelsAgree(zone, positions) {
      var floors := map id | id in positions :: positions[id].z;
      assert FloorsFit(zone, floors);
    }
    if floors :| FloorsFit(zone, floors) {
      forall e | Validator.KnownEdge(zone, e) && e.from in positions && e.to in positions
        ensures positions[e.to].z == positions[e.from].z + Off(e.dir).dz
      {
        FloorOf(zone, entry, positions, floors, e.from);
        FloorOf(zone, entry, positions, floors, e.to);
      }
    }
  }

  lemma {:induction false} FloorOf(zone: Zone, entry: RoomId, positions: map<RoomId, Pos>, floors: map<RoomId, int>, id: RoomId)
    requires Validator.Explored(zone, entry, positions) && FloorsFit(zone, floors) && id in positions && id in floors
    ensures entry in floors && positions[id].z == floors[id] - floors[entry]
  {
    var walk :| Validator.IsWalk(zone, entry, walk, id) && Validator.Displacement(zone, entry, walk, id) == positions[id];
    FloorsFollowWalks(zone, floors, entry, walk, id);
  }

  // ---- Drawable zones ----

  /** The position of a room seen from another one's. */
  function Beyond(p: Pos, q: Pos): Pos { Pos(p.x + q.x, p.y + q.y, p.z + q.z) }

  lemma BeyondPlus(p: Pos, q: Pos, o: Offset)
    ensures Beyond(p, Plus(q, o)) == Plus(Beyond(p, q), o) && Beyond(p, Validator.ORIGIN) == p
  {
  }

  lemma {:induction false} MapStep(zone: Zone, v: map<RoomId, Pos>, e: Edge)
    requires zone.Valid() && Placement.Embeds(zone, v) && Validator.KnownEdge(zone, e)
    ensures Known(e.dir) && e.from in v && e.to in v && e.to in zone.ids && v[e.to] == Plus(v[e.from], Off(e.dir))
  {
    assert Exit(e.dir, e.to) in zone.exits[e.from];
  }

  lemma {:induction false} InMap(zone: Zone, v: map<RoomId, Pos>, id: RoomId)
    requires Placement.Embeds(zone, v) && id in zone.ids
    ensures id in v
  {
  }

  /** The last exit of a walk. */
  lemma {:induction false} WalkStep(zone: Zone, start: RoomId, walk: seq<Edge>, end: RoomId)
    requires Validator.IsWalk(zone, start, walk, end)
    ensures walk == [] ==> end == start && Validator.Displacement(zone, start, walk, end) == Validator.ORIGIN
    ensures walk != [] ==>
      var last, front := walk[|walk| - 1], walk[..|walk| - 1];
      && last.to == end && Validator.KnownEdge(zone, last) && Known(last.dir) && Validator.IsWalk(zone, start, front, last.from)
      && Validator.Displacement(zone, start, walk, end) == Plus(Validator.Displacement(zone, start, front, last.from), Off(last.dir))
  {
  }

  /** A map of the zone follows every walk from a room of the zone. */
  lemma {:induction false} MapFollowsWalks(zone: Zone, v: map<RoomId, Pos>, start: RoomId, walk: seq<Edge>, end: RoomId)
    requires zone.Valid() && Placement.Embeds(zone, v) && start in zone.ids && Validator.IsWalk(zone, start, walk, end)
    ensures start in v && end in v && v[end] == Beyond(v[start], Validator.Displacement(zone, start, walk, end))
  {
    InMap(zone, v, start);
    WalkStep(zone, start, walk, end);
    hide Placement.Embeds, Validator.KnownEdge, Validator.IsWalk, Validator.Displacement, Zone.Valid, Off, Known, Plus, Beyond;
    if walk != [] {
      var last, front := walk[|walk| - 1], walk[..|walk| - 1];
      MapFollowsWalks(zone, v, start, front, last.from);
      MapStep(zone, v, last);
      BeyondPlus(v[start], Validator.Displacement(zone, start, front, last.from), Off(last.dir));
    } else {
      BeyondPlus(v[start], Validator.ORIGIN, Offset(0, 0, 0));
    }
  }

  /** Every map of the zone is the one the search built, shifted. */
  lemma {:induction false} MapIsShifted(zone: Zone, entry: RoomId, positions: map<RoomId, Pos>, v: map<RoomId, Pos>)
    requires zone.Valid() && entry in zone.ids && Validator.Explored(zone, entry, positions) && Placement.Embeds(zone, v)
    ensures entry in v && forall id :: id in positions ==> id in v && v[id] == Beyond(v[entry], positions[id])
  {
    InMap(zone, v, entry);
    hide Placement.Embeds, Validator.KnownEdge, Zone.Valid;
    forall id | id in positions ensures id in v && v[id] == Beyond(v[entry], positions[id]) {
      var walk :| Validator.IsWalk(zone, entry, walk, id) && Validator.Displacement(zone, entry, walk, id) == positions[id];
      MapFollowsWalks(zone, v, entry, walk, id);
    }
  }

  lemma ShiftedStep(p: Pos, q: Pos, q': Pos, o: Offset)
    requires Beyond(p, q') == Plus(Beyond(p, q), o)
    ensures q' == Plus(q, o)
  {
  }

  lemma {:induction false} ShiftedIsConsistent(zone: Zone, entry: RoomId, positions: map<RoomId, Pos>, v: map<RoomId, Pos>)
    requires zone.Valid() && entry in zone.ids && Validator.Explored(zone, entry, positions) && Placement.Embeds(zone, v)
    ensures Validator.Consistent(zone, positions)
  {
    MapIsShifted(zone, entry, positions, v);
    hide Validator.Explored, Placement.Embeds, Validator.KnownEdge, Zone.Valid, Off;
    forall e | Validator.KnownEdge(zone, e) && e.from in positions ensures !Validator.Disagrees(positions, e) {
      MapStep(zone, v, e);
      if e.to in positions { ShiftedStep(v[entry], positions[e.from], positions[e.to], Off(e.dir)); }
    }
  }

  lemma {:induction false} ShiftedIsInjective(zone: Zone, entry: RoomId, positions: map<RoomId, Pos>, v: map<RoomId, Pos>)
    requires zone.Valid() && entry in zone.ids && Validator.Explored(zone, entry, positions) && Placement.Embeds(zone, v)
    ensures Validator.Injective(positions)
  {
    MapIsShifted(zone, entry, positions, v);
    MapKeepsApart(zone, v);
    hide Validator.Explored, Placement.Embeds;
  }

  lemma {:induction false} MapHasFloors(zone: Zone, v: map<RoomId, Pos>)
    requires zone.Valid() && Placement.Embeds(zone, v)
    ensures StaysInside(zone) && HasFloors(zone)
  {
    hide Placement.Embeds, Validator.KnownEdge, Zone.Valid;
    var floors := map id | id in v :: v[id].z;
    forall e | Validator.KnownEdge(zone, e)
      ensures Known(e.dir) && e.to in zone.ids && e.from in floors && e.to in floors && floors[e.to] == floors[e.from] + Off(e.dir).dz
    {
      MapStep(zone, v, e);
    }
    assert FloorsFit(zone, floors);
  }

  lemma {:induction false} MapKeepsApart(zone: Zone, v: map<RoomId, Pos>)
    requires Placement.Embeds(zone, v)
    ensures forall a, b :: a in v && b in v && a != b ==> v[a] != v[b]
  {
  }

  /** A zone that has a map is accepted, whatever part of it is reached. */
  lemma {:induction false} DrawableIsAccepted(zone: Zone, entry: RoomId, positions: map<RoomId, Pos>, v: map<RoomId, Pos>)
    requires zone.Valid() && entry in zone.ids && Validator.Explored(zone, entry, positions) && Placement.Embeds(zone, v)
    ensures Validator.Consistent(zone, positions) && Validator.Injective(positions) && StaysInside(zone) && HasFloors(zone)
  {
    ShiftedIsConsistent(zone, entry, positions, v);
    ShiftedIsInjective(zone, entry, positions, v);
    MapHasFloors(zone, v);
  }

  ghost predicate Drawable(zone: Zone) {
    exists v :: Placement.Embeds(zone, v)
  }

  /** A zone whose rooms are all reached can be drawn if and only if the validator accepts it, its
      exits stay inside, and its rooms can be given floors that fit. */
  lemma {:induction false} DrawableIff(zone: Zone, entry: RoomId, positions: map<RoomId, Pos>)
    requires zone.Valid() && entry in zone.ids && Validator.Explored(zone, entry, positions) && AllReached(zone, positions)
    ensures Drawable(zone) <==> Validator.Consistent(zone, positions) && Validator.Injective(positions) && StaysInside(zone) && HasFloors(zone)
    ensures LevelsAgree(zone, positions) <==> HasFloors(zone)
  {
    LevelsAgreeIff(zone, entry, positions);
    hide Validator.Explored, Validator.Consistent, Validator.Injective, LevelsAgree, HasFloors, Placement.Embeds, StaysInside, AllReached;
    if Drawable(zone) {
      var v :| Placement.Embeds(zone, v);
      DrawableIsAccepted(zone, entry, positions, v);
    }
    if Validator.Consistent(zone, positions) && Validator.Injective(positions) && StaysInside(zone) && HasFloors(zone) {
      AcceptedIsEmbedding(zone, entry, positions);
      assert Placement.Embeds(zone, positions);
    }
  }

  /** Without up and down exits the verdict alone decides. */
  lemma {:induction false} CardinalDrawableIff(zone: Zone, entry: RoomId, positions: map<RoomId, Pos>)
    requires zone.Valid() && entry in zone.ids && Validator.Explored(zone, entry, positions) && Covered(zone, positions) && AllCardinal(zone)
    ensures Drawable(zone) <==> Validator.Consistent(zone, positions) && Validator.Injective(positions)
  {
    CardinalLevels(zone, entry, positions);
    DrawableIff(zone, entry, positions);
  }

  // ---- A zone that is accepted though it cannot be drawn ----

  /** The yard lies east of the hall, and also east of the attic above the hall. */
  function Slanted(hall: RoomId, attic: RoomId, yard: RoomId): Zone {
    Zone([hall, attic, yard], map[hall := [Exit(East, yard), Exit(Up, attic)], attic := [Exit(East, yard)], yard := []])
  }

  ghost predicate SlantedExits(zone: Zone, hall: RoomId, attic: RoomId, yard: RoomId) {
    forall e :: Validator.KnownEdge(zone, e) <==> e == Edge(hall, East, yard) || e == Edge(hall, Up, attic) || e == Edge(attic, East, yard)
  }

  lemma {:induction false} SlantedEdges(hall: RoomId, attic: RoomId, yard: RoomId)
    requires hall != attic && hall != yard && attic != yard
    ensures SlantedExits(Slanted(hall, attic, yard), hall, attic, yard)
  {
    var zone := Slanted(hall, attic, yard);
    assert zone.ExitsOf(hall)[0] == Exit(East, yard) && zone.ExitsOf(hall)[1] == Exit(Up, attic) && zone.ExitsOf(attic)[0] == Exit(East, yard);
  }

  /** No walk leads back to the hall. */
  lemma {:induction false} SlantedBack(zone: Zone, hall: RoomId, attic: RoomId, yard: RoomId, walk: seq<Edge>, end: RoomId)
    requires hall != attic && hall != yard && SlantedExits(zone, hall, attic, yard) && Validator.IsWalk(zone, hall, walk, end)
    ensures end == hall || end == attic || end == yard
    ensures end == hall ==> walk == []
  {
  }

  /** So the attic is only reached by its stairs. */
  lemma {:induction false} SlantedWalks(zone: Zone, hall: RoomId, attic: RoomId, yard: RoomId, walk: seq<Edge>)
    requires hall != attic && hall != yard && attic != yard && SlantedExits(zone, hall, attic, yard) && Validator.IsWalk(zone, hall, walk, attic)
    ensures walk == [Edge(hall, Up, attic)]
  {
    SlantedBack(zone, hall, attic, yard, walk[..|walk| - 1], hall);
  }

  lemma {:induction false} OneStep(zone: Zone, start: RoomId, e: Edge)
    requires Validator.IsWalk(zone, start, [e], e.to)
    ensures Validator.Displacement(zone, start, [e], e.to) == Plus(Validator.ORIGIN, Off(e.dir))
  {
    assert [e][..0] == [];
  }

  /** The validator accepts that zone although no map satisfies its exits: conflicts are about x and
      y only. */
  lemma {:induction false} SlantedIsAccepted(hall: RoomId, attic: RoomId, yard: RoomId, positions: map<RoomId, Pos>)
    requires hall != attic && hall != yard && attic != yard
    requires Validator.Explored(Slanted(hall, attic, yard), hall, positions)
    ensures Validator.Consistent(Slanted(hall, attic, yard), positions) && Validator.Injective(positions)
    ensures !LevelsAgree(Slanted(hall, attic, yard), positions)
    ensures !Drawable(Slanted(hall, attic, yard)) && !HasFloors(Slanted(hall, attic, yard))
  {
    var zone := Slanted(hall, attic, yard);
    SlantedEdges(hall, attic, yard);
    SlantedIsZone(hall, attic, yard);
    hide Slanted, Placement.Embeds, Validator.Explored, Validator.Consistent, Validator.Injective, LevelsAgree, HasFloors, StaysInside, SlantedExits, Zone.Valid;
    SlantedPlaces(zone, hall, attic, yard, positions);
    SlantedFlat(zone, hall, attic, yard, positions);
    SlantedLevels(zone, hall, attic, yard, positions);
    DrawableIff(zone, hall, positions);
  }

  lemma {:induction false} SlantedIsZone(hall: RoomId, attic: RoomId, yard: RoomId)
    requires hall != attic && hall != yard && attic != yard
    ensures var zone := Slanted(hall, attic, yard); zone.Valid() && zone.ids == [hall, attic, yard]
  {
  }

  lemma {:induction false} SlantedLevels(zone: Zone, hall: RoomId, attic: RoomId, yard: RoomId, positions: map<RoomId, Pos>)
    requires SlantedExits(zone, hall, attic, yard) && positions.Keys == {hall, attic, yard}
    requires positions[hall] == Pos(0, 0, 0) && positions[attic] == Pos(0, 0, 1) && positions[yard].AtCell() == Cell(1, 0)
    ensures Validator.Injective(positions) && !LevelsAgree(zone, positions)
  {
    assert Validator.KnownEdge(zone, Edge(hall, East, yard)) && Validator.KnownEdge(zone, Edge(attic, East, yard));
    hide Validator.KnownEdge;
  }

  lemma {:induction false} SlantedFlat(zone: Zone, hall: RoomId, attic: RoomId, yard: RoomId, positions: map<RoomId, Pos>)
    requires hall != attic && hall != yard && attic != yard && SlantedExits(zone, hall, attic, yard) && Validator.Explored(zone, hall, positions)
    requires positions.Keys == {hall, attic, yard} && positions[hall] == Pos(0, 0, 0) && positions[attic] == Pos(0, 0, 1)
    ensures Validator.Consistent(zone, positions) && positions[yard].AtCell() == Cell(1, 0)
  {
    var f := map[hall := Cell(0, 0), attic := Cell(0, 0), yard := Cell(1, 0)];
    hide Validator.KnownEdge, Validator.Explored, Validator.Consistent;
    assert f.Keys == positions.Keys;
    assert f[hall] == Cell(0, 0) && f[attic] == Cell(0, 0) && f[yard] == Cell(1, 0);
    assert Validator.Embedding(zone, hall, positions.Keys, f);
    Validator.ConsistentIffEmbeddable(zone, hall, positions);
    assert f == Validator.Flat(positions);
  }

  lemma {:induction false} SlantedPlaces(zone: Zone, hall: RoomId, attic: RoomId, yard: RoomId, positions: map<RoomId, Pos>)
    requires hall != attic && hall != yard && attic != yard && SlantedExits(zone, hall, attic, yard) && Validator.Explored(zone, hall, positions)
    ensures positions.Keys == {hall, attic, yard} && positions[hall] == Pos(0, 0, 0) && positions[attic] == Pos(0, 0, 1)
  {
    assert Validator.KnownEdge(zone, Edge(hall, East, yard)) && Validator.KnownEdge(zone, Edge(hall, Up, attic));
    hide Validator.KnownEdge;
    forall id | id in positions ensures id in {hall, attic, yard} && (id == attic ==> positions[id] == Pos(0, 0, 1)) {
      var walk :| Validator.IsWalk(zone, hall, walk, id) && Validator.Displacement(zone, hall, walk, id) == positions[id];
      SlantedBack(zone, hall, attic, yard, walk, id);
      if id == attic {
        SlantedWalks(zone, hall, attic, yard, walk);
        OneStep(zone, hall, Edge(hall, Up, attic));
      }
    }
  }
}
