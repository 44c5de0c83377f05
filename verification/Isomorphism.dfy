/** Row and column insertion: shifting one side of a floor by one cell is an isomorphism of
    the layout. */
module Isomorphism {
  import opened Sums
  import opened Zones
  import opened Scores
  import opened Segments

  /** Rooms strictly below (or above) the boundary on one axis move one cell away from it. */
  datatype Insertion = Insertion(onX: bool, below: bool, boundary: int) {
    function Delta(): int { if below then -1 else 1 }

    predicate Shifts(coord: int) { if below then coord < boundary else coord > boundary }

    function Coord(coord: int): int { if Shifts(coord) then coord + Delta() else coord }

    function X(x: int): int { if onX then Coord(x) else x }

    function Y(y: int): int { if onX then y else Coord(y) }

    function Apply(p: Pos): Pos { Pos(X(p.x), Y(p.y), p.z) }

    function ApplyCell(c: Cell): Cell { Cell(X(c.x), Y(c.y)) }

    /** The coordinate of the row or column that is opened. */
    function Gap(): int { boundary + Delta() }

    /** The coordinate map is strictly monotone, and never hits the gap. */
    lemma Monotone(c: int, d: int)
      ensures c < d <==> Coord(c) < Coord(d)
      ensures Coord(c) != Gap()
      ensures Abs(Coord(d) - Coord(c)) >= Abs(d - c)
    {
    }
  }

  function Shifted(r: Layout, z: int, s: Insertion): Layout {
    Layout(r.order, map id | id in r.at :: if r.at[id].z == z then s.Apply(r.at[id]) else r.at[id])
  }

  lemma BetweenIff(s: Insertion, p: Pos, q: Pos, c: Cell)
    ensures Between(s.Apply(p), s.Apply(q), s.ApplyCell(c)) <==> Between(p, q, c)
  {
  }

  lemma DirectionIff(s: Insertion, o: Offset, p: Pos, q: Pos)
    ensures Mismatch(o, s.Apply(p), s.Apply(q)) <==> Mismatch(o, p, q)
    ensures Diagonal(s.Apply(p), s.Apply(q)) <==> Diagonal(p, q)
    ensures Stretch(s.Apply(p), s.Apply(q)) >= Stretch(p, q)
    ensures Stretch(p, q) == 0 ==> Stretch(s.Apply(p), s.Apply(q)) == 0
  {
    s.Monotone(p.x, q.x);
    s.Monotone(p.y, q.y);
  }

  /** Exits keep their direction and their axis, so both counts stay. */
  lemma InsertionKeepsDirections(zone: Zone, r: Layout, z: int, s: Insertion)
    requires r.Valid()
    ensures Mismatches(zone, Shifted(r, z, s), z) == Mismatches(zone, r, z)
    ensures Diagonals(zone, Shifted(r, z, s), z) == Diagonals(zone, r, z)
  {
    var r' := Shifted(r, z, s);
    forall e ensures MismatchFn(r', z)(e) == MismatchFn(r, z)(e) && DiagonalFn(r', z)(e) == DiagonalFn(r, z)(e) {
      if BothOn(r, z, e) { DirectionIff(s, Off(e.dir), r.at[e.from], r.at[e.to]); }
    }
    TotalEq(zone, r.order, MismatchFn(r', z), MismatchFn(r, z));
    TotalEq(zone, r.order, DiagonalFn(r', z), DiagonalFn(r, z));
  }

  /** A segment keeps its blockers; one of length 1 that becomes longer still has none. */
  lemma InsertionKeepsOcclusions(zone: Zone, r: Layout, z: int, s: Insertion)
    requires r.Valid()
    ensures CountOcclusions(zone, Shifted(r, z, s), z) == CountOcclusions(zone, r, z)
  {
    var r' := Shifted(r, z, s);
    forall e ensures OcclusionFn(r', z)(e) == OcclusionFn(r, z)(e) {
      if BothOn(r, z, e) { SameBlockers(r, z, s, e); }
    }
    TotalEq(zone, r.order, OcclusionFn(r', z), OcclusionFn(r, z));
  }

  lemma SameBlockers(r: Layout, z: int, s: Insertion, e: Edge)
    requires r.Valid() && BothOn(r, z, e)
    ensures OcclusionFn(Shifted(r, z, s), z)(e) == OcclusionFn(r, z)(e)
  {
    var r' := Shifted(r, z, s);
    var p, q := r.at[e.from], r.at[e.to];
    DirectionIff(s, Off(e.dir), p, q);
    BlockersByRoom(r, z, e, p, q);
    BlockersByRoom(r', z, e, s.Apply(p), s.Apply(q));
    forall id ensures BlockFn(r', z, e, s.Apply(p), s.Apply(q))(id) == BlockFn(r, z, e, p, q)(id) {
      if r.On(id, z) { BetweenIff(s, p, q, r.at[id].AtCell()); }
    }
    SumEq(r.order, BlockFn(r', z, e, s.Apply(p), s.Apply(q)), BlockFn(r, z, e, p, q));
    if Stretch(p, q) < 2 {
      SumZeros(r.order, BlockFn(r, z, e, p, q));
    }
  }

  function ApplySegment(s: Insertion, a: Segment): Segment {
    Segment(a.edge, s.X(a.x1), s.Y(a.y1), s.X(a.x2), s.Y(a.y2), a.horizontal)
  }

  function ApplyAll(s: Insertion, segments: seq<Segment>): seq<Segment> {
    if segments == [] then [] else [ApplySegment(s, segments[0])] + ApplyAll(s, segments[1..])
  }

  lemma CrossIff(s: Insertion, a: Segment, b: Segment)
    ensures SegmentsCross(ApplySegment(s, a), ApplySegment(s, b)) <==> SegmentsCross(a, b)
  {
  }

  lemma {:induction false} ApplyAllSum(s: Insertion, segments: seq<Segment>, a: Segment)
    ensures Sum(ApplyAll(s, segments), CrossFn(ApplySegment(s, a))) == Sum(segments, CrossFn(a))
  {
    if segments != [] {
      CrossIff(s, a, segments[0]);
      ApplyAllSum(s, segments[1..], a);
      assert ApplyAll(s, segments)[1..] == ApplyAll(s, segments[1..]);
    }
  }

  lemma {:induction false} ApplyAllCrossings(s: Insertion, segments: seq<Segment>)
    ensures Crossings(ApplyAll(s, segments)) == Crossings(segments)
  {
    if segments != [] {
      ApplyAllSum(s, segments[1..], segments[0]);
      ApplyAllCrossings(s, segments[1..]);
      assert ApplyAll(s, segments)[1..] == ApplyAll(s, segments[1..]);
    }
  }

  lemma {:induction false} ShiftedSegments(r: Layout, z: int, s: Insertion, edges: seq<Edge>, seen: set<set<RoomId>>)
    ensures SegmentsFrom(Shifted(r, z, s), z, 0, edges, seen) == ApplyAll(s, SegmentsFrom(r, z, 0, edges, seen))
  {
    if edges != [] {
      var e := edges[0];
      ShiftedSegments(r, z, s, edges[1..], seen + {{e.from, e.to}});
      ShiftedSegments(r, z, s, edges[1..], seen);
      if BothOn(r, z, e) {
        DirectionIff(s, Off(e.dir), r.at[e.from], r.at[e.to]);
        s.Monotone(r.at[e.from].y, r.at[e.to].y);
        s.Monotone(r.at[e.to].y, r.at[e.from].y);
      }
      var rest := SegmentsFrom(r, z, 0, edges[1..], seen + {{e.from, e.to}});
      if BothOn(r, z, e) {
        assert ([SegmentOf(r, z, e)] + rest)[1..] == rest;
      }
    }
  }

  /** No crossing appears or goes away, though exits of length 1 may become long enough to count. */
  lemma InsertionKeepsCrossings(zone: Zone, r: Layout, z: int, s: Insertion)
    ensures CountCrossings(zone, Shifted(r, z, s), z) == CountCrossings(zone, r, z)
  {
    var edges := AllOut(zone, zone.ids);
    CrossingsAnyLength(zone, r, z);
    CrossingsAnyLength(zone, Shifted(r, z, s), z);
    ShiftedSegments(r, z, s, edges, {});
    ApplyAllCrossings(s, SegmentsFrom(r, z, 0, edges, {}));
  }
}
