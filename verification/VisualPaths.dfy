/** The paths exits are drawn along: straight, or with two turns at the middle when diagonal. All
    coordinates are doubled, so that the middle between two cells is a whole number. */
module VisualPaths {
  import opened Sums
  import opened Zones
  import opened Scores
  import opened Segments

  /** The drawn path of one exit. */
  function PathOf(e: Edge, p: Pos, q: Pos): seq<Segment> {
    if p.x == q.x && p.y == q.y then []
    else if !Diagonal(p, q) then [Segment(e, 2 * p.x, 2 * p.y, 2 * q.x, 2 * q.y, p.y == q.y)]
    else if e.dir.East? || e.dir.West? then
      var mid := p.x + q.x;
      [Segment(e, 2 * p.x, 2 * p.y, mid, 2 * p.y, true),
       Segment(e, mid, 2 * p.y, mid, 2 * q.y, false),
       Segment(e, mid, 2 * q.y, 2 * q.x, 2 * q.y, true)]
    else
      var mid := p.y + q.y;
      [Segment(e, 2 * p.x, 2 * p.y, 2 * p.x, mid, false),
       Segment(e, 2 * p.x, mid, 2 * q.x, mid, true),
       Segment(e, 2 * q.x, mid, 2 * q.x, 2 * q.y, false)]
  }

  predicate Meets(a: Segment, b: Segment) {
    a.x2 == b.x1 && a.y2 == b.y1 && a.horizontal != b.horizontal
  }

  /** The path leads from one room's centre to the other's in upright pieces that meet end to end. */
  lemma PathJoins(e: Edge, p: Pos, q: Pos)
    requires p.AtCell() != q.AtCell()
    ensures var path := PathOf(e, p, q);
            && path != [] && path[0].x1 == 2 * p.x && path[0].y1 == 2 * p.y
            && path[|path| - 1].x2 == 2 * q.x && path[|path| - 1].y2 == 2 * q.y
            && (forall i :: 0 <= i < |path| ==> Upright(path[i]))
            && (forall i :: 0 <= i < |path| - 1 ==> Meets(path[i], path[i + 1]))
  {
  }

  /** A straight path is one piece; a diagonal one leaves along its exit's axis, turns at the middle and
      arrives along that axis again. */
  lemma PathTurnsHalfway(e: Edge, p: Pos, q: Pos)
    requires p.AtCell() != q.AtCell()
    ensures var path := PathOf(e, p, q);
            if p.x == q.x || p.y == q.y then |path| == 1
            else
              && |path| == 3 && (path[0].horizontal <==> e.dir == East || e.dir == West) && path[2].horizontal == path[0].horizontal
              && path[0].x2 - path[0].x1 == path[2].x2 - path[2].x1 && path[0].y2 - path[0].y1 == path[2].y2 - path[2].y1
  {
  }

  function VisualFrom(r: Layout, z: int, edges: seq<Edge>, seen: set<set<RoomId>>): seq<Segment> {
    if edges == [] then []
    else
      var e := edges[0];
      var key := {e.from, e.to};
      if BothOn(r, z, e) && Stretch(r.at[e.from], r.at[e.to]) >= 2 && key !in seen then
        PathOf(e, r.at[e.from], r.at[e.to]) + VisualFrom(r, z, edges[1..], seen + {key})
      else VisualFrom(r, z, edges[1..], seen)
  }

  /** buildEdgeSegments in visual mode. */
  function VisualSegments(zone: Zone, r: Layout, z: int): seq<Segment> {
    VisualFrom(r, z, AllOut(zone, zone.ids), {})
  }

  function CountVisualCrossings(zone: Zone, r: Layout, z: int): int {
    Crossings(VisualSegments(zone, r, z))
  }

  function Doubled(a: Segment): Segment {
    Segment(a.edge, 2 * a.x1, 2 * a.y1, 2 * a.x2, 2 * a.y2, a.horizontal)
  }

  function AllDoubled(segments: seq<Segment>): seq<Segment> {
    if segments == [] then [] else [Doubled(segments[0])] + AllDoubled(segments[1..])
  }

  lemma {:induction false} DoubledSum(segments: seq<Segment>, a: Segment)
    ensures Sum(AllDoubled(segments), CrossFn(Doubled(a))) == Sum(segments, CrossFn(a))
  {
    if segments != [] {
      DoubledSum(segments[1..], a);
      assert AllDoubled(segments)[1..] == AllDoubled(segments[1..]);
      assert SegmentsCross(Doubled(a), Doubled(segments[0])) <==> SegmentsCross(a, segments[0]);
    }
  }

  lemma {:induction false} DoubledCrossings(segments: seq<Segment>)
    ensures Crossings(AllDoubled(segments)) == Crossings(segments)
  {
    if segments != [] {
      DoubledSum(segments[1..], segments[0]);
      DoubledCrossings(segments[1..]);
      assert AllDoubled(segments)[1..] == AllDoubled(segments[1..]);
    }
  }

  lemma {:induction false} StraightVisual(r: Layout, z: int, edges: seq<Edge>, seen: set<set<RoomId>>)
    requires forall e :: e in edges && BothOn(r, z, e) ==> !Diagonal(r.at[e.from], r.at[e.to])
    ensures VisualFrom(r, z, edges, seen) == AllDoubled(SegmentsFrom(r, z, 2, edges, seen))
  {
    if edges != [] {
      var e := edges[0];
      assert e in edges;
      StraightVisual(r, z, edges[1..], seen + {{e.from, e.to}});
      StraightVisual(r, z, edges[1..], seen);
      if BothOn(r, z, e) {
        var rest := SegmentsFrom(r, z, 2, edges[1..], seen + {{e.from, e.to}});
        assert ([SegmentOf(r, z, e)] + rest)[1..] == rest;
      }
    }
  }

  /** Without diagonal exits the drawn paths cross exactly as the straight segments do. */
  lemma VisualAgrees(zone: Zone, r: Layout, z: int)
    requires zone.Valid() && r.Valid() && (forall id :: id in r.order <==> id in zone.ids) && Diagonals(zone, r, z) == 0
    ensures CountVisualCrossings(zone, r, z) == CountCrossings(zone, r, z)
  {
    TotalZero(zone, r.order, DiagonalFn(r, z));
    AllOutMembers(zone, zone.ids);
    forall e | e in AllOut(zone, zone.ids) && BothOn(r, z, e) ensures !Diagonal(r.at[e.from], r.at[e.to]) {
      assert DiagonalFn(r, z)(e) == 0;
    }
    StraightVisual(r, z, AllOut(zone, zone.ids), {});
    DoubledCrossings(BuildEdgeSegments(zone, r, z));
  }
}
