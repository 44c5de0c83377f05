/** Edge segments, crossings and occlusions of a floor. */
module Segments {
  import opened Sums
  import opened Zones
  import opened Scores

  datatype Segment = Segment(edge: Edge, x1: int, y1: int, x2: int, y2: int, horizontal: bool)

  /** One segment is horizontal and the other vertical, and they meet strictly inside both,
      at a point that is no end of either. */
  predicate SegmentsCross(a: Segment, b: Segment) {
    if a.horizontal == b.horizontal then false
    else
      var h, v := if a.horizontal then a else b, if a.horizontal then b else a;
      var vX, hY := v.x1, h.y1;
      if vX <= Min(h.x1, h.x2) || vX >= Max(h.x1, h.x2) then false
      else if hY <= Min(v.y1, v.y2) || hY >= Max(v.y1, v.y2) then false
      else Cell(vX, hY) !in {Cell(a.x1, a.y1), Cell(a.x2, a.y2), Cell(b.x1, b.y1), Cell(b.x2, b.y2)}
  }

  function SegmentOf(r: Layout, z: int, e: Edge): Segment
    requires BothOn(r, z, e)
  {
    var p, q := r.at[e.from], r.at[e.to];
    Segment(e, p.x, p.y, q.x, q.y, p.y == q.y)
  }

  /** A straight exit of the floor at least `least` cells long. */
  predicate Straight(r: Layout, z: int, least: nat, e: Edge) {
    BothOn(r, z, e) && Stretch(r.at[e.from], r.at[e.to]) >= least && !Diagonal(r.at[e.from], r.at[e.to])
  }

  /** One segment per unordered pair of rooms, from the first exit that qualifies. */
  function SegmentsFrom(r: Layout, z: int, least: nat, edges: seq<Edge>, seen: set<set<RoomId>>): seq<Segment> {
    if edges == [] then []
    else
      var e := edges[0];
      var key := {e.from, e.to};
      if Straight(r, z, least, e) && key !in seen then
        [SegmentOf(r, z, e)] + SegmentsFrom(r, z, least, edges[1..], seen + {key})
      else SegmentsFrom(r, z, least, edges[1..], seen)
  }

  /** Distance-1 exits are too short to cross anything and are left out. */
  function BuildEdgeSegments(zone: Zone, r: Layout, z: int): seq<Segment> {
    SegmentsFrom(r, z, 2, AllOut(zone, zone.ids), {})
  }

  function CrossFn(a: Segment): Segment -> int {
    (b: Segment) => if SegmentsCross(a, b) then 1 else 0
  }

  function Crossings(segments: seq<Segment>): int {
    if segments == [] then 0 else Sum(segments[1..], CrossFn(segments[0])) + Crossings(segments[1..])
  }

  function CountCrossings(zone: Zone, r: Layout, z: int): int {
    Crossings(BuildEdgeSegments(zone, r, z))
  }

  lemma {:induction false} CrossingsNonneg(segments: seq<Segment>)
    ensures Crossings(segments) >= 0
  {
    if segments != [] {
      SumZero(segments[1..], CrossFn(segments[0]));
      CrossingsNonneg(segments[1..]);
    }
  }

  function OcclusionFn(r: Layout, z: int): Edge -> int {
    (e: Edge) => if Straight(r, z, 2, e) then Blockers(Snapshot(r, z), e, r.at[e.from], r.at[e.to]) else 0
  }

  /** Rooms that lie strictly inside a straight exit of two others. */
  function CountOcclusions(zone: Zone, r: Layout, z: int): int {
    Total(zone, r.order, OcclusionFn(r, z))
  }

  /** An exit of a perfect floor counts for nothing. */
  lemma PerfectExit(zone: Zone, r: Layout, z: int, e: Edge)
    requires Perfect(zone, r, z) && e.from in r.order && e in zone.Out(e.from)
    ensures !Straight(r, z, 2, e) && OcclusionFn(r, z)(e) == 0 && MismatchFn(r, z)(e) == 0 && DiagonalFn(r, z)(e) == 0
  {
    OutMembers(e.from, zone.ExitsOf(e.from));
    hide Zone.Out, Blockers;
    if BothOn(r, z, e) {
      assert r.at[e.to] == Plus(r.at[e.from], Off(e.dir));
    }
  }

  /** On a floor where every exit is one step nothing crosses and nothing is occluded. */
  lemma PerfectIsClear(zone: Zone, r: Layout, z: int)
    requires zone.Valid() && r.Valid() && Perfect(zone, r, z) && forall id :: id in r.order <==> id in zone.ids
    ensures BuildEdgeSegments(zone, r, z) == [] && CountCrossings(zone, r, z) == 0 && CountOcclusions(zone, r, z) == 0
    ensures Mismatches(zone, r, z) == 0 && Diagonals(zone, r, z) == 0
  {
    hide Perfect, Straight, OcclusionFn, MismatchFn, DiagonalFn, Total, Zone.Out;
    forall id, e | id in r.order && e in zone.Out(id)
      ensures e.from == id && !Straight(r, z, 2, e) && OcclusionFn(r, z)(e) == 0 && MismatchFn(r, z)(e) == 0 && DiagonalFn(r, z)(e) == 0
    {
      OutFrom(zone, id, e);
      PerfectExit(zone, r, z, e);
    }
    AllOutMembers(zone, zone.ids);
    NoSegments(r, z, AllOut(zone, zone.ids), {});
    var zero := (e: Edge) => 0;
    TotalZero(zone, r.order, zero);
    TotalEq(zone, r.order, OcclusionFn(r, z), zero);
    TotalEq(zone, r.order, MismatchFn(r, z), zero);
    TotalEq(zone, r.order, DiagonalFn(r, z), zero);
  }

  lemma {:induction false} NoSegments(r: Layout, z: int, edges: seq<Edge>, seen: set<set<RoomId>>)
    requires forall e :: e in edges ==> !Straight(r, z, 2, e)
    ensures SegmentsFrom(r, z, 2, edges, seen) == []
  {
    if edges != [] {
      assert edges[0] in edges;
      NoSegments(r, z, edges[1..], seen);
    }
  }

  // ---- Short segments cross nothing ----

  predicate Long(s: Segment) {
    Abs(s.x2 - s.x1) + Abs(s.y2 - s.y1) >= 2
  }

  function LongOnly(segments: seq<Segment>): seq<Segment> {
    if segments == [] then []
    else (if Long(segments[0]) then [segments[0]] else []) + LongOnly(segments[1..])
  }

  ghost predicate Upright(s: Segment) {
    if s.horizontal then s.y1 == s.y2 else s.x1 == s.x2
  }

  lemma {:induction false} LongSum(segments: seq<Segment>, a: Segment)
    requires Upright(a) && forall s :: s in segments ==> Upright(s)
    ensures Sum(LongOnly(segments), CrossFn(a)) == Sum(segments, CrossFn(a))
    ensures !Long(a) ==> Sum(segments, CrossFn(a)) == 0
  {
    if segments != [] {
      assert segments[0] in segments;
      LongSum(segments[1..], a);
      var head := if Long(segments[0]) then [segments[0]] else [];
      SumAppend(head, LongOnly(segments[1..]), CrossFn(a));
    }
  }

  lemma {:induction false} LongCrossings(segments: seq<Segment>)
    requires forall s :: s in segments ==> Upright(s)
    ensures Crossings(LongOnly(segments)) == Crossings(segments)
  {
    if segments != [] {
      assert segments[0] in segments;
      LongSum(segments[1..], segments[0]);
      LongCrossings(segments[1..]);
      var rest := LongOnly(segments[1..]);
      if Long(segments[0]) {
        assert LongOnly(segments) == [segments[0]] + rest;
        assert ([segments[0]] + rest)[1..] == rest;
      } else {
        assert LongOnly(segments) == rest;
      }
    }
  }

  lemma {:induction false} SegmentsUpright(r: Layout, z: int, least: nat, edges: seq<Edge>, seen: set<set<RoomId>>)
    ensures forall s :: s in SegmentsFrom(r, z, least, edges, seen) ==> Upright(s)
  {
    if edges != [] {
      SegmentsUpright(r, z, least, edges[1..], seen);
      SegmentsUpright(r, z, least, edges[1..], seen + {{edges[0].from, edges[0].to}});
    }
  }

  /** Which of the keys seen with no length limit were also seen with the limit of two. */
  ghost predicate SeenLong(r: Layout, z: int, seen: set<set<RoomId>>, seenLong: set<set<RoomId>>) {
    forall e: Edge :: Straight(r, z, 0, e) ==> ({e.from, e.to} in seenLong <==> {e.from, e.to} in seen && Straight(r, z, 2, e))
  }

  lemma {:induction false} LongSegments(r: Layout, z: int, edges: seq<Edge>, seen: set<set<RoomId>>, seenLong: set<set<RoomId>>)
    requires SeenLong(r, z, seen, seenLong)
    ensures SegmentsFrom(r, z, 2, edges, seenLong) == LongOnly(SegmentsFrom(r, z, 0, edges, seen))
  {
    if edges != [] {
      var e := edges[0];
      var key := {e.from, e.to};
      if Straight(r, z, 0, e) && key !in seen {
        var seen', seenLong' := seen + {key}, if Straight(r, z, 2, e) then seenLong + {key} else seenLong;
        forall d: Edge | Straight(r, z, 0, d)
          ensures {d.from, d.to} in seenLong' <==> {d.from, d.to} in seen' && Straight(r, z, 2, d)
        {
          if {d.from, d.to} == key {
            SameEnds(d, e);
          }
        }
        LongSegments(r, z, edges[1..], seen', seenLong');
        var rest := SegmentsFrom(r, z, 0, edges[1..], seen');
        assert ([SegmentOf(r, z, e)] + rest)[1..] == rest;
        assert Long(SegmentOf(r, z, e)) <==> Straight(r, z, 2, e);
      } else {
        LongSegments(r, z, edges[1..], seen, seenLong);
      }
    }
  }

  lemma SameEnds(d: Edge, e: Edge)
    requires {d.from, d.to} == {e.from, e.to}
    ensures (d.from == e.from && d.to == e.to) || (d.from == e.to && d.to == e.from)
  {
    assert d.from in {e.from, e.to} && d.to in {e.from, e.to} && e.from in {d.from, d.to} && e.to in {d.from, d.to};
  }

  /** Counting without the length limit gives the same number of crossings. */
  lemma CrossingsAnyLength(zone: Zone, r: Layout, z: int)
    ensures CountCrossings(zone, r, z) == Crossings(SegmentsFrom(r, z, 0, AllOut(zone, zone.ids), {}))
  {
    var edges := AllOut(zone, zone.ids);
    LongSegments(r, z, edges, {}, {});
    SegmentsUpright(r, z, 0, edges, {});
    LongCrossings(SegmentsFrom(r, z, 0, edges, {}));
  }
}
