/** The zone topology validator: BFS that gives every reachable room its ideal cell and
    reports the exits and the cells that disagree with it. */
module Validator {
  import opened Sums
  import opened Zones
  import Diamond

  datatype Path = Path(via: RoomId, ideal: Cell)
  datatype Conflict = Conflict(room: RoomId, paths: seq<Path>, delta: int)
  datatype Collision = Collision(position: Cell, rooms: seq<RoomId>)
  datatype Report = Report(valid: bool, conflicts: seq<Conflict>, collisions: seq<Collision>)

  const START := RoomId("(start)")
  const ORIGIN := Pos(0, 0, 0)

  // ---- What the report is about: walks and embeddings ----

  predicate KnownEdge(zone: Zone, e: Edge) {
    Known(e.dir) && Exit(e.dir, e.to) in zone.ExitsOf(e.from)
  }

  ghost predicate IsWalk(zone: Zone, start: RoomId, walk: seq<Edge>, end: RoomId) {
    if walk == [] then start == end
    else
      var last := walk[|walk| - 1];
      last.to == end && KnownEdge(zone, last) && IsWalk(zone, start, walk[..|walk| - 1], last.from)
  }

  /** Where a walk from the origin ends up. */
  ghost function Displacement(zone: Zone, start: RoomId, walk: seq<Edge>, end: RoomId): Pos
    requires IsWalk(zone, start, walk, end)
  {
    if walk == [] then ORIGIN
    else
      var last := walk[|walk| - 1];
      Plus(Displacement(zone, start, walk[..|walk| - 1], last.from), Off(last.dir))
  }

  ghost predicate Reaches(zone: Zone, start: RoomId, id: RoomId, p: Pos) {
    exists walk :: IsWalk(zone, start, walk, id) && Displacement(zone, start, walk, id) == p
  }

  /** The positions are those of some walks, and cover every room a walk can reach. */
  ghost predicate Explored(zone: Zone, start: RoomId, positions: map<RoomId, Pos>) {
    && start in positions && positions[start] == ORIGIN
    && (forall id :: id in positions ==> Reaches(zone, start, id, positions[id]))
    && (forall e :: KnownEdge(zone, e) && e.from in positions ==> e.to in positions)
  }

  /** The cell an exit implies for its target. */
  function Implied(positions: map<RoomId, Pos>, e: Edge): Cell
    requires e.from in positions && Known(e.dir)
  {
    Plus(positions[e.from], Off(e.dir)).AtCell()
  }

  ghost predicate Disagrees(positions: map<RoomId, Pos>, e: Edge) {
    e.from in positions && e.to in positions && Known(e.dir) && positions[e.to].AtCell() != Implied(positions, e)
  }

  ghost predicate Consistent(zone: Zone, positions: map<RoomId, Pos>) {
    forall e :: KnownEdge(zone, e) && e.from in positions ==> !Disagrees(positions, e)
  }

  ghost predicate Injective(positions: map<RoomId, Pos>) {
    forall a, b :: a in positions && b in positions && a != b ==> positions[a] != positions[b]
  }

  /** A grid embedding of the reachable rooms: start at the origin, every exit one step. */
  ghost predicate Embedding(zone: Zone, start: RoomId, rooms: set<RoomId>, f: map<RoomId, Cell>) {
    && f.Keys == rooms && start in f && f[start] == Cell(0, 0)
    && forall e :: KnownEdge(zone, e) && e.from in f && e.to in f ==>
         f[e.to] == Cell(f[e.from].x + Off(e.dir).dx, f[e.from].y + Off(e.dir).dy)
  }

  ghost function Flat(positions: map<RoomId, Pos>): map<RoomId, Cell> {
    map id | id in positions :: positions[id].AtCell()
  }

  lemma {:induction false} WalkStaysInside(zone: Zone, start: RoomId, positions: map<RoomId, Pos>, walk: seq<Edge>, end: RoomId)
    requires Explored(zone, start, positions) && IsWalk(zone, start, walk, end)
    ensures end in positions
  {
    if walk != [] {
      WalkStaysInside(zone, start, positions, walk[..|walk| - 1], walk[|walk| - 1].from);
    }
  }

  /** An embedding sends every room to the displacement of any walk to it. */
  lemma {:induction false} EmbeddingFollowsWalks(zone: Zone, start: RoomId, positions: map<RoomId, Pos>,
                                                 f: map<RoomId, Cell>, walk: seq<Edge>, end: RoomId)
    requires Explored(zone, start, positions) && Embedding(zone, start, positions.Keys, f)
    requires IsWalk(zone, start, walk, end)
    ensures end in f && f[end] == Displacement(zone, start, walk, end).AtCell()
  {
    WalkStaysInside(zone, start, positions, walk, end);
    hide Explored;
    if walk != [] {
      var last := walk[|walk| - 1];
      EmbeddingFollowsWalks(zone, start, positions, f, walk[..|walk| - 1], last.from);
      assert KnownEdge(zone, last) && last.from in f && last.to in f;
    }
  }

  /** The rooms explored are exactly those some walk reaches. */
  lemma ExploredIsReachable(zone: Zone, start: RoomId, positions: map<RoomId, Pos>, id: RoomId)
    requires Explored(zone, start, positions)
    ensures id in positions <==> exists p :: Reaches(zone, start, id, p)
  {
    if p :| Reaches(zone, start, id, p) {
      var walk :| IsWalk(zone, start, walk, id) && Displacement(zone, start, walk, id) == p;
      WalkStaysInside(zone, start, positions, walk, id);
    }
  }

  /** No exit disagrees exactly when a grid embedding exists, and then it is the one BFS built. */
  lemma ConsistentIffEmbeddable(zone: Zone, start: RoomId, positions: map<RoomId, Pos>)
    requires Explored(zone, start, positions)
    ensures Consistent(zone, positions) <==> exists f :: Embedding(zone, start, positions.Keys, f)
    ensures forall f :: Embedding(zone, start, positions.Keys, f) ==> f == Flat(positions)
  {
    if Consistent(zone, positions) {
      assert Embedding(zone, start, positions.Keys, Flat(positions)) by {
        forall e | KnownEdge(zone, e) && e.from in positions && e.to in positions
          ensures positions[e.to].AtCell() == Implied(positions, e)
        {
          assert !Disagrees(positions, e);
        }
      }
    }
    forall f | Embedding(zone, start, positions.Keys, f)
      ensures f == Flat(positions) && Consistent(zone, positions)
    {
      forall id | id in positions ensures f[id] == positions[id].AtCell() {
        var walk :| IsWalk(zone, start, walk, id) && Displacement(zone, start, walk, id) == positions[id];
        EmbeddingFollowsWalks(zone, start, positions, f, walk, id);
      }
    }
  }

  /** Equivalently: any two walks to the same room have the same horizontal displacement. */
  lemma ConsistentIffWalksAgree(zone: Zone, start: RoomId, positions: map<RoomId, Pos>)
    requires Explored(zone, start, positions)
    ensures Consistent(zone, positions) <==>
      forall id, p, q :: Reaches(zone, start, id, p) && Reaches(zone, start, id, q) ==> p.AtCell() == q.AtCell()
  {
    if Consistent(zone, positions) {
      ConsistentIffEmbeddable(zone, start, positions);
      var f :| Embedding(zone, start, positions.Keys, f);
      forall id, p | Reaches(zone, start, id, p) ensures id in f && p.AtCell() == f[id] {
        var walk :| IsWalk(zone, start, walk, id) && Displacement(zone, start, walk, id) == p;
        EmbeddingFollowsWalks(zone, start, positions, f, walk, id);
      }
    } else {
      var e :| KnownEdge(zone, e) && e.from in positions && Disagrees(positions, e);
      ExtendWalk(zone, start, positions[e.from], e);
      assert Reaches(zone, start, e.to, positions[e.to]);
    }
  }

  // ---- The order of the search ----

  function KnownOf(id: RoomId, exits: seq<Exit>): (edges: seq<Edge>)
    ensures forall e :: e in edges <==> e.from == id && Known(e.dir) && Exit(e.dir, e.to) in exits
  {
    if exits == [] then []
    else
      var last := exits[|exits| - 1];
      var front := KnownOf(id, exits[..|exits| - 1]);
      assert forall x :: x in exits <==> x == last || x in exits[..|exits| - 1];
      if Known(last.dir) then front + [Edge(id, last.dir, last.target)] else front
  }

  /** The exits with a known direction of the listed rooms, in the order they are scanned. */
  function ScanOf(zone: Zone, order: seq<RoomId>): seq<Edge> {
    if order == [] then []
    else
      var n := |order| - 1;
      ScanOf(zone, order[..n]) + KnownOf(order[n], zone.ExitsOf(order[n]))
  }

  /** The start and the targets of the exits, each once, as they are first met. */
  function Discovered(start: RoomId, scan: seq<Edge>): (order: seq<RoomId>)
    ensures start in order && NoDup(order)
  {
    if scan == [] then [start]
    else
      var n := |scan| - 1;
      var front := Discovered(start, scan[..n]);
      if scan[n].to in front then front else front + [scan[n].to]
  }

  /** No exit scanned before leads to the same room. */
  predicate IsFirst(start: RoomId, scan: seq<Edge>, i: int) {
    0 <= i < |scan| && scan[i].to != start && forall j :: 0 <= j < i ==> scan[j].to != scan[i].to
  }

  /** Every room has the position and the origin that the first exit to it gave it. */
  ghost predicate Visits(start: RoomId, scan: seq<Edge>, positions: map<RoomId, Pos>, firstVia: map<RoomId, RoomId>) {
    && (forall id :: id in Discovered(start, scan) <==> id in positions) && firstVia.Keys == positions.Keys
    && start in positions && positions[start] == ORIGIN && firstVia[start] == START
    && forall i :: IsFirst(start, scan, i) ==> Visited(scan[i], positions, firstVia)
  }

  /** The exit gave its target position and origin. */
  ghost predicate Visited(e: Edge, positions: map<RoomId, Pos>, firstVia: map<RoomId, RoomId>) {
    && e.from in positions && e.to in positions && e.to in firstVia && Known(e.dir)
    && positions[e.to] == Plus(positions[e.from], Off(e.dir)) && firstVia[e.to] == e.from
  }

  /** Breadth first: the rooms are scanned in the order they were discovered, each after its
      discovery, and get their positions from the first exits to them. */
  ghost predicate FirstVisits(zone: Zone, start: RoomId, order: seq<RoomId>, positions: map<RoomId, Pos>, firstVia: map<RoomId, RoomId>) {
    && order == Discovered(start, ScanOf(zone, order))
    && ScanOrder(zone, start, order)
    && Visits(start, ScanOf(zone, order), positions, firstVia)
  }

  lemma {:induction false} DiscoveredGrows(start: RoomId, scan: seq<Edge>, n: nat)
    requires n <= |scan|
    ensures Discovered(start, scan[..n]) <= Discovered(start, scan)
  {
    if n < |scan| {
      DiscoveredGrows(start, scan[..|scan| - 1], n);
      assert scan[..|scan| - 1][..n] == scan[..n];
    } else {
      assert scan[..n] == scan;
    }
  }

  lemma {:induction false} ScanOfPrefix(zone: Zone, order: seq<RoomId>, n: nat)
    requires n <= |order|
    ensures ScanOf(zone, order[..n]) <= ScanOf(zone, order)
  {
    if n < |order| {
      ScanOfPrefix(zone, order[..|order| - 1], n);
      assert order[..|order| - 1][..n] == order[..n];
    } else {
      assert order[..n] == order;
    }
  }

  /** What the first rooms discover is the beginning of the whole order. */
  lemma DiscoveredBy(zone: Zone, start: RoomId, order: seq<RoomId>, n: nat)
    requires n <= |order| && order == Discovered(start, ScanOf(zone, order))
    ensures Discovered(start, ScanOf(zone, order[..n])) <= order
  {
    ScanOfPrefix(zone, order, n);
    var scan, part := ScanOf(zone, order), ScanOf(zone, order[..n]);
    assert scan[..|part|] == part;
    DiscoveredGrows(start, scan, |part|);
  }

  /** There is only one such order ... */
  lemma {:induction false} OneOrder(zone: Zone, start: RoomId, a: seq<RoomId>, b: seq<RoomId>, n: nat)
    requires a == Discovered(start, ScanOf(zone, a)) && b == Discovered(start, ScanOf(zone, b))
    requires ScanOrder(zone, start, a) && ScanOrder(zone, start, b)
    requires n <= |a|
    ensures n <= |b| && a[..n] == b[..n]
  {
    hide Discovered, ScanOf;
    if n > 0 {
      OneOrder(zone, start, a, b, n - 1);
      var d := Discovered(start, ScanOf(zone, a[..n - 1]));
      DiscoveredBy(zone, start, a, n - 1);
      DiscoveredBy(zone, start, b, n - 1);
      NotAmong(a, d, n - 1);
      assert b[..n] == b[..n - 1] + [b[n - 1]];
      assert a[..n] == a[..n - 1] + [a[n - 1]];
    }
  }

  lemma NotAmong(a: seq<RoomId>, d: seq<RoomId>, k: nat)
    requires NoDup(a) && d <= a && k < |a| && a[k] in d
    ensures k < |d|
  {
    var i :| 0 <= i < |d| && d[i] == a[k];
    assert a[i] == a[k];
  }

  /** The first exit to a room that is discovered. */
  lemma {:induction false} FirstExit(start: RoomId, scan: seq<Edge>, id: RoomId) returns (i: nat)
    requires id in Discovered(start, scan) && id != start
    ensures IsFirst(start, scan, i) && scan[i].to == id
  {
    var n := |scan| - 1;
    if id in Discovered(start, scan[..n]) {
      i := FirstExit(start, scan[..n], id);
    } else {
      i := n;
      forall j | 0 <= j < n ensures scan[j].to != id {
        TargetDiscovered(start, scan[..n], j);
      }
    }
  }

  lemma {:induction false} TargetDiscovered(start: RoomId, scan: seq<Edge>, j: nat)
    requires j < |scan|
    ensures scan[j].to in Discovered(start, scan)
  {
    if j < |scan| - 1 { TargetDiscovered(start, scan[..|scan| - 1], j); }
  }

  lemma {:induction false} ScanOfMembers(zone: Zone, order: seq<RoomId>)
    ensures forall e :: e in ScanOf(zone, order) <==> e.from in order && KnownEdge(zone, e)
  {
    if order != [] {
      var n := |order| - 1;
      ScanOfMembers(zone, order[..n]);
      assert forall id :: id in order <==> id == order[n] || id in order[..n];
    }
  }

  /** ... and only one position and origin for each room: the contract of the search determines them. */
  lemma FirstVisitsUnique(zone: Zone, start: RoomId, a: seq<RoomId>, b: seq<RoomId>, positions: map<RoomId, Pos>, positions': map<RoomId, Pos>,
                          firstVia: map<RoomId, RoomId>, firstVia': map<RoomId, RoomId>)
    requires FirstVisits(zone, start, a, positions, firstVia) && FirstVisits(zone, start, b, positions', firstVia')
    ensures a == b && positions == positions' && firstVia == firstVia'
  {
    hide Visits, Discovered, ScanOf, ScanOrder;
    OneOrder(zone, start, a, b, |a|);
    OneOrder(zone, start, b, a, |b|);
    assert a[..|a|] == a && b[..|b|] == b;
    VisitsKeys(start, ScanOf(zone, a), positions, firstVia);
    VisitsKeys(start, ScanOf(zone, a), positions', firstVia');
    forall n | 0 <= n < |a| ensures a[n] in positions && a[n] in positions' && positions[a[n]] == positions'[a[n]] && firstVia[a[n]] == firstVia'[a[n]] {
      OnePosition(zone, start, a, positions, positions', firstVia, firstVia', n);
    }
    SameOnList(a, positions, positions');
    SameOnList(a, firstVia, firstVia');
  }

  lemma SameOnList<T>(ids: seq<RoomId>, m: map<RoomId, T>, m': map<RoomId, T>)
    requires (forall id :: id in ids <==> id in m) && forall id :: id in ids <==> id in m'
    requires forall n :: 0 <= n < |ids| ==> m[ids[n]] == m'[ids[n]]
    ensures m == m'
  {
    forall id | id in m ensures m[id] == m'[id] { var n :| 0 <= n < |ids| && ids[n] == id; }
  }

  lemma VisitsKeys(start: RoomId, scan: seq<Edge>, positions: map<RoomId, Pos>, firstVia: map<RoomId, RoomId>)
    requires Visits(start, scan, positions, firstVia)
    ensures (forall id :: id in Discovered(start, scan) <==> id in positions) && firstVia.Keys == positions.Keys
    ensures start in positions && positions[start] == ORIGIN && firstVia[start] == START
  {
  }

  lemma {:induction false} OnePosition(zone: Zone, start: RoomId, order: seq<RoomId>, positions: map<RoomId, Pos>, positions': map<RoomId, Pos>,
                                       firstVia: map<RoomId, RoomId>, firstVia': map<RoomId, RoomId>, n: nat)
    requires FirstVisits(zone, start, order, positions, firstVia) && FirstVisits(zone, start, order, positions', firstVia') && n < |order|
    ensures order[n] in positions && order[n] in positions' && positions[order[n]] == positions'[order[n]]
    ensures firstVia[order[n]] == firstVia'[order[n]]
    decreases n
  {
    hide Discovered, ScanOf, Visits;
    var scan, part, id := ScanOf(zone, order), ScanOf(zone, order[..n]), order[n];
    VisitsKeys(start, scan, positions, firstVia);
    VisitsKeys(start, scan, positions', firstVia');
    if id != start {
      var i := FirstExit(start, part, id);
      ScanOfPrefix(zone, order, n);
      assert scan[i] == part[i] && IsFirst(start, scan, i);
      assert part[i] in part;
      ScanOfMembers(zone, order[..n]);
      var k :| 0 <= k < n && order[k] == part[i].from;
      OnePosition(zone, start, order, positions, positions', firstVia, firstVia', k);
      VisitsAt(start, scan, positions, firstVia, i);
      VisitsAt(start, scan, positions', firstVia', i);
    }
  }

  lemma VisitsAt(start: RoomId, scan: seq<Edge>, positions: map<RoomId, Pos>, firstVia: map<RoomId, RoomId>, i: nat)
    requires Visits(start, scan, positions, firstVia) && IsFirst(start, scan, i)
    ensures scan[i].from in positions && scan[i].to in positions && scan[i].to in firstVia && Known(scan[i].dir)
    ensures positions[scan[i].to] == Plus(positions[scan[i].from], Off(scan[i].dir)) && firstVia[scan[i].to] == scan[i].from
  {
  }

  // ---- The conflict list ----

  /** The disagreeing exits to a room, in the order they were scanned. */
  ghost function PathsTo(positions: map<RoomId, Pos>, scan: seq<Edge>, room: RoomId): seq<Path> {
    if scan == [] then []
    else
      var n := |scan| - 1;
      var front := PathsTo(positions, scan[..n], room);
      if scan[n].to == room && Disagrees(positions, scan[n]) then front + [Path(scan[n].from, Implied(positions, scan[n]))] else front
  }

  lemma {:induction false} PathsToStill(positions: map<RoomId, Pos>, after: map<RoomId, Pos>, scan: seq<Edge>, room: RoomId)
    requires forall e :: e in scan ==> Known(e.dir) && e.from in positions && e.to in positions
    requires forall id :: id in positions ==> id in after && after[id] == positions[id]
    ensures PathsTo(after, scan, room) == PathsTo(positions, scan, room)
  {
    if scan != [] {
      var n := |scan| - 1;
      assert scan[n] in scan;
      PathsToStill(positions, after, scan[..n], room);
    }
  }

  /** The paths of a conflict after the room's own. */
  function Others(c: Conflict): seq<Path> {
    if c.paths == [] then [] else c.paths[1..]
  }

  ghost predicate PathOk(zone: Zone, positions: map<RoomId, Pos>, room: RoomId, p: Path) {
    exists e :: KnownEdge(zone, e) && e.to == room && e.from == p.via && Disagrees(positions, e) && Implied(positions, e) == p.ideal
  }

  /** A conflict starts with the room's own position; every further path is an exit that
      disagrees with it, and delta is the largest distance of such a path from the first. */
  ghost predicate ConflictOk(zone: Zone, positions: map<RoomId, Pos>, firstVia: map<RoomId, RoomId>, c: Conflict) {
    && c.room in positions && c.room in firstVia && |c.paths| >= 2
    && c.paths[0] == Path(firstVia[c.room], positions[c.room].AtCell())
    && (forall k :: 1 <= k < |c.paths| ==> PathOk(zone, positions, c.room, c.paths[k]))
    && (forall k :: 1 <= k < |c.paths| ==> Diamond.Dist(c.paths[0].ideal, c.paths[k].ideal) <= c.delta)
    && (exists k :: 1 <= k < |c.paths| && Diamond.Dist(c.paths[0].ideal, c.paths[k].ideal) == c.delta)
  }

  ghost predicate Reported(positions: map<RoomId, Pos>, conflicts: seq<Conflict>, e: Edge) {
    && e.from in positions && Known(e.dir)
    && exists i :: 0 <= i < |conflicts| && conflicts[i].room == e.to && Path(e.from, Implied(positions, e)) in conflicts[i].paths
  }

  /** The conflict list tells of the disagreeing scanned exits, and every conflict is real. */
  ghost predicate Records(zone: Zone, positions: map<RoomId, Pos>, firstVia: map<RoomId, RoomId>, scanned: seq<Edge>,
                          conflicts: seq<Conflict>)
  {
    && (forall i :: 0 <= i < |conflicts| ==> ConflictOk(zone, positions, firstVia, conflicts[i]))
    && (forall i :: 0 <= i < |conflicts| ==> Others(conflicts[i]) == PathsTo(positions, scanned, conflicts[i].room))
    && (forall e :: e in scanned && Disagrees(positions, e) ==> Reported(positions, conflicts, e))
  }

  /** The conflict map finds the one conflict of each room that has one. */
  ghost predicate Indexes(conflictMap: map<RoomId, nat>, conflicts: seq<Conflict>) {
    && (forall id :: id in conflictMap ==> conflictMap[id] < |conflicts| && conflicts[conflictMap[id]].room == id)
    && (forall i :: 0 <= i < |conflicts| ==> conflicts[i].room in conflictMap && conflictMap[conflicts[i].room] == i)
  }

  /** Placing a new room where an exit wants it keeps the list right. */
  lemma RecordsGrow(zone: Zone, positions: map<RoomId, Pos>, firstVia: map<RoomId, RoomId>, scanned: seq<Edge>,
                    conflicts: seq<Conflict>, p: Pos, e: Edge)
    requires Records(zone, positions, firstVia, scanned, conflicts)
    requires forall d :: d in scanned ==> Known(d.dir) && d.from in positions && d.to in positions
    requires e.to !in positions && e.to !in firstVia && e.from in positions && Known(e.dir)
    requires p.AtCell() == Implied(positions, e)
    ensures Records(zone, positions[e.to := p], firstVia[e.to := e.from], scanned + [e], conflicts)
  {
    var after, via := positions[e.to := p], firstVia[e.to := e.from];
    forall i | 0 <= i < |conflicts| ensures ConflictOk(zone, after, via, conflicts[i]) {
      var c := conflicts[i];
      assert ConflictOk(zone, positions, firstVia, c);
      forall k | 1 <= k < |c.paths| ensures PathOk(zone, after, c.room, c.paths[k]) {
        assert PathOk(zone, positions, c.room, c.paths[k]);
        var d :| KnownEdge(zone, d) && d.to == c.room && d.from == c.paths[k].via && Disagrees(positions, d)
                 && Implied(positions, d) == c.paths[k].ideal;
        assert Disagrees(after, d) && Implied(after, d) == c.paths[k].ideal;
      }
    }
    forall i | 0 <= i < |conflicts| ensures Others(conflicts[i]) == PathsTo(after, scanned + [e], conflicts[i].room) {
      PathsToStill(positions, after, scanned, conflicts[i].room);
      assert (scanned + [e])[..|scanned|] == scanned;
    }
    forall d | d in scanned + [e] && Disagrees(after, d) ensures Reported(after, conflicts, d) {
      assert d in scanned && Disagrees(positions, d);
      assert Reported(positions, conflicts, d);
    }
  }

  lemma RecordsScan(zone: Zone, positions: map<RoomId, Pos>, firstVia: map<RoomId, RoomId>, scanned: seq<Edge>,
                    conflicts: seq<Conflict>, e: Edge)
    requires Records(zone, positions, firstVia, scanned, conflicts) && !Disagrees(positions, e)
    ensures Records(zone, positions, firstVia, scanned + [e], conflicts)
  {
    assert (scanned + [e])[..|scanned|] == scanned;
  }

  lemma ReportedStill(positions: map<RoomId, Pos>, conflicts: seq<Conflict>, conflicts': seq<Conflict>, e: Edge)
    requires Reported(positions, conflicts, e)
    requires |conflicts| <= |conflicts'|
    requires forall i :: 0 <= i < |conflicts| ==>
      conflicts'[i].room == conflicts[i].room && forall p :: p in conflicts[i].paths ==> p in conflicts'[i].paths
    ensures Reported(positions, conflicts', e)
  {
  }

  /** The branch for a target that already has a position the exit disagrees with. */
  method RecordConflict(zone: Zone, positions: map<RoomId, Pos>, firstVia: map<RoomId, RoomId>, ghost scanned: seq<Edge>,
                        conflicts: seq<Conflict>, conflictMap: map<RoomId, nat>, e: Edge)
    returns (conflicts': seq<Conflict>, conflictMap': map<RoomId, nat>)
    requires Records(zone, positions, firstVia, scanned, conflicts) && Indexes(conflictMap, conflicts)
    requires KnownEdge(zone, e) && e.to in firstVia && Disagrees(positions, e)
    ensures Records(zone, positions, firstVia, scanned + [e], conflicts') && Indexes(conflictMap', conflicts')
  {
    hide Records, Indexes, KnownEdge, Diamond.Dist;
    var existing, ideal := positions[e.to].AtCell(), Implied(positions, e);
    var delta := Diamond.Dist(existing, ideal);
    var path := Path(e.from, ideal);
    if e.to in conflictMap {
      IndexParts(conflictMap, conflicts, e.to);
      var i := conflictMap[e.to];
      var c := conflicts[i];
      var c' := Conflict(c.room, c.paths + [path], if delta > c.delta then delta else c.delta);
      conflicts' := conflicts[i := c'];
      conflictMap' := conflictMap;
      ConflictUpdated(zone, positions, firstVia, scanned, conflicts, conflictMap, e, c');
    } else {
      var c' := Conflict(e.to, [Path(firstVia[e.to], existing), path], delta);
      conflicts' := conflicts + [c'];
      conflictMap' := conflictMap[e.to := |conflicts|];
      ConflictAdded(zone, positions, firstVia, scanned, conflicts, conflictMap, e, c');
    }
  }

  lemma IndexParts(conflictMap: map<RoomId, nat>, conflicts: seq<Conflict>, id: RoomId)
    requires Indexes(conflictMap, conflicts) && id in conflictMap
    ensures conflictMap[id] < |conflicts| && conflicts[conflictMap[id]].room == id
    ensures forall i :: 0 <= i < |conflicts| && i != conflictMap[id] ==> conflicts[i].room != id
  {
  }

  /** The room has a conflict already, which gains a path. */
  lemma RecordsParts(zone: Zone, positions: map<RoomId, Pos>, firstVia: map<RoomId, RoomId>, scanned: seq<Edge>, conflicts: seq<Conflict>)
    requires Records(zone, positions, firstVia, scanned, conflicts)
    ensures forall i :: 0 <= i < |conflicts| ==> ConflictOk(zone, positions, firstVia, conflicts[i])
    ensures forall i :: 0 <= i < |conflicts| ==> Others(conflicts[i]) == PathsTo(positions, scanned, conflicts[i].room)
    ensures forall e :: e in scanned && Disagrees(positions, e) ==> Reported(positions, conflicts, e)
  {
  }

  lemma MakeRecords(zone: Zone, positions: map<RoomId, Pos>, firstVia: map<RoomId, RoomId>, scanned: seq<Edge>, conflicts: seq<Conflict>)
    requires forall i :: 0 <= i < |conflicts| ==> ConflictOk(zone, positions, firstVia, conflicts[i])
    requires forall i :: 0 <= i < |conflicts| ==> Others(conflicts[i]) == PathsTo(positions, scanned, conflicts[i].room)
    requires forall e :: e in scanned && Disagrees(positions, e) ==> Reported(positions, conflicts, e)
    ensures Records(zone, positions, firstVia, scanned, conflicts)
  {
  }

  lemma ConflictUpdatedAt(zone: Zone, positions: map<RoomId, Pos>, firstVia: map<RoomId, RoomId>, scanned: seq<Edge>, conflicts: seq<Conflict>,
                          i: nat, e: Edge, c': Conflict, conflicts': seq<Conflict>)
    requires Records(zone, positions, firstVia, scanned, conflicts) && i < |conflicts| && conflicts' == conflicts[i := c']
    requires KnownEdge(zone, e) && Disagrees(positions, e) && conflicts[i].room == e.to
    requires forall j :: 0 <= j < |conflicts| && j != i ==> conflicts[j].room != e.to
    requires var c := conflicts[i]; var d := Diamond.Dist(positions[e.to].AtCell(), Implied(positions, e));
             c' == Conflict(c.room, c.paths + [Path(e.from, Implied(positions, e))], if d > c.delta then d else c.delta)
    ensures Records(zone, positions, firstVia, scanned + [e], conflicts')
  {
    DisagreeingEnds(positions, e);
    RecordsParts(zone, positions, firstVia, scanned, conflicts);
    hide Records, ConflictOk, PathOk, Reported, KnownEdge, Diamond.Dist, PathsTo, Disagrees, Implied, Others;
    var c := conflicts[i];
    ConflictShape(zone, positions, firstVia, c);
    ConflictGrows(zone, positions, firstVia, c, c', e);
    UpdatedPaths(positions, scanned, conflicts, e, i, c', conflicts');
    StillReported(positions, scanned, conflicts, conflicts', e, i);
    MakeRecords(zone, positions, firstVia, scanned + [e], conflicts');
  }

  lemma ConflictUpdated(zone: Zone, positions: map<RoomId, Pos>, firstVia: map<RoomId, RoomId>, scanned: seq<Edge>, conflicts: seq<Conflict>,
                        conflictMap: map<RoomId, nat>, e: Edge, c': Conflict)
    requires Records(zone, positions, firstVia, scanned, conflicts) && Indexes(conflictMap, conflicts)
    requires KnownEdge(zone, e) && e.to in conflictMap && conflictMap[e.to] < |conflicts| && Disagrees(positions, e)
    requires var c := conflicts[conflictMap[e.to]]; var d := Diamond.Dist(positions[e.to].AtCell(), Implied(positions, e));
             c' == Conflict(c.room, c.paths + [Path(e.from, Implied(positions, e))], if d > c.delta then d else c.delta)
    ensures Records(zone, positions, firstVia, scanned + [e], conflicts[conflictMap[e.to] := c'])
    ensures Indexes(conflictMap, conflicts[conflictMap[e.to] := c'])
  {
    IndexParts(conflictMap, conflicts, e.to);
    RecordsParts(zone, positions, firstVia, scanned, conflicts);
    IndexesUpdated(conflictMap, conflicts, conflictMap[e.to], c');
    ConflictUpdatedAt(zone, positions, firstVia, scanned, conflicts, conflictMap[e.to], e, c', conflicts[conflictMap[e.to] := c']);
  }

  lemma UpdatedPaths(positions: map<RoomId, Pos>, scanned: seq<Edge>, conflicts: seq<Conflict>, e: Edge, i: nat, c': Conflict, conflicts': seq<Conflict>)
    requires i < |conflicts| && conflicts' == conflicts[i := c'] && conflicts[i].paths != [] && conflicts[i].room == e.to == c'.room && Disagrees(positions, e)
    requires c'.paths == conflicts[i].paths + [Path(e.from, Implied(positions, e))]
    requires forall j :: 0 <= j < |conflicts| && j != i ==> conflicts[j].room != e.to
    requires forall j :: 0 <= j < |conflicts| ==> Others(conflicts[j]) == PathsTo(positions, scanned, conflicts[j].room)
    ensures forall j :: 0 <= j < |conflicts'| ==> Others(conflicts'[j]) == PathsTo(positions, scanned + [e], conflicts'[j].room)
  {
    hide PathsTo;
    assert Others(c') == Others(conflicts[i]) + [Path(e.from, Implied(positions, e))];
    PathsAll(positions, scanned, e, conflicts, conflicts', i);
  }

  lemma IndexesAdded(conflictMap: map<RoomId, nat>, conflicts: seq<Conflict>, c: Conflict)
    requires Indexes(conflictMap, conflicts) && c.room !in conflictMap
    ensures Indexes(conflictMap[c.room := |conflicts|], conflicts + [c]) && forall i :: 0 <= i < |conflicts| ==> conflicts[i].room != c.room
  {
  }

  lemma IndexesUpdated(conflictMap: map<RoomId, nat>, conflicts: seq<Conflict>, i: nat, c: Conflict)
    requires Indexes(conflictMap, conflicts) && i < |conflicts| && c.room == conflicts[i].room
    ensures Indexes(conflictMap, conflicts[i := c])
  {
  }

  /** The room gets its first conflict. */
  lemma ConflictAdded(zone: Zone, positions: map<RoomId, Pos>, firstVia: map<RoomId, RoomId>, scanned: seq<Edge>, conflicts: seq<Conflict>,
                      conflictMap: map<RoomId, nat>, e: Edge, c': Conflict)
    requires Records(zone, positions, firstVia, scanned, conflicts) && Indexes(conflictMap, conflicts)
    requires KnownEdge(zone, e) && e.to !in conflictMap && e.to in firstVia && Disagrees(positions, e)
    requires c' == Conflict(e.to, [Path(firstVia[e.to], positions[e.to].AtCell()), Path(e.from, Implied(positions, e))],
                            Diamond.Dist(positions[e.to].AtCell(), Implied(positions, e)))
    ensures Records(zone, positions, firstVia, scanned + [e], conflicts + [c'])
    ensures Indexes(conflictMap[e.to := |conflicts|], conflicts + [c'])
  {
    DisagreeingEnds(positions, e);
    RecordsParts(zone, positions, firstVia, scanned, conflicts);
    IndexesAdded(conflictMap, conflicts, c');
    hide Records, ConflictOk, PathOk, Reported, KnownEdge, Diamond.Dist, PathsTo, Disagrees, Implied;
    var conflicts' := conflicts + [c'];
    ConflictStarts(zone, positions, firstVia, c', e);
    forall d | d in scanned && d.to == e.to ensures !Disagrees(positions, d) { Unreported(positions, conflicts, conflictMap, d); }
    NoPathsYet(positions, scanned, e.to);
    assert Others(c') == [Path(e.from, Implied(positions, e))];
    hide Others, Indexes;
    PathsAll(positions, scanned, e, conflicts, conflicts', |conflicts|);
    StillReported(positions, scanned, conflicts, conflicts', e, |conflicts|);
    MakeRecords(zone, positions, firstVia, scanned + [e], conflicts');
  }

  lemma StillReported(positions: map<RoomId, Pos>, scanned: seq<Edge>, conflicts: seq<Conflict>, conflicts': seq<Conflict>, e: Edge, at: nat)
    requires |conflicts| <= |conflicts'| && at < |conflicts'| && conflicts'[at].room == e.to && Disagrees(positions, e)
    requires Path(e.from, Implied(positions, e)) in conflicts'[at].paths
    requires forall i :: 0 <= i < |conflicts| ==>
      conflicts'[i].room == conflicts[i].room && forall p :: p in conflicts[i].paths ==> p in conflicts'[i].paths
    requires forall d :: d in scanned && Disagrees(positions, d) ==> Reported(positions, conflicts, d)
    ensures forall d :: d in scanned + [e] && Disagrees(positions, d) ==> Reported(positions, conflicts', d)
  {
    hide Reported;
    forall d | d in scanned + [e] && Disagrees(positions, d) ensures Reported(positions, conflicts', d) {
      if d in scanned {
        ReportedStill(positions, conflicts, conflicts', d);
      } else {
        ReportedAt(positions, conflicts', d, at);
      }
    }
  }

  /** A scanned exit that disagrees leads to a room with a conflict, and every conflict is indexed. */
  lemma Unreported(positions: map<RoomId, Pos>, conflicts: seq<Conflict>, conflictMap: map<RoomId, nat>, d: Edge)
    requires Indexes(conflictMap, conflicts) && d.to !in conflictMap
    requires Disagrees(positions, d) ==> Reported(positions, conflicts, d)
    ensures !Disagrees(positions, d)
  {
  }

  lemma {:induction false} NoPathsYet(positions: map<RoomId, Pos>, scan: seq<Edge>, room: RoomId)
    requires forall d :: d in scan && d.to == room ==> !Disagrees(positions, d)
    ensures PathsTo(positions, scan, room) == []
  {
    if scan != [] { NoPathsYet(positions, scan[..|scan| - 1], room); }
  }

  lemma PathsStep(positions: map<RoomId, Pos>, scan: seq<Edge>, e: Edge, room: RoomId)
    requires Disagrees(positions, e)
    ensures PathsTo(positions, scan + [e], room) ==
            if e.to == room then PathsTo(positions, scan, room) + [Path(e.from, Implied(positions, e))] else PathsTo(positions, scan, room)
  {
    assert (scan + [e])[..|scan|] == scan;
  }

  /** One conflict gains the path, the others are for other rooms. */
  lemma PathsAll(positions: map<RoomId, Pos>, scanned: seq<Edge>, e: Edge, conflicts: seq<Conflict>, conflicts': seq<Conflict>, at: nat)
    requires Disagrees(positions, e) && at < |conflicts'| && conflicts'[at].room == e.to
    requires Others(conflicts'[at]) == PathsTo(positions, scanned, e.to) + [Path(e.from, Implied(positions, e))]
    requires forall i :: 0 <= i < |conflicts'| && i != at ==>
      conflicts'[i].room != e.to && Others(conflicts'[i]) == PathsTo(positions, scanned, conflicts'[i].room)
    ensures forall i :: 0 <= i < |conflicts'| ==> Others(conflicts'[i]) == PathsTo(positions, scanned + [e], conflicts'[i].room)
  {
    hide PathsTo, Others, Disagrees;
    forall i | 0 <= i < |conflicts'| ensures Others(conflicts'[i]) == PathsTo(positions, scanned + [e], conflicts'[i].room) {
      PathsStep(positions, scanned, e, conflicts'[i].room);
    }
  }

  lemma ReportedAt(positions: map<RoomId, Pos>, conflicts: seq<Conflict>, e: Edge, i: nat)
    requires Disagrees(positions, e)
    requires i < |conflicts| && conflicts[i].room == e.to && Path(e.from, Implied(positions, e)) in conflicts[i].paths
    ensures Reported(positions, conflicts, e)
  {
  }

  lemma ConflictShape(zone: Zone, positions: map<RoomId, Pos>, firstVia: map<RoomId, RoomId>, c: Conflict)
    requires ConflictOk(zone, positions, firstVia, c)
    ensures c.room in positions && |c.paths| >= 2 && c.paths != [] && c.paths[0].ideal == positions[c.room].AtCell()
  {
  }

  lemma ConflictParts(zone: Zone, positions: map<RoomId, Pos>, firstVia: map<RoomId, RoomId>, c: Conflict)
    requires ConflictOk(zone, positions, firstVia, c)
    ensures c.room in positions && c.room in firstVia && |c.paths| >= 2 && |Others(c)| > 0
    ensures c.paths == [Path(firstVia[c.room], positions[c.room].AtCell())] + Others(c)
    ensures forall k :: 1 <= k < |c.paths| ==> Diamond.Dist(c.paths[0].ideal, c.paths[k].ideal) <= c.delta
    ensures exists k :: 1 <= k < |c.paths| && Diamond.Dist(c.paths[0].ideal, c.paths[k].ideal) == c.delta
  {
    hide PathOk, Diamond.Dist;
  }

  lemma ConflictStarts(zone: Zone, positions: map<RoomId, Pos>, firstVia: map<RoomId, RoomId>, c: Conflict, e: Edge)
    requires KnownEdge(zone, e) && e.to in firstVia && Disagrees(positions, e)
    requires c == Conflict(e.to, [Path(firstVia[e.to], positions[e.to].AtCell()), Path(e.from, Implied(positions, e))],
                           Diamond.Dist(positions[e.to].AtCell(), Implied(positions, e)))
    ensures ConflictOk(zone, positions, firstVia, c) && Path(e.from, Implied(positions, e)) in c.paths
  {
    assert c.paths[1] == Path(e.from, Implied(positions, e));
    assert PathOk(zone, positions, c.room, c.paths[1]);
    assert Diamond.Dist(c.paths[0].ideal, c.paths[1].ideal) == c.delta;
  }

  lemma ConflictGrows(zone: Zone, positions: map<RoomId, Pos>, firstVia: map<RoomId, RoomId>, c: Conflict, c': Conflict, e: Edge)
    requires ConflictOk(zone, positions, firstVia, c) && KnownEdge(zone, e) && Disagrees(positions, e) && c.room == e.to
    requires c'.room == c.room && c'.paths == c.paths + [Path(e.from, Implied(positions, e))]
    requires var d := Diamond.Dist(positions[e.to].AtCell(), Implied(positions, e)); c'.delta == if d > c.delta then d else c.delta
    ensures ConflictOk(zone, positions, firstVia, c') && Path(e.from, Implied(positions, e)) in c'.paths
    ensures forall p :: p in c.paths ==> p in c'.paths
  {
    hide PathOk, Diamond.Dist;
    var path := Path(e.from, Implied(positions, e));
    assert PathOk(zone, positions, c.room, path) by { PathIs(zone, positions, e); }
    assert c'.paths[|c.paths|] == path;
    assert forall k :: 0 <= k < |c.paths| ==> c'.paths[k] == c.paths[k];
    var k :| 1 <= k < |c.paths| && Diamond.Dist(c.paths[0].ideal, c.paths[k].ideal) == c.delta;
    assert Diamond.Dist(c'.paths[0].ideal, c'.paths[k].ideal) == c.delta;
  }

  lemma PathIs(zone: Zone, positions: map<RoomId, Pos>, e: Edge)
    requires KnownEdge(zone, e) && Disagrees(positions, e)
    ensures PathOk(zone, positions, e.to, Path(e.from, Implied(positions, e)))
  {
  }

  // ---- The claims on each 3D cell ----

  ghost predicate Claims(positions: map<RoomId, Pos>, cellToRooms: map<Pos, seq<RoomId>>, keys: seq<Pos>) {
    && (forall p :: p in keys <==> p in cellToRooms)
    && (forall id :: id in positions ==> positions[id] in cellToRooms)
    && (forall p :: p in cellToRooms ==> NoDup(cellToRooms[p]))
    && (forall p, id :: p in cellToRooms ==> (id in cellToRooms[p] <==> id in positions && positions[id] == p))
  }

  lemma ClaimsGrow(positions: map<RoomId, Pos>, cellToRooms: map<Pos, seq<RoomId>>, keys: seq<Pos>, id: RoomId, p: Pos)
    requires Claims(positions, cellToRooms, keys) && id !in positions
    ensures var claims := if p in cellToRooms then cellToRooms[p] else [];
            Claims(positions[id := p], cellToRooms[p := claims + [id]], if p in cellToRooms then keys else keys + [p])
  {
    var claims := if p in cellToRooms then cellToRooms[p] else [];
    assert forall r :: r in claims + [id] <==> r in claims || r == id;
  }

  ghost predicate CollisionOk(positions: map<RoomId, Pos>, c: Collision) {
    && |c.rooms| > 1 && NoDup(c.rooms)
    && exists p: Pos :: c.position == p.AtCell() && forall id :: id in c.rooms <==> id in positions && positions[id] == p
  }

  method CollectCollisions(positions: map<RoomId, Pos>, cellToRooms: map<Pos, seq<RoomId>>, keys: seq<Pos>)
    returns (collisions: seq<Collision>)
    requires Claims(positions, cellToRooms, keys)
    ensures forall c :: c in collisions ==> CollisionOk(positions, c)
    ensures forall a, b :: a in positions && b in positions && a != b && positions[a] == positions[b] ==>
      exists c :: c in collisions && a in c.rooms && b in c.rooms
    ensures collisions == [] <==> Injective(positions)
  {
    collisions := [];
    for i := 0 to |keys|
      invariant forall c :: c in collisions ==> CollisionOk(positions, c)
      invariant forall j :: 0 <= j < i && |cellToRooms[keys[j]]| > 1 ==>
        Collision(keys[j].AtCell(), cellToRooms[keys[j]]) in collisions
    {
      if |cellToRooms[keys[i]]| > 1 {
        assert keys[i] in keys;
        collisions := collisions + [Collision(keys[i].AtCell(), cellToRooms[keys[i]])];
      }
    }
    forall a, b | a in positions && b in positions && a != b && positions[a] == positions[b]
      ensures exists c :: c in collisions && a in c.rooms && b in c.rooms
    {
      var p := positions[a];
      var j :| 0 <= j < |keys| && keys[j] == p;
      assert a in cellToRooms[p] && b in cellToRooms[p];
      assert Collision(p.AtCell(), cellToRooms[p]) in collisions;
    }
    if collisions != [] {
      var c := collisions[0];
      assert CollisionOk(positions, c);
      assert c.rooms[0] in c.rooms && c.rooms[1] in c.rooms;
    }
  }

  // ---- Sorting by severity ----

  function Insert(c: Conflict, s: seq<Conflict>): seq<Conflict> {
    if s == [] || c.delta >= s[0].delta then [c] + s else [s[0]] + Insert(c, s[1..])
  }

  /** A stable sort, highest delta first. */
  function BySeverity(s: seq<Conflict>): seq<Conflict> {
    if s == [] then [] else Insert(s[0], BySeverity(s[1..]))
  }

  ghost predicate Descending(s: seq<Conflict>) {
    forall i, j :: 0 <= i < j < |s| ==> s[i].delta >= s[j].delta
  }

  lemma {:induction false} InsertSorts(c: Conflict, s: seq<Conflict>)
    requires Descending(s)
    ensures Descending(Insert(c, s)) && multiset(Insert(c, s)) == multiset(s) + multiset{c}
  {
    if s == [] || c.delta >= s[0].delta {
    } else {
      InsertSorts(c, s[1..]);
      var t := Insert(c, s[1..]);
      assert s == [s[0]] + s[1..];
      InsertBelow(c, s[1..], s[0].delta);
      ConsSorted(s[0], t);
    }
  }

  lemma {:induction false} InsertBelow(c: Conflict, s: seq<Conflict>, bound: int)
    requires c.delta <= bound && forall d :: d in s ==> d.delta <= bound
    ensures forall d :: d in Insert(c, s) ==> d.delta <= bound
  {
    if s == [] || c.delta >= s[0].delta {
    } else {
      assert s[0] in s;
      InsertBelow(c, s[1..], bound);
    }
  }

  lemma ConsSorted(d: Conflict, s: seq<Conflict>)
    requires Descending(s) && forall e :: e in s ==> e.delta <= d.delta
    ensures Descending([d] + s)
  {
    var t := [d] + s;
    forall i, j | 0 <= i < j < |t| ensures t[i].delta >= t[j].delta {
      assert s[j - 1] in s;
    }
  }

  lemma {:induction false} BySeveritySorts(s: seq<Conflict>)
    ensures Descending(BySeverity(s)) && multiset(BySeverity(s)) == multiset(s)
  {
    if s != [] {
      BySeveritySorts(s[1..]);
      InsertSorts(s[0], BySeverity(s[1..]));
      assert s == [s[0]] + s[1..];
    }
  }

  // ---- The validator ----

  /** Every room an exit can lead to. */
  ghost function Universe(zone: Zone, start: RoomId): set<RoomId> {
    {start} + set id, e | id in zone.exits && e in zone.exits[id] :: e.target
  }

  /** The maps and lists the search updates. */
  datatype Search = Search(positions: map<RoomId, Pos>, firstVia: map<RoomId, RoomId>,
                           conflictMap: map<RoomId, nat>, conflicts: seq<Conflict>,
                           cellToRooms: map<Pos, seq<RoomId>>, keys: seq<Pos>, queue: seq<RoomId>)

  /** The part of the invariant about the search tree itself. */
  ghost predicate TreeOk(zone: Zone, start: RoomId, s: Search, scanned: seq<Edge>) {
    && Visits(start, scanned, s.positions, s.firstVia) && s.positions.Keys <= Universe(zone, start)
    && (forall id :: id in s.positions ==> Reaches(zone, start, id, s.positions[id]))
    && (forall e :: e in scanned ==> KnownEdge(zone, e) && e.from in s.positions && e.to in s.positions)
  }

  /** What holds after any number of exits have been scanned. */
  ghost predicate SearchOk(zone: Zone, start: RoomId, s: Search, scanned: seq<Edge>) {
    && TreeOk(zone, start, s, scanned)
    && Records(zone, s.positions, s.firstVia, scanned, s.conflicts)
    && Indexes(s.conflictMap, s.conflicts)
    && Claims(s.positions, s.cellToRooms, s.keys)
  }

  /** A new room: the exit is the first one to it. */
  lemma TreeGrows(zone: Zone, start: RoomId, s: Search, scanned: seq<Edge>, e: Edge, s': Search)
    requires TreeOk(zone, start, s, scanned) && KnownEdge(zone, e) && e.from in s.positions && e.to !in s.positions
    requires s'.positions == s.positions[e.to := Plus(s.positions[e.from], Off(e.dir))] && s'.firstVia == s.firstVia[e.to := e.from]
    ensures TreeOk(zone, start, s', scanned + [e])
    ensures Discovered(start, scanned + [e]) == Discovered(start, scanned) + [e.to]
  {
    hide Reaches, Universe, Visits, Discovered;
    TreeParts(zone, start, s, scanned);
    VisitsGrow(start, scanned, s.positions, s.firstVia, e);
    InUniverse(zone, start, e);
    ExtendWalk(zone, start, s.positions[e.from], e);
  }

  lemma TreeParts(zone: Zone, start: RoomId, s: Search, scanned: seq<Edge>)
    requires TreeOk(zone, start, s, scanned)
    ensures s.firstVia.Keys == s.positions.Keys && start in s.positions
    ensures forall id :: id in Discovered(start, scanned) <==> id in s.positions
  {
    hide Reaches, Universe, Discovered;
  }

  lemma DiscoveredStep(start: RoomId, scanned: seq<Edge>, e: Edge)
    ensures Discovered(start, []) == [start]
    ensures var front := Discovered(start, scanned); Discovered(start, scanned + [e]) == if e.to in front then front else front + [e.to]
  {
    assert (scanned + [e])[..|scanned|] == scanned;
  }

  lemma VisitedStill(d: Edge, positions: map<RoomId, Pos>, firstVia: map<RoomId, RoomId>, e: Edge)
    requires Visited(d, positions, firstVia) && Known(e.dir) && e.from in positions && e.to !in positions
    ensures Visited(d, positions[e.to := Plus(positions[e.from], Off(e.dir))], firstVia[e.to := e.from])
  {
  }

  lemma VisitedNow(positions: map<RoomId, Pos>, firstVia: map<RoomId, RoomId>, e: Edge)
    requires Known(e.dir) && e.from in positions && e.to !in positions
    ensures Visited(e, positions[e.to := Plus(positions[e.from], Off(e.dir))], firstVia[e.to := e.from])
  {
  }

  lemma VisitsGrow(start: RoomId, scanned: seq<Edge>, positions: map<RoomId, Pos>, firstVia: map<RoomId, RoomId>, e: Edge)
    requires Visits(start, scanned, positions, firstVia) && Known(e.dir) && e.from in positions && e.to !in positions
    requires forall d :: d in scanned ==> d.from in positions && d.to in positions
    ensures Visits(start, scanned + [e], positions[e.to := Plus(positions[e.from], Off(e.dir))], firstVia[e.to := e.from])
    ensures Discovered(start, scanned + [e]) == Discovered(start, scanned) + [e.to]
  {
    var scan := scanned + [e];
    var after, via := positions[e.to := Plus(positions[e.from], Off(e.dir))], firstVia[e.to := e.from];
    VisitsKeys(start, scanned, positions, firstVia);
    DiscoveredStep(start, scanned, e);
    hide Discovered, Visited, IsFirst;
    forall i | 0 <= i < |scan| && IsFirst(start, scan, i) ensures Visited(scan[i], after, via) {
      if i < |scanned| {
        FirstBefore(start, scanned, e, i);
        assert scanned[i] in scanned;
        VisitedStill(scanned[i], positions, firstVia, e);
      } else {
        VisitedNow(positions, firstVia, e);
      }
    }
    MakeVisits(start, scan, after, via);
  }

  lemma FirstBefore(start: RoomId, scanned: seq<Edge>, e: Edge, i: nat)
    requires i < |scanned| && IsFirst(start, scanned + [e], i)
    ensures IsFirst(start, scanned, i) && (scanned + [e])[i] == scanned[i]
  {
    assert forall j :: 0 <= j <= i ==> scanned[j] == (scanned + [e])[j];
  }

  /** A room that has a place already: its first exit came before. */
  lemma TreeStays(zone: Zone, start: RoomId, s: Search, scanned: seq<Edge>, e: Edge, s': Search)
    requires TreeOk(zone, start, s, scanned) && KnownEdge(zone, e) && e.from in s.positions && e.to in s.positions
    requires s'.positions == s.positions && s'.firstVia == s.firstVia
    ensures TreeOk(zone, start, s', scanned + [e])
    ensures Discovered(start, scanned + [e]) == Discovered(start, scanned)
  {
    hide Reaches, Universe, Visits, Discovered;
    TreeParts(zone, start, s, scanned);
    VisitsStay(start, scanned, s.positions, s.firstVia, e);
  }

  lemma VisitsStay(start: RoomId, scanned: seq<Edge>, positions: map<RoomId, Pos>, firstVia: map<RoomId, RoomId>, e: Edge)
    requires Visits(start, scanned, positions, firstVia) && e.to in positions
    ensures Visits(start, scanned + [e], positions, firstVia)
    ensures Discovered(start, scanned + [e]) == Discovered(start, scanned)
  {
    var scan := scanned + [e];
    assert scan[..|scanned|] == scanned;
    assert !IsFirst(start, scan, |scanned|) by {
      if e.to != start {
        var j := FirstExit(start, scanned, e.to);
        assert scan[j].to == e.to;
      }
    }
    forall i | IsFirst(start, scan, i) ensures IsFirst(start, scanned, i) {
      assert forall j :: 0 <= j < |scanned| ==> scanned[j] == scan[j];
    }
  }

  /** One exit of the room being processed. */
  method VisitExit(zone: Zone, ghost start: RoomId, s: Search, ghost scanned: seq<Edge>, current: RoomId, exit: Exit)
    returns (s': Search)
    requires SearchOk(zone, start, s, scanned)
    requires current in s.positions && exit in zone.ExitsOf(current) && Known(exit.dir)
    ensures SearchOk(zone, start, s', scanned + [Edge(current, exit.dir, exit.target)])
    ensures s'.queue == if exit.target in s.positions then s.queue else s.queue + [exit.target]
    ensures Discovered(start, scanned + [Edge(current, exit.dir, exit.target)])
            == Discovered(start, scanned) + if exit.target in s.positions then [] else [exit.target]
    ensures forall id :: id in s.positions ==> id in s'.positions && s'.positions[id] == s.positions[id]
  {
    hide Records, Indexes, Claims, Reaches, Universe, Discovered;
    var target := exit.target;
    ghost var e := Edge(current, exit.dir, target);
    var ideal := Plus(s.positions[current], Off(exit.dir));
    if target in s.positions {
      if s.positions[target].x != ideal.x || s.positions[target].y != ideal.y {
        var conflicts, conflictMap :=
          RecordConflict(zone, s.positions, s.firstVia, scanned, s.conflicts, s.conflictMap, Edge(current, exit.dir, target));
        s' := s.(conflicts := conflicts, conflictMap := conflictMap);
      } else {
        RecordsScan(zone, s.positions, s.firstVia, scanned, s.conflicts, e);
        s' := s;
      }
      TreeStays(zone, start, s, scanned, e, s');
    } else {
      RecordsGrow(zone, s.positions, s.firstVia, scanned, s.conflicts, ideal, e);
      ClaimsGrow(s.positions, s.cellToRooms, s.keys, target, ideal);
      var claims := if ideal in s.cellToRooms then s.cellToRooms[ideal] else [];
      s' := s.(positions := s.positions[target := ideal], firstVia := s.firstVia[target := current],
               keys := if ideal in s.cellToRooms then s.keys else s.keys + [ideal],
               cellToRooms := s.cellToRooms[ideal := claims + [target]], queue := s.queue + [target]);
      TreeGrows(zone, start, s, scanned, e, s');
    }
  }

  lemma InUniverse(zone: Zone, start: RoomId, e: Edge)
    requires KnownEdge(zone, e)
    ensures e.to in Universe(zone, start)
  {
    assert Exit(e.dir, e.to).target == e.to;
  }

  lemma ExtendWalk(zone: Zone, start: RoomId, p: Pos, e: Edge)
    requires Reaches(zone, start, e.from, p) && KnownEdge(zone, e)
    ensures Reaches(zone, start, e.to, Plus(p, Off(e.dir)))
  {
    var u :| IsWalk(zone, start, u, e.from) && Displacement(zone, start, u, e.from) == p;
    var w := u + [e];
    assert w[..|w| - 1] == u;
    assert IsWalk(zone, start, w, e.to) && Displacement(zone, start, w, e.to) == Plus(p, Off(e.dir));
  }

  /** Every exit of the room taken from the queue. */
  method ScanRoom(zone: Zone, ghost start: RoomId, s: Search, ghost scanned: seq<Edge>, ghost done: seq<RoomId>, current: RoomId)
    returns (s': Search, ghost scanned': seq<Edge>)
    requires SearchOk(zone, start, s, scanned) && Discovered(start, scanned) == done + [current] + s.queue
    ensures SearchOk(zone, start, s', scanned') && Discovered(start, scanned') == done + [current] + s'.queue
    ensures scanned' == scanned + KnownOf(current, zone.ExitsOf(current))
  {
    hide Records, Indexes, Claims, TreeOk, Discovered;
    s', scanned' := s, scanned;
    var exits := zone.ExitsOf(current);
    CurrentPlaced(zone, start, scanned, s, current);
    for i := 0 to |exits|
      invariant SearchOk(zone, start, s', scanned') && current in s'.positions
      invariant Discovered(start, scanned') == done + [current] + s'.queue
      invariant scanned' == scanned + KnownOf(current, exits[..i])
    {
      assert exits[..i + 1][..i] == exits[..i] && exits[..i + 1][i] == exits[i];
      if !Known(exits[i].dir) { continue; }
      s' := VisitExit(zone, start, s', scanned', current, exits[i]);
      scanned' := scanned' + [Edge(current, exits[i].dir, exits[i].target)];
    }
    TakeAll(exits);
  }

  lemma CurrentPlaced(zone: Zone, start: RoomId, scanned: seq<Edge>, s: Search, current: RoomId)
    requires TreeOk(zone, start, s, scanned) && current in Discovered(start, scanned)
    ensures current in s.positions
  {
    TreeParts(zone, start, s, scanned);
  }

  method ValidateZoneTopology(zone: Zone, start: RoomId)
    returns (report: Report, ghost order: seq<RoomId>, ghost positions: map<RoomId, Pos>, ghost firstVia: map<RoomId, RoomId>)
    ensures Explored(zone, start, positions)
    // The positions are those of the first visits in breadth-first order, of which there is one set only.
    ensures FirstVisits(zone, start, order, positions, firstVia)
    ensures report.valid <==> report.conflicts == [] && report.collisions == []
    ensures report.conflicts == [] <==> Consistent(zone, positions)
    ensures report.collisions == [] <==> Injective(positions)
    // Each conflict lists the room's position and all exits that disagree with it, as they are scanned.
    ensures forall c :: c in report.conflicts ==>
      ConflictOk(zone, positions, firstVia, c) && Others(c) == PathsTo(positions, ScanOf(zone, order), c.room)
    ensures forall e :: KnownEdge(zone, e) && Disagrees(positions, e) ==> Reported(positions, report.conflicts, e)
    ensures OnePerRoom(report.conflicts) && Descending(report.conflicts)
    ensures forall c :: c in report.collisions ==> CollisionOk(positions, c)
    ensures forall a, b :: a in positions && b in positions && a != b && positions[a] == positions[b] ==>
      exists c :: c in report.collisions && a in c.rooms && b in c.rooms
  {
    hide Records, Indexes, Claims, TreeOk, Explored, FirstVisits, ConflictOk, CollisionOk, Reported, Disagrees, Descending, BySeverity, Discovered,
      PathsTo, OnePerRoom, KnownEdge, Consistent, Injective, ScanOf, ScanOrder;
    InitialSearch(zone, start);
    var s := Search(map[start := ORIGIN], map[start := START], map[], [], map[ORIGIN := [start]], [ORIGIN], [start]);
    ghost var done: seq<RoomId> := [];
    ghost var scanned: seq<Edge> := [];

    while s.queue != []
      invariant SearchOk(zone, start, s, scanned) && scanned == ScanOf(zone, done)
      invariant Discovered(start, scanned) == done + s.queue && ScanOrder(zone, start, done)
      decreases |Universe(zone, start)| - |done|
    {
      var current := s.queue[0];
      ghost var before := done;
      Dequeue(zone, start, s, scanned);
      s := s.(queue := s.queue[1..]);
      assert before + [current] + s.queue == Discovered(start, scanned);
      ScanOrderStep(zone, start, done, current);
      s, scanned := ScanRoom(zone, start, s, scanned, done, current);
      done := done + [current];
      DoneBounded(zone, start, s, scanned, done);
    }

    order, positions, firstVia := done, s.positions, s.firstVia;
    assert done + s.queue == done;
    SearchEnds(zone, start, s, order);
    var collisions := CollectCollisions(s.positions, s.cellToRooms, s.keys);
    BySeveritySorts(s.conflicts);
    var sorted := BySeverity(s.conflicts);
    report := Report(sorted == [] && collisions == [], sorted, collisions);
    SortedReport(zone, start, s, scanned, sorted);
  }

  lemma Dequeue(zone: Zone, start: RoomId, s: Search, scanned: seq<Edge>)
    requires TreeOk(zone, start, s, scanned) && s.queue != []
    ensures TreeOk(zone, start, s.(queue := s.queue[1..]), scanned)
  {
  }

  /** Every room is scanned after its discovery. */
  ghost predicate ScanOrder(zone: Zone, start: RoomId, done: seq<RoomId>) {
    forall n :: 0 <= n < |done| ==> done[n] in Discovered(start, ScanOf(zone, done[..n]))
  }

  lemma ScanOrderStep(zone: Zone, start: RoomId, done: seq<RoomId>, current: RoomId)
    requires ScanOrder(zone, start, done) && current in Discovered(start, ScanOf(zone, done))
    ensures ScanOrder(zone, start, done + [current])
    ensures ScanOf(zone, done + [current]) == ScanOf(zone, done) + KnownOf(current, zone.ExitsOf(current))
  {
    hide Discovered;
    var after := done + [current];
    assert after[..|done|] == done;
    forall n | 0 <= n < |after| ensures after[n] in Discovered(start, ScanOf(zone, after[..n])) {
      if n < |done| { assert after[..n] == done[..n]; }
    }
  }

  /** The rooms scanned so far fit into the rooms there can be. */
  lemma DoneBounded(zone: Zone, start: RoomId, s: Search, scanned: seq<Edge>, done: seq<RoomId>)
    requires TreeOk(zone, start, s, scanned) && done <= Discovered(start, scanned)
    ensures |done| <= |Universe(zone, start)|
  {
    hide Universe, Discovered;
    var d := Discovered(start, scanned);
    forall id | id in done ensures id in Universe(zone, start) { assert id in d; }
    assert forall i, j :: 0 <= i < j < |done| ==> done[i] == d[i] && done[j] == d[j];
    Diamond.Pigeonhole(done, Universe(zone, start));
  }

  lemma SearchEnds(zone: Zone, start: RoomId, s: Search, order: seq<RoomId>)
    requires TreeOk(zone, start, s, ScanOf(zone, order)) && Discovered(start, ScanOf(zone, order)) == order && ScanOrder(zone, start, order)
    ensures Explored(zone, start, s.positions) && FirstVisits(zone, start, order, s.positions, s.firstVia)
    ensures forall e :: KnownEdge(zone, e) && e.from in s.positions ==> e in ScanOf(zone, order)
  {
    hide Reaches, Universe, KnownEdge;
    ScanOfMembers(zone, order);
  }

  lemma InitialSearch(zone: Zone, start: RoomId)
    ensures SearchOk(zone, start,
                     Search(map[start := ORIGIN], map[start := START], map[], [], map[ORIGIN := [start]], [ORIGIN], [start]), [])
    ensures ScanOf(zone, []) == [] && Discovered(start, []) == [start] && ScanOrder(zone, start, [])
  {
    assert IsWalk(zone, start, [], start) && Displacement(zone, start, [], start) == ORIGIN;
    assert Reaches(zone, start, start, ORIGIN);
  }

  /** No room has two conflicts. */
  ghost predicate OnePerRoom(conflicts: seq<Conflict>) {
    forall i, j :: 0 <= i < j < |conflicts| ==> conflicts[i].room != conflicts[j].room
  }

  lemma OnePerRoomStill(conflictMap: map<RoomId, nat>, s: seq<Conflict>, t: seq<Conflict>)
    requires Indexes(conflictMap, s) && multiset(t) == multiset(s)
    ensures OnePerRoom(t)
  {
    forall i, j | 0 <= i < j < |t| ensures t[i].room != t[j].room {
      assert t[i] in multiset(s) && t[j] in multiset(s);
      var a :| 0 <= a < |s| && s[a] == t[i];
      var b :| 0 <= b < |s| && s[b] == t[j];
      if a == b {
        TwiceIn(t, i, j);
        OnceIn(conflictMap, s, a);
      }
    }
  }

  lemma TwiceIn(t: seq<Conflict>, i: nat, j: nat)
    requires i < j < |t| && t[i] == t[j]
    ensures multiset(t)[t[i]] >= 2
  {
    assert t == t[..j] + [t[j]] + t[j + 1..];
    assert t[i] in t[..j];
  }

  lemma OnceIn(conflictMap: map<RoomId, nat>, s: seq<Conflict>, a: nat)
    requires Indexes(conflictMap, s) && a < |s|
    ensures multiset(s)[s[a]] == 1
  {
    assert s == s[..a] + [s[a]] + s[a + 1..];
    forall k | 0 <= k < |s| && k != a ensures s[k] != s[a] {
      assert conflictMap[s[k].room] == k && conflictMap[s[a].room] == a;
    }
    assert s[a] !in s[..a] && s[a] !in s[a + 1..];
  }

  /** Sorting the conflicts loses none and adds none. */
  lemma SortedReport(zone: Zone, start: RoomId, s: Search, scanned: seq<Edge>, sorted: seq<Conflict>)
    requires SearchOk(zone, start, s, scanned) && multiset(sorted) == multiset(s.conflicts)
    requires forall e :: KnownEdge(zone, e) && e.from in s.positions ==> e in scanned
    ensures forall c :: c in sorted ==> ConflictOk(zone, s.positions, s.firstVia, c) && Others(c) == PathsTo(s.positions, scanned, c.room)
    ensures OnePerRoom(sorted)
    ensures forall e :: KnownEdge(zone, e) && Disagrees(s.positions, e) ==> Reported(s.positions, sorted, e)
    ensures sorted == [] <==> Consistent(zone, s.positions)
  {
    hide Claims, Universe, Reaches, KnownEdge, ConflictOk, Reported, TreeOk, Indexes, Disagrees, PathsTo, OnePerRoom;
    OnePerRoomStill(s.conflictMap, s.conflicts, sorted);
    assert forall c :: c in sorted <==> c in multiset(sorted);
    assert forall c :: c in s.conflicts <==> c in multiset(s.conflicts);
    forall c | c in sorted ensures ConflictOk(zone, s.positions, s.firstVia, c) && Others(c) == PathsTo(s.positions, scanned, c.room) {
      var i :| 0 <= i < |s.conflicts| && s.conflicts[i] == c;
    }
    forall e | KnownEdge(zone, e) && Disagrees(s.positions, e) ensures Reported(s.positions, sorted, e) {
      DisagreeingEnds(s.positions, e);
      ReportedIn(s.positions, s.conflicts, sorted, e);
    }
    if sorted != [] {
      assert sorted[0] in sorted;
      ConflictIsReal(zone, s.positions, s.firstVia, sorted[0]);
    } else {
      forall e | KnownEdge(zone, e) && e.from in s.positions ensures !Disagrees(s.positions, e) {
        NothingReported(s.positions, e);
      }
    }
  }

  lemma DisagreeingEnds(positions: map<RoomId, Pos>, e: Edge)
    requires Disagrees(positions, e)
    ensures e.from in positions && e.to in positions && Known(e.dir)
  {
  }

  lemma NothingReported(positions: map<RoomId, Pos>, e: Edge)
    ensures !Reported(positions, [], e)
  {
  }

  lemma ReportedIn(positions: map<RoomId, Pos>, s: seq<Conflict>, t: seq<Conflict>, e: Edge)
    requires Reported(positions, s, e)
    requires forall c :: c in s ==> c in t
    ensures Reported(positions, t, e)
  {
    var i :| 0 <= i < |s| && s[i].room == e.to && Path(e.from, Implied(positions, e)) in s[i].paths;
    assert s[i] in t;
    var j :| 0 <= j < |t| && t[j] == s[i];
  }

  lemma ConflictIsReal(zone: Zone, positions: map<RoomId, Pos>, firstVia: map<RoomId, RoomId>, c: Conflict)
    requires ConflictOk(zone, positions, firstVia, c)
    ensures !Consistent(zone, positions)
  {
    assert PathOk(zone, positions, c.room, c.paths[1]);
  }

  // ---- What delta measures ----

  /** Delta is measured from the room's own cell only, so two paths can be further apart than it,
      but never more than twice as far. */
  lemma DeltaBoundsPairs(zone: Zone, positions: map<RoomId, Pos>, firstVia: map<RoomId, RoomId>, c: Conflict, j: nat, k: nat)
    requires ConflictOk(zone, positions, firstVia, c) && j < |c.paths| && k < |c.paths|
    ensures Diamond.Dist(c.paths[j].ideal, c.paths[k].ideal) <= 2 * c.delta
  {
    hide PathOk;
    assert j > 0 ==> Diamond.Dist(c.paths[0].ideal, c.paths[j].ideal) <= c.delta;
    assert k > 0 ==> Diamond.Dist(c.paths[0].ideal, c.paths[k].ideal) <= c.delta;
  }

  /** No two paths of the conflict are further apart than delta. */
  ghost predicate MostDivergent(c: Conflict) {
    forall j, k :: 0 <= j < |c.paths| && 0 <= k < |c.paths| ==> Diamond.Dist(c.paths[j].ideal, c.paths[k].ideal) <= c.delta
  }

  /** A cell along one of the two diagonals: x + y, or x - y. */
  function Along(rising: bool, c: Cell): int {
    if rising then c.x + c.y else c.x - c.y
  }

  function Highest(rising: bool, paths: seq<Path>): int
    requires paths != []
  {
    var last := Along(rising, paths[|paths| - 1].ideal);
    if |paths| == 1 then last else var front := Highest(rising, paths[..|paths| - 1]); if last > front then last else front
  }

  function Lowest(rising: bool, paths: seq<Path>): int
    requires paths != []
  {
    var last := Along(rising, paths[|paths| - 1].ideal);
    if |paths| == 1 then last else var front := Lowest(rising, paths[..|paths| - 1]); if last < front then last else front
  }

  lemma {:induction false} SpreadBounds(rising: bool, paths: seq<Path>)
    requires paths != []
    ensures forall k :: 0 <= k < |paths| ==> Lowest(rising, paths) <= Along(rising, paths[k].ideal) <= Highest(rising, paths)
    ensures exists k :: 0 <= k < |paths| && Along(rising, paths[k].ideal) == Lowest(rising, paths)
    ensures exists k :: 0 <= k < |paths| && Along(rising, paths[k].ideal) == Highest(rising, paths)
  {
    var n := |paths| - 1;
    if n > 0 {
      var front := paths[..n];
      SpreadBounds(rising, front);
      var lo :| 0 <= lo < n && Along(rising, front[lo].ideal) == Lowest(rising, front);
      var hi :| 0 <= hi < n && Along(rising, front[hi].ideal) == Highest(rising, front);
      assert paths[lo] == front[lo] && paths[hi] == front[hi];
      assert forall k :: 0 <= k < n ==> paths[k] == front[k];
      assert Along(rising, paths[n].ideal) == Lowest(rising, paths) || Lowest(rising, paths) == Lowest(rising, front);
      assert Along(rising, paths[n].ideal) == Highest(rising, paths) || Highest(rising, paths) == Highest(rising, front);
    }
  }

  /** How far the paths lie apart along a diagonal. */
  function Spread(rising: bool, c: Conflict): int
    requires c.paths != []
  {
    Highest(rising, c.paths) - Lowest(rising, c.paths)
  }

  /** The room's own cell lies at an end of that spread. */
  predicate AtAnEnd(rising: bool, c: Conflict)
    requires c.paths != []
  {
    Along(rising, c.paths[0].ideal) == Lowest(rising, c.paths) || Along(rising, c.paths[0].ideal) == Highest(rising, c.paths)
  }

  /** The distance of two cells is the larger of their distances along the diagonals. */
  lemma DistAlong(a: Cell, b: Cell)
    ensures Diamond.Dist(a, b) >= Abs(Along(true, b) - Along(true, a)) && Diamond.Dist(a, b) >= Abs(Along(false, b) - Along(false, a))
    ensures Diamond.Dist(a, b) == Abs(Along(true, b) - Along(true, a)) || Diamond.Dist(a, b) == Abs(Along(false, b) - Along(false, a))
  {
  }

  lemma EitherWay(rising: bool, a: Cell, b: Cell)
    ensures Diamond.Dist(a, b) >= Abs(Along(rising, b) - Along(rising, a))
    ensures Diamond.Dist(a, b) == Abs(Along(rising, b) - Along(rising, a)) || Diamond.Dist(a, b) == Abs(Along(!rising, b) - Along(!rising, a))
  {
    DistAlong(a, b);
    hide Diamond.Dist, Along;
  }

  /** Delta is the distance of the most divergent paths exactly when, along a diagonal on which the
      paths are spread the widest, the room's own cell lies at an end. */
  lemma DeltaIsLargestIff(zone: Zone, positions: map<RoomId, Pos>, firstVia: map<RoomId, RoomId>, c: Conflict)
    requires ConflictOk(zone, positions, firstVia, c)
    ensures MostDivergent(c) <==>
            || (Spread(true, c) >= Spread(false, c) && AtAnEnd(true, c))
            || (Spread(false, c) >= Spread(true, c) && AtAnEnd(false, c))
  {
    ConflictShape(zone, positions, firstVia, c);
    hide ConflictOk, MostDivergent, AtAnEnd, Spread;
    if MostDivergent(c) { DivergentFromEnd(zone, positions, firstVia, c); }
    if Spread(true, c) >= Spread(false, c) && AtAnEnd(true, c) { OwnReaches(zone, positions, firstVia, c, true); }
    if Spread(false, c) >= Spread(true, c) && AtAnEnd(false, c) { OwnReaches(zone, positions, firstVia, c, false); }
  }

  /** Delta is the distance of the farthest path from the room's own cell. */
  lemma DeltaReached(zone: Zone, positions: map<RoomId, Pos>, firstVia: map<RoomId, RoomId>, c: Conflict) returns (k: nat)
    requires ConflictOk(zone, positions, firstVia, c)
    ensures 1 <= k < |c.paths| && Diamond.Dist(c.paths[0].ideal, c.paths[k].ideal) == c.delta
    ensures forall j :: 0 <= j < |c.paths| ==> Diamond.Dist(c.paths[0].ideal, c.paths[j].ideal) <= c.delta
  {
    hide PathOk;
    k :| 1 <= k < |c.paths| && Diamond.Dist(c.paths[0].ideal, c.paths[k].ideal) == c.delta;
  }

  /** A path as far away as any two can be is at the other end of a widest spread. */
  lemma DivergentFromEnd(zone: Zone, positions: map<RoomId, Pos>, firstVia: map<RoomId, RoomId>, c: Conflict)
    requires ConflictOk(zone, positions, firstVia, c) && MostDivergent(c)
    ensures (Spread(true, c) >= Spread(false, c) && AtAnEnd(true, c)) || (Spread(false, c) >= Spread(true, c) && AtAnEnd(false, c))
  {
    var k := DeltaReached(zone, positions, firstVia, c);
    hide ConflictOk;
    SpreadWithin(true, c);
    SpreadWithin(false, c);
    hide Diamond.Dist, Spread, AtAnEnd, MostDivergent, Along;
    DistAlong(c.paths[0].ideal, c.paths[k].ideal);
    if c.delta == Abs(Along(true, c.paths[k].ideal) - Along(true, c.paths[0].ideal)) {
      FromEnd(true, c, k);
    } else {
      FromEnd(false, c, k);
    }
  }

  lemma FromEnd(rising: bool, c: Conflict, k: nat)
    requires k < |c.paths| && Abs(Along(rising, c.paths[k].ideal) - Along(rising, c.paths[0].ideal)) == c.delta >= Spread(rising, c)
    ensures Spread(rising, c) == c.delta && AtAnEnd(rising, c)
  {
    SpreadBounds(rising, c.paths);
    hide Highest, Lowest, Along;
  }

  /** Paths at both ends of a spread are that far apart. */
  lemma SpreadWithin(rising: bool, c: Conflict)
    requires c.paths != [] && MostDivergent(c)
    ensures Spread(rising, c) <= c.delta
  {
    SpreadBounds(rising, c.paths);
    var lo :| 0 <= lo < |c.paths| && Along(rising, c.paths[lo].ideal) == Lowest(rising, c.paths);
    var hi :| 0 <= hi < |c.paths| && Along(rising, c.paths[hi].ideal) == Highest(rising, c.paths);
    DistAlong(c.paths[lo].ideal, c.paths[hi].ideal);
  }

  lemma FarEnd(rising: bool, c: Conflict)
    requires c.paths != [] && AtAnEnd(rising, c) && forall j :: 0 <= j < |c.paths| ==> Diamond.Dist(c.paths[0].ideal, c.paths[j].ideal) <= c.delta
    ensures Spread(rising, c) <= c.delta
  {
    SpreadBounds(rising, c.paths);
    var lo :| 0 <= lo < |c.paths| && Along(rising, c.paths[lo].ideal) == Lowest(rising, c.paths);
    var hi :| 0 <= hi < |c.paths| && Along(rising, c.paths[hi].ideal) == Highest(rising, c.paths);
    hide Diamond.Dist, Highest, Lowest, Along;
    EitherWay(rising, c.paths[0].ideal, c.paths[lo].ideal);
    EitherWay(rising, c.paths[0].ideal, c.paths[hi].ideal);
  }

  lemma WithinSpread(rising: bool, c: Conflict, j: nat, k: nat)
    requires j < |c.paths| && k < |c.paths| && Spread(rising, c) >= Spread(!rising, c)
    ensures Diamond.Dist(c.paths[j].ideal, c.paths[k].ideal) <= Spread(rising, c)
  {
    SpreadBounds(rising, c.paths);
    SpreadBounds(!rising, c.paths);
    hide Diamond.Dist, Highest, Lowest, Along;
    EitherWay(rising, c.paths[j].ideal, c.paths[k].ideal);
  }

  /** From an end of the widest spread the path at the other end is as far away as any two can be. */
  lemma OwnReaches(zone: Zone, positions: map<RoomId, Pos>, firstVia: map<RoomId, RoomId>, c: Conflict, rising: bool)
    requires ConflictOk(zone, positions, firstVia, c) && Spread(rising, c) >= Spread(!rising, c) && AtAnEnd(rising, c)
    ensures MostDivergent(c)
  {
    var n := DeltaReached(zone, positions, firstVia, c);
    hide ConflictOk;
    FarEnd(rising, c);
    forall j, k | 0 <= j < |c.paths| && 0 <= k < |c.paths| ensures Diamond.Dist(c.paths[j].ideal, c.paths[k].ideal) <= c.delta {
      WithinSpread(rising, c, j, k);
    }
  }

  // ---- Two zones ----

  predicate Distinct(square: RoomId, inn: RoomId, mill: RoomId, dock: RoomId) {
    square != inn && square != mill && square != dock && inn != mill && inn != dock && mill != dock
  }

  /** The inn lies east of the square, but also north of the mill and south of the dock. */
  function Tangled(square: RoomId, inn: RoomId, mill: RoomId, dock: RoomId): Zone {
    Zone([square, inn, mill, dock], map[
      square := [Exit(East, inn), Exit(North, mill), Exit(South, dock)],
      inn := [], mill := [Exit(North, inn)], dock := [Exit(South, inn)]])
  }

  function TangledEdges(square: RoomId, inn: RoomId, mill: RoomId, dock: RoomId): seq<Edge> {
    [Edge(square, East, inn), Edge(square, North, mill), Edge(square, South, dock), Edge(mill, North, inn), Edge(dock, South, inn)]
  }

  function TangledAt(square: RoomId, inn: RoomId, mill: RoomId, dock: RoomId): map<RoomId, Pos> {
    map[square := ORIGIN, inn := Pos(1, 0, 0), mill := Pos(0, -1, 0), dock := Pos(0, 1, 0)]
  }

  function TangledVia(square: RoomId, inn: RoomId, mill: RoomId, dock: RoomId): map<RoomId, RoomId> {
    map[square := START, inn := square, mill := square, dock := square]
  }

  lemma KnownOfStep(id: RoomId, exits: seq<Exit>, x: Exit)
    requires Known(x.dir)
    ensures KnownOf(id, []) == [] && KnownOf(id, exits + [x]) == KnownOf(id, exits) + [Edge(id, x.dir, x.target)]
  {
    assert (exits + [x])[..|exits|] == exits;
  }

  lemma ScanStart(zone: Zone, start: RoomId)
    ensures ScanOf(zone, []) == [] && ScanOrder(zone, start, [])
  {
  }

  lemma {:induction false} DiscoveredUpTo(start: RoomId, scan: seq<Edge>, n: nat)
    requires n < |scan|
    ensures var front := Discovered(start, scan[..n]); Discovered(start, scan[..n + 1]) == if scan[n].to in front then front else front + [scan[n].to]
  {
    TakeStep(scan, n);
    DiscoveredStep(start, scan[..n], scan[n]);
    hide Discovered;
  }

  lemma {:induction false} FiveDiscover(a: RoomId, b: RoomId, c: RoomId, d: RoomId, scan: seq<Edge>)
    requires a != b && a != c && a != d && b != c && b != d && c != d && |scan| == 5
    requires scan[0].to == b && scan[1].to == c && scan[2].to == d && scan[3].to == b && scan[4].to == b
    ensures Discovered(a, []) == [a] && Discovered(a, scan[..3]) == [a, b, c, d] && Discovered(a, scan[..4]) == [a, b, c, d] && Discovered(a, scan) == [a, b, c, d]
  {
    DiscoveredStep(a, [], scan[0]);
    assert scan[..0] == [] && scan[..5] == scan;
    hide Discovered;
    assert [a] + [b] == [a, b] && [a, b] + [c] == [a, b, c] && [a, b, c] + [d] == [a, b, c, d];
    DiscoveredUpTo(a, scan, 0);
    DiscoveredUpTo(a, scan, 1);
    DiscoveredUpTo(a, scan, 2);
    DiscoveredUpTo(a, scan, 3);
    DiscoveredUpTo(a, scan, 4);
  }

  lemma {:induction false} TangledDiscovers(square: RoomId, inn: RoomId, mill: RoomId, dock: RoomId)
    requires Distinct(square, inn, mill, dock)
    ensures var scan := TangledEdges(square, inn, mill, dock);
            Discovered(square, []) == [square] && Discovered(square, scan[..3]) == [square, inn, mill, dock]
            && Discovered(square, scan[..4]) == [square, inn, mill, dock] && Discovered(square, scan) == [square, inn, mill, dock]
  {
    var scan := TangledEdges(square, inn, mill, dock);
    FiveDiscover(square, inn, mill, dock, scan);
  }

  lemma {:induction false} TangledExits(square: RoomId, inn: RoomId, mill: RoomId, dock: RoomId)
    requires Distinct(square, inn, mill, dock)
    ensures var zone := Tangled(square, inn, mill, dock);
            && zone.ExitsOf(square) == [Exit(East, inn), Exit(North, mill), Exit(South, dock)] && zone.ExitsOf(inn) == []
            && zone.ExitsOf(mill) == [Exit(North, inn)] && zone.ExitsOf(dock) == [Exit(South, inn)]
  {
  }

  lemma {:induction false} TangledKnown(square: RoomId, inn: RoomId, mill: RoomId, dock: RoomId)
    requires Distinct(square, inn, mill, dock)
    ensures var zone, scan := Tangled(square, inn, mill, dock), TangledEdges(square, inn, mill, dock);
            && KnownOf(square, zone.ExitsOf(square)) == scan[..3] && KnownOf(inn, zone.ExitsOf(inn)) == []
            && KnownOf(mill, zone.ExitsOf(mill)) == [scan[3]] && KnownOf(dock, zone.ExitsOf(dock)) == [scan[4]]
  {
    var zone, scan := Tangled(square, inn, mill, dock), TangledEdges(square, inn, mill, dock);
    TangledExits(square, inn, mill, dock);
    hide Tangled, Zone.ExitsOf;
    KnownThree(square, Exit(East, inn), Exit(North, mill), Exit(South, dock));
    KnownOne(mill, Exit(North, inn));
    KnownOne(dock, Exit(South, inn));
    KnownOfStep(inn, [], Exit(North, inn));
    hide KnownOf;
  }

  lemma KnownOne(id: RoomId, x: Exit)
    requires Known(x.dir)
    ensures KnownOf(id, [x]) == [Edge(id, x.dir, x.target)]
  {
    KnownOfStep(id, [], x);
    assert [] + [x] == [x];
  }

  lemma KnownThree(id: RoomId, x: Exit, y: Exit, w: Exit)
    requires Known(x.dir) && Known(y.dir) && Known(w.dir)
    ensures KnownOf(id, [x, y, w]) == [Edge(id, x.dir, x.target), Edge(id, y.dir, y.target), Edge(id, w.dir, w.target)]
  {
    KnownOne(id, x);
    KnownOfStep(id, [x], y);
    KnownOfStep(id, [x] + [y], w);
    hide KnownOf;
    assert [x, y, w] == [x] + [y] + [w];
  }

  /** Four rooms scanned one after the other. */
  lemma {:induction false} ScanFour(zone: Zone, start: RoomId, a: RoomId, b: RoomId, c: RoomId, d: RoomId)
    requires a in Discovered(start, []) && b in Discovered(start, KnownOf(a, zone.ExitsOf(a)))
    requires c in Discovered(start, KnownOf(a, zone.ExitsOf(a)) + KnownOf(b, zone.ExitsOf(b)))
    requires d in Discovered(start, KnownOf(a, zone.ExitsOf(a)) + KnownOf(b, zone.ExitsOf(b)) + KnownOf(c, zone.ExitsOf(c)))
    ensures ScanOrder(zone, start, [a, b, c, d])
    ensures ScanOf(zone, [a, b, c, d])
            == KnownOf(a, zone.ExitsOf(a)) + KnownOf(b, zone.ExitsOf(b)) + KnownOf(c, zone.ExitsOf(c)) + KnownOf(d, zone.ExitsOf(d))
  {
    ScanStart(zone, start);
    hide KnownOf, Discovered, ScanOf, ScanOrder;
    ScanOrderStep(zone, start, [], a);
    assert [] + [a] == [a] && [a] + [b] == [a, b] && [a, b] + [c] == [a, b, c] && [a, b, c] + [d] == [a, b, c, d];
    assert [] + KnownOf(a, zone.ExitsOf(a)) == KnownOf(a, zone.ExitsOf(a));
    ScanOrderStep(zone, start, [a], b);
    ScanOrderStep(zone, start, [a, b], c);
    ScanOrderStep(zone, start, [a, b, c], d);
  }

  /** The square is scanned first, then the inn, the mill and the dock. */
  lemma {:induction false} TangledScan(square: RoomId, inn: RoomId, mill: RoomId, dock: RoomId)
    requires Distinct(square, inn, mill, dock)
    ensures var zone, scan := Tangled(square, inn, mill, dock), TangledEdges(square, inn, mill, dock);
            && ScanOf(zone, [square, inn, mill, dock]) == scan && ScanOrder(zone, square, [square, inn, mill, dock])
            && Discovered(square, scan) == [square, inn, mill, dock]
  {
    var zone, scan := Tangled(square, inn, mill, dock), TangledEdges(square, inn, mill, dock);
    TangledDiscovers(square, inn, mill, dock);
    TangledKnown(square, inn, mill, dock);
    hide KnownOf, Discovered, ScanOf, ScanOrder, Tangled, Zone.ExitsOf, Distinct;
    assert scan[..3] + [] == scan[..3] && scan[..3] + [scan[3]] == scan[..4] && scan[..4] + [scan[4]] == scan;
    ScanFour(zone, square, square, inn, mill, dock);
  }

  lemma {:induction false} TangledPlaces(square: RoomId, inn: RoomId, mill: RoomId, dock: RoomId)
    requires Distinct(square, inn, mill, dock) && Discovered(square, TangledEdges(square, inn, mill, dock)) == [square, inn, mill, dock]
    ensures Visits(square, TangledEdges(square, inn, mill, dock), TangledAt(square, inn, mill, dock), TangledVia(square, inn, mill, dock))
  {
    hide Discovered, IsFirst, Visits;
    var scan, at, via := TangledEdges(square, inn, mill, dock), TangledAt(square, inn, mill, dock), TangledVia(square, inn, mill, dock);
    TangledMaps(square, inn, mill, dock);
    TangledSteps(square, inn, mill, dock);
    hide TangledAt, TangledVia, TangledEdges, Distinct;
    assert forall id :: id in [square, inn, mill, dock] <==> id in at;
    forall i | 0 <= i < |scan| && IsFirst(square, scan, i)
      ensures scan[i].from in at && scan[i].to in at && Known(scan[i].dir)
      ensures at[scan[i].to] == Plus(at[scan[i].from], Off(scan[i].dir)) && via[scan[i].to] == scan[i].from
    {
      LaterExits(square, scan, i);
      assert i == 0 || i == 1 || i == 2;
    }
    MakeVisits(square, scan, at, via);
  }

  lemma MakeVisits(start: RoomId, scan: seq<Edge>, positions: map<RoomId, Pos>, firstVia: map<RoomId, RoomId>)
    requires (forall id :: id in Discovered(start, scan) <==> id in positions) && firstVia.Keys == positions.Keys
    requires start in positions && positions[start] == ORIGIN && firstVia[start] == START
    requires forall i :: 0 <= i < |scan| && IsFirst(start, scan, i) ==> Visited(scan[i], positions, firstVia)
    ensures Visits(start, scan, positions, firstVia)
  {
  }

  /** The first three exits lead one step from the square. */
  lemma {:induction false} TangledSteps(square: RoomId, inn: RoomId, mill: RoomId, dock: RoomId)
    ensures var scan := TangledEdges(square, inn, mill, dock);
            && |scan| == 5 && scan[0].to == scan[3].to == scan[4].to == inn && scan[1].to == mill && scan[2].to == dock
            && scan[0].from == scan[1].from == scan[2].from == square && scan[3].from == mill && scan[4].from == dock
            && (forall i :: 0 <= i < 5 ==> Known(scan[i].dir))
            && Off(scan[0].dir) == Offset(1, 0, 0) && Off(scan[1].dir) == Offset(0, -1, 0) && Off(scan[2].dir) == Offset(0, 1, 0)
            && Off(scan[3].dir) == Offset(0, -1, 0) && Off(scan[4].dir) == Offset(0, 1, 0)
  {
  }

  lemma {:induction false} TangledMaps(square: RoomId, inn: RoomId, mill: RoomId, dock: RoomId)
    requires Distinct(square, inn, mill, dock)
    ensures var at := TangledAt(square, inn, mill, dock);
            && (forall id :: id in at <==> id == square || id == inn || id == mill || id == dock)
            && at[square] == ORIGIN && at[inn] == Pos(1, 0, 0) && at[mill] == Pos(0, -1, 0) && at[dock] == Pos(0, 1, 0)
    ensures var via := TangledVia(square, inn, mill, dock);
            && (forall id :: id in via <==> id == square || id == inn || id == mill || id == dock)
            && via[square] == START && via[inn] == via[mill] == via[dock] == square
  {
  }

  /** The last two exits lead where the first one does. */
  lemma LaterExits(start: RoomId, scan: seq<Edge>, i: int)
    requires IsFirst(start, scan, i) && |scan| == 5 && scan[0].to == scan[3].to == scan[4].to
    ensures 0 <= i < 3
  {
  }

  /** What the search finds there, and nothing else. */
  lemma {:induction false} TangledVisits(square: RoomId, inn: RoomId, mill: RoomId, dock: RoomId, order: seq<RoomId>, positions: map<RoomId, Pos>, firstVia: map<RoomId, RoomId>)
    requires Distinct(square, inn, mill, dock) && FirstVisits(Tangled(square, inn, mill, dock), square, order, positions, firstVia)
    ensures ScanOf(Tangled(square, inn, mill, dock), order) == TangledEdges(square, inn, mill, dock)
    ensures positions == TangledAt(square, inn, mill, dock) && firstVia == TangledVia(square, inn, mill, dock)
  {
    TangledScan(square, inn, mill, dock);
    TangledPlaces(square, inn, mill, dock);
    hide ScanOf, Discovered, ScanOrder, Visits, Tangled, TangledEdges, TangledAt, TangledVia;
    FirstVisitsUnique(Tangled(square, inn, mill, dock), square, order, [square, inn, mill, dock], positions, TangledAt(square, inn, mill, dock),
                      firstVia, TangledVia(square, inn, mill, dock));
  }

  function TangledConflict(square: RoomId, inn: RoomId, mill: RoomId, dock: RoomId): Conflict {
    Conflict(inn, [Path(square, Cell(1, 0)), Path(mill, Cell(0, -2)), Path(dock, Cell(0, 2))], 3)
  }

  /** The validator reports one conflict there, and two of its paths are four steps apart while its
      delta is three. */
  method ValidateTangled(square: RoomId, inn: RoomId, mill: RoomId, dock: RoomId) returns (report: Report)
    requires Distinct(square, inn, mill, dock)
    ensures report.conflicts == [TangledConflict(square, inn, mill, dock)] && !MostDivergent(report.conflicts[0])
  {
    hide ScanOf, Discovered, ScanOrder, Visits, FirstVisits, ConflictOk, OnePerRoom, Consistent, PathsTo, TangledEdges;
    ghost var order, positions, firstVia;
    report, order, positions, firstVia := ValidateZoneTopology(Tangled(square, inn, mill, dock), square);
    TangledVisits(square, inn, mill, dock, order, positions, firstVia);
    TangledReport(square, inn, mill, dock, report.conflicts);
    assert Diamond.Dist(report.conflicts[0].paths[1].ideal, report.conflicts[0].paths[2].ideal) == 4;
  }

  /** Whatever the validator's contract allows there is that conflict. */
  lemma {:induction false} TangledReport(square: RoomId, inn: RoomId, mill: RoomId, dock: RoomId, conflicts: seq<Conflict>)
    requires Distinct(square, inn, mill, dock)
    requires var zone, positions := Tangled(square, inn, mill, dock), TangledAt(square, inn, mill, dock);
             && OnePerRoom(conflicts) && (conflicts == [] <==> Consistent(zone, positions))
             && forall c :: c in conflicts ==> ConflictOk(zone, positions, TangledVia(square, inn, mill, dock), c)
                                               && Others(c) == PathsTo(positions, TangledEdges(square, inn, mill, dock), c.room)
    ensures conflicts == [TangledConflict(square, inn, mill, dock)]
  {
    forall c | c in conflicts ensures c == TangledConflict(square, inn, mill, dock) { TangledOnly(square, inn, mill, dock, c); }
    TangledDisagrees(square, inn, mill, dock);
    hide Consistent, ConflictOk, PathsTo, Tangled, TangledEdges, Others;
    assert forall i :: 0 <= i < |conflicts| ==> conflicts[i] in conflicts;
    AtMostOne(conflicts, inn);
  }

  lemma AtMostOne(conflicts: seq<Conflict>, room: RoomId)
    requires OnePerRoom(conflicts) && forall i :: 0 <= i < |conflicts| ==> conflicts[i].room == room
    ensures |conflicts| <= 1
  {
    if |conflicts| > 1 { TwoRooms(conflicts); }
  }

  lemma TwoRooms(conflicts: seq<Conflict>)
    requires OnePerRoom(conflicts) && |conflicts| > 1
    ensures conflicts[0].room != conflicts[1].room
  {
  }

  lemma {:induction false} TangledOnly(square: RoomId, inn: RoomId, mill: RoomId, dock: RoomId, c: Conflict)
    requires Distinct(square, inn, mill, dock)
    requires var positions := TangledAt(square, inn, mill, dock);
             && ConflictOk(Tangled(square, inn, mill, dock), positions, TangledVia(square, inn, mill, dock), c)
             && Others(c) == PathsTo(positions, TangledEdges(square, inn, mill, dock), c.room)
    ensures c == TangledConflict(square, inn, mill, dock)
  {
    TangledPaths(square, inn, mill, dock, c.room);
    TangledMaps(square, inn, mill, dock);
    ConflictParts(Tangled(square, inn, mill, dock), TangledAt(square, inn, mill, dock), TangledVia(square, inn, mill, dock), c);
    hide PathsTo, TangledEdges, ConflictOk, Tangled, TangledAt, TangledVia, Diamond.Dist, Distinct;
    TangledDelta(c);
  }

  lemma TangledDelta(c: Conflict)
    requires |c.paths| == 3 && c.paths[0].ideal == Cell(1, 0) && c.paths[1].ideal == Cell(0, -2) && c.paths[2].ideal == Cell(0, 2)
    requires forall k :: 1 <= k < |c.paths| ==> Diamond.Dist(c.paths[0].ideal, c.paths[k].ideal) <= c.delta
    requires exists k :: 1 <= k < |c.paths| && Diamond.Dist(c.paths[0].ideal, c.paths[k].ideal) == c.delta
    ensures c.delta == 3
  {
  }

  lemma {:induction false} TangledDisagrees(square: RoomId, inn: RoomId, mill: RoomId, dock: RoomId)
    requires Distinct(square, inn, mill, dock)
    ensures !Consistent(Tangled(square, inn, mill, dock), TangledAt(square, inn, mill, dock))
  {
    var zone, e := Tangled(square, inn, mill, dock), Edge(mill, North, inn);
    assert zone.ExitsOf(mill)[0] == Exit(North, inn);
    assert KnownEdge(zone, e) && Disagrees(TangledAt(square, inn, mill, dock), e);
  }

  lemma PathsToStep(positions: map<RoomId, Pos>, scan: seq<Edge>, e: Edge, room: RoomId)
    ensures PathsTo(positions, [], room) == []
    ensures PathsTo(positions, scan + [e], room) == if e.to == room && Disagrees(positions, e) then
              PathsTo(positions, scan, room) + [Path(e.from, Implied(positions, e))] else PathsTo(positions, scan, room)
  {
    assert (scan + [e])[..|scan|] == scan;
  }

  lemma {:induction false} TangledPaths(square: RoomId, inn: RoomId, mill: RoomId, dock: RoomId, room: RoomId)
    requires Distinct(square, inn, mill, dock)
    ensures PathsTo(TangledAt(square, inn, mill, dock), TangledEdges(square, inn, mill, dock), room)
            == if room == inn then [Path(mill, Cell(0, -2)), Path(dock, Cell(0, 2))] else []
  {
    var at, scan := TangledAt(square, inn, mill, dock), TangledEdges(square, inn, mill, dock);
    var one := [] + [scan[0]];
    var two := one + [scan[1]];
    var three := two + [scan[2]];
    var four := three + [scan[3]];
    TangledDisagreeing(square, inn, mill, dock);
    TangledSteps(square, inn, mill, dock);
    hide Disagrees, PathsTo, TangledAt, TangledEdges;
    PathsToStep(at, [], scan[0], room);
    PathsToStep(at, one, scan[1], room);
    PathsToStep(at, two, scan[2], room);
    PathsToStep(at, three, scan[3], room);
    PathsToStep(at, four, scan[4], room);
    assert scan == four + [scan[4]];
  }

  lemma {:induction false} TangledDisagreeing(square: RoomId, inn: RoomId, mill: RoomId, dock: RoomId)
    requires Distinct(square, inn, mill, dock)
    ensures var at, scan := TangledAt(square, inn, mill, dock), TangledEdges(square, inn, mill, dock);
            && !Disagrees(at, scan[0]) && !Disagrees(at, scan[1]) && !Disagrees(at, scan[2]) && Disagrees(at, scan[3]) && Disagrees(at, scan[4])
            && Implied(at, scan[3]) == Cell(0, -2) && Implied(at, scan[4]) == Cell(0, 2)
  {
    var at, scan := TangledAt(square, inn, mill, dock), TangledEdges(square, inn, mill, dock);
    TangledMaps(square, inn, mill, dock);
    TangledSteps(square, inn, mill, dock);
    hide TangledAt, TangledVia, TangledEdges;
  }
}
