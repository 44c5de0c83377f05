/** Detection of rectangular grid clusters before placement. */
module Grid {
  import opened Sums
  import opened Zones

  const MIN_GRID_CLUSTER_SIZE := 9

  const PERPENDICULAR_PAIRS: seq<(Dir, Dir)> := [(North, East), (North, West), (South, East), (South, West)]

  datatype ClusterInfo = ClusterInfo(clusterId: nat, dx: int, dy: int)

  /** A JavaScript Map from room to cluster: `order` is its iteration order. */
  datatype Clusters = Clusters(order: seq<RoomId>, info: map<RoomId, ClusterInfo>) {
    ghost predicate Valid() {
      NoDup(order) && forall id :: id in order <==> id in info
    }

    function Put(id: RoomId, i: ClusterInfo): Clusters {
      Clusters(if id in info then order else order + [id], info[id := i])
    }
  }

  /** The target of a room's exit in a direction; an empty id counts as no exit. */
  function ExitTo(zone: Zone, id: RoomId, d: Dir): Option<RoomId> {
    Lookup(zone.ExitsOf(id), d)
  }

  function Lookup(exits: seq<Exit>, d: Dir): Option<RoomId> {
    if exits == [] then None
    else if exits[0].dir == d then (if exits[0].target.name == "" then None else Some(exits[0].target))
    else Lookup(exits[1..], d)
  }

  /** Walking the two directions in either order reaches the same room. */
  predicate Converges(zone: Zone, id: RoomId, d1: Dir, d2: Dir) {
    var n1, n2 := ExitTo(zone, id, d1), ExitTo(zone, id, d2);
    && n1.Some? && n2.Some? && n1.value in zone.exits && n2.value in zone.exits
    && ExitTo(zone, n1.value, d2).Some?
    && ExitTo(zone, n1.value, d2) == ExitTo(zone, n2.value, d1)
  }

  predicate HasGridProperty(zone: Zone, id: RoomId) {
    id in zone.exits && exists i :: 0 <= i < |PERPENDICULAR_PAIRS| && Converges(zone, id, PERPENDICULAR_PAIRS[i].0, PERPENDICULAR_PAIRS[i].1)
  }

  // ---- Flood fill ----

  datatype Member = Member(id: RoomId, dx: int, dy: int)

  /** The members found so far, their index by relative cell, and the queue. */
  datatype Fill = Fill(members: seq<Member>, ids: set<RoomId>, posToRoom: map<Cell, RoomId>)

  /** Members are distinct rooms of `grid` at distinct relative cells. */
  ghost predicate FillOk(grid: set<RoomId>, f: Fill) {
    && (forall i, j :: 0 <= i < j < |f.members| ==> f.members[i].id != f.members[j].id)
    && (forall id :: id in f.ids <==> exists i :: 0 <= i < |f.members| && f.members[i].id == id)
    && f.ids <= grid
    && (forall i, j :: 0 <= i < j < |f.members| ==>
          Cell(f.members[i].dx, f.members[i].dy) != Cell(f.members[j].dx, f.members[j].dy))
    && (forall i :: 0 <= i < |f.members| ==> Cell(f.members[i].dx, f.members[i].dy) in f.posToRoom)
  }

  /** A position map that satisfies every exit of the zone by exactly one step. */
  ghost predicate Steps(zone: Zone, v: map<RoomId, Pos>) {
    forall id, e :: id in zone.exits && e in zone.exits[id] && Known(e.dir) ==>
      id in v && e.target in v && v[e.target] == Plus(v[id], Off(e.dir))
  }

  /** Relative cells agree with such a map. */
  ghost predicate Follows(v: map<RoomId, Pos>, seed: RoomId, members: seq<Member>) {
    seed in v && forall m :: m in members ==> m.id in v && v[m.id] == Pos(v[seed].x + m.dx, v[seed].y + m.dy, v[seed].z)
  }

  /** The member an exit of another one leads to. */
  ghost predicate Leads(zone: Zone, m: Member, e: Exit, m': Member) {
    e in zone.ExitsOf(m.id) && Cardinal(e.dir) && m' == Member(e.target, m.dx + Off(e.dir).dx, m.dy + Off(e.dir).dy)
  }

  /** The exit adds nothing: its target is no grid room, or a member, or its relative cell is taken. */
  ghost predicate Spent(grid: set<RoomId>, f: Fill, m: Member, e: Exit) {
    Cardinal(e.dir) && e.target in grid ==> e.target in f.ids || Cell(m.dx + Off(e.dir).dx, m.dy + Off(e.dir).dy) in f.posToRoom
  }

  ghost predicate AllSpent(zone: Zone, grid: set<RoomId>, f: Fill, m: Member) {
    forall e :: e in zone.ExitsOf(m.id) ==> Spent(grid, f, m, e)
  }

  /** From the seed on, every member was led to by an earlier one, and only members take cells. */
  ghost predicate Rooted(zone: Zone, seed: RoomId, f: Fill) {
    && f.members != [] && f.members[0] == Member(seed, 0, 0)
    && (forall i :: 0 < i < |f.members| ==> LedTo(zone, f.members[..i], f.members[i]))
    && (forall c :: c in f.posToRoom ==> exists m :: m in f.members && Cell(m.dx, m.dy) == c)
  }

  ghost predicate LedTo(zone: Zone, before: seq<Member>, m: Member) {
    exists p, e :: p in before && Leads(zone, p, e, m)
  }

  /** What the flood fill from a seed finds: grid rooms at distinct relative cells, each led to by an
      earlier one, and none of them leads further to a new room on a free cell. */
  ghost predicate Grown(zone: Zone, grid: set<RoomId>, seed: RoomId, f: Fill) {
    FillOk(grid, f) && Rooted(zone, seed, f) && forall m :: m in f.members ==> AllSpent(zone, grid, f, m)
  }

  /** Take up the unvisited grid rooms one room leads to. */
  method Expand(zone: Zone, grid: set<RoomId>, f: Fill, m: Member, ghost seed: RoomId, ghost v: map<RoomId, Pos>)
    returns (f': Fill)
    requires FillOk(grid, f) && m in f.members && m.id in zone.exits
    ensures FillOk(grid, f') && f.ids <= f'.ids && f.members <= f'.members
    ensures f'.ids == f.ids ==> f'.members == f.members
    ensures f.posToRoom.Keys <= f'.posToRoom.Keys && AllSpent(zone, grid, f', m)
    ensures Rooted(zone, seed, f) ==> Rooted(zone, seed, f')
    ensures Steps(zone, v) && Follows(v, seed, f.members) ==> Follows(v, seed, f'.members)
  {
    hide FillOk, Steps, Follows, Rooted, Spent;
    f' := f;
    var exits := zone.ExitsOf(m.id);
    for i := 0 to |exits|
      invariant FillOk(grid, f') && f.ids <= f'.ids && f.members <= f'.members
      invariant f'.ids == f.ids ==> f'.members == f.members
      invariant f.posToRoom.Keys <= f'.posToRoom.Keys && forall k :: 0 <= k < i ==> Spent(grid, f', m, exits[k])
      invariant Rooted(zone, seed, f) ==> Rooted(zone, seed, f')
      invariant Steps(zone, v) && Follows(v, seed, f.members) ==> Follows(v, seed, f'.members)
    {
      var dir, target := exits[i].dir, exits[i].target;
      ghost var before := f';
      SpentIff(grid, f', m, exits[i]);
      if target !in grid { continue; }
      if target in f'.ids { continue; }
      if !Cardinal(dir) { continue; }
      var tdx, tdy := m.dx + Off(dir).dx, m.dy + Off(dir).dy;
      if Cell(tdx, tdy) in f'.posToRoom { continue; }
      if Steps(zone, v) && Follows(v, seed, f.members) { FollowsStep(zone, v, seed, f'.members, m, exits[i]); }
      f' := Extend(grid, f', Member(target, tdx, tdy));
      if Rooted(zone, seed, f) { RootedStep(zone, seed, before, f', m, exits[i]); }
      SpentLater(grid, before, f', m, exits, i);
    }
  }

  lemma SpentIff(grid: set<RoomId>, f: Fill, m: Member, e: Exit)
    ensures Spent(grid, f, m, e) <==>
            !Cardinal(e.dir) || e.target !in grid || e.target in f.ids || Cell(m.dx + Off(e.dir).dx, m.dy + Off(e.dir).dy) in f.posToRoom
  {
  }

  /** What is spent stays spent, and the exit just taken is. */
  lemma SpentLater(grid: set<RoomId>, f: Fill, f': Fill, m: Member, exits: seq<Exit>, i: nat)
    requires i < |exits| && f.ids <= f'.ids && f.posToRoom.Keys <= f'.posToRoom.Keys && exits[i].target in f'.ids
    requires forall k :: 0 <= k < i ==> Spent(grid, f, m, exits[k])
    ensures forall k :: 0 <= k < i + 1 ==> Spent(grid, f', m, exits[k])
  {
  }

  lemma AllSpentLater(zone: Zone, grid: set<RoomId>, f: Fill, f': Fill, m: Member)
    requires f.ids <= f'.ids && f.posToRoom.Keys <= f'.posToRoom.Keys && AllSpent(zone, grid, f, m)
    ensures AllSpent(zone, grid, f', m)
  {
  }

  lemma LedToStep(zone: Zone, members: seq<Member>, m': Member, m: Member, e: Exit)
    requires (forall i :: 0 < i < |members| ==> LedTo(zone, members[..i], members[i])) && m in members && Leads(zone, m, e, m')
    ensures var after := members + [m']; forall i :: 0 < i < |after| ==> LedTo(zone, after[..i], after[i])
  {
    hide Leads;
    var after, n := members + [m'], |members|;
    forall i | 0 < i < n + 1 ensures LedTo(zone, after[..i], after[i]) {
      if i < n { assert after[..i] == members[..i] && after[i] == members[i]; } else { assert after[..n] == members && after[n] == m'; }
    }
  }

  lemma TakenStep(f: Fill, f': Fill, m': Member)
    requires (forall c :: c in f.posToRoom ==> exists m :: m in f.members && Cell(m.dx, m.dy) == c) && f'.members == f.members + [m']
    requires f'.posToRoom == f.posToRoom[Cell(m'.dx, m'.dy) := m'.id]
    ensures forall c :: c in f'.posToRoom ==> exists m :: m in f'.members && Cell(m.dx, m.dy) == c
  {
    assert f'.members[|f.members|] == m';
    forall c | c in f'.posToRoom ensures exists m :: m in f'.members && Cell(m.dx, m.dy) == c {
      if c in f.posToRoom && c != Cell(m'.dx, m'.dy) {
        var m :| m in f.members && Cell(m.dx, m.dy) == c;
        assert m in f'.members;
      } else {
        assert m' in f'.members;
      }
    }
  }

  lemma RootedStep(zone: Zone, seed: RoomId, f: Fill, f': Fill, m: Member, e: Exit)
    requires Rooted(zone, seed, f) && m in f.members && e in zone.ExitsOf(m.id) && Cardinal(e.dir)
    requires var m' := Member(e.target, m.dx + Off(e.dir).dx, m.dy + Off(e.dir).dy);
             f'.members == f.members + [m'] && f'.posToRoom == f.posToRoom[Cell(m'.dx, m'.dy) := m'.id]
    ensures Rooted(zone, seed, f')
  {
    var m' := Member(e.target, m.dx + Off(e.dir).dx, m.dy + Off(e.dir).dy);
    assert f'.members[0] == f.members[0];
    LedToStep(zone, f.members, m', m, e);
    TakenStep(f, f', m');
  }

  lemma FollowsStep(zone: Zone, v: map<RoomId, Pos>, seed: RoomId, members: seq<Member>, m: Member, e: Exit)
    requires Steps(zone, v) && Follows(v, seed, members) && m in members
    requires m.id in zone.exits && e in zone.exits[m.id] && Cardinal(e.dir)
    ensures Follows(v, seed, members + [Member(e.target, m.dx + Off(e.dir).dx, m.dy + Off(e.dir).dy)])
  {
    assert v[e.target] == Plus(v[m.id], Off(e.dir));
  }

  method FloodFill(zone: Zone, grid: set<RoomId>, seed: RoomId, ghost v: map<RoomId, Pos>) returns (f: Fill)
    requires seed in grid && forall id :: id in grid ==> id in zone.exits
    ensures Grown(zone, grid, seed, f) && seed in f.ids
    ensures Steps(zone, v) && seed in v ==> Follows(v, seed, f.members)
  {
    f := Fill([Member(seed, 0, 0)], {seed}, map[Cell(0, 0) := seed]);
    assert f.members[0].id == seed && f.members[0] in f.members;
    var head := 0;  // the queue is the part of members from head on
    while head < |f.members|
      invariant 0 <= head <= |f.members|
      invariant FillOk(grid, f) && seed in f.ids && Rooted(zone, seed, f)
      invariant forall k :: 0 <= k < head ==> AllSpent(zone, grid, f, f.members[k])
      invariant Steps(zone, v) && seed in v ==> Follows(v, seed, f.members)
      decreases |grid| - |f.ids|, |f.members| - head
    {
      hide Steps, Follows, Rooted, AllSpent;
      var m := f.members[head];
      assert m.id in f.ids;
      var f' := Expand(zone, grid, f, m, seed, v);
      SubsetSize(f.ids, f'.ids);
      SubsetSize(f'.ids, grid);
      forall k | 0 <= k < head + 1 ensures AllSpent(zone, grid, f', f'.members[k]) {
        assert f'.members[k] == f.members[k];
        if k < head { AllSpentLater(zone, grid, f, f', f.members[k]); }
      }
      head := head + 1;
      f := f';
    }
  }

  function Extend(ghost grid: set<RoomId>, f: Fill, m: Member): (f': Fill)
    requires FillOk(grid, f) && m.id in grid && m.id !in f.ids && Cell(m.dx, m.dy) !in f.posToRoom
    ensures FillOk(grid, f') && f'.ids == f.ids + {m.id} && f'.members == f.members + [m] && f'.posToRoom == f.posToRoom[Cell(m.dx, m.dy) := m.id]
  {
    var f' := Fill(f.members + [m], f.ids + {m.id}, f.posToRoom[Cell(m.dx, m.dy) := m.id]);
    assert forall id :: id in f'.ids ==> exists i :: 0 <= i < |f'.members| && f'.members[i].id == id by {
      forall id | id in f'.ids ensures exists i :: 0 <= i < |f'.members| && f'.members[i].id == id {
        if id in f.ids {
          var i :| 0 <= i < |f.members| && f.members[i].id == id;
          assert f'.members[i].id == id;
        } else {
          assert f'.members[|f.members|].id == id;
        }
      }
    }
    f'
  }

  lemma SubsetSize<T>(a: set<T>, b: set<T>)
    requires a <= b
    ensures |a| <= |b| && (a != b ==> |a| < |b|)
  {
    assert b == a + (b - a);
    assert |b| == |a| + |b - a|;
    if a != b {
      var x :| x in b - a;
      assert |b - a| > 0;
    }
  }

  // ---- All clusters ----

  /** Within one cluster no two rooms have the same relative cell. */
  ghost predicate InjectiveOffsets(c: Clusters) {
    forall a, b :: a in c.info && b in c.info && a != b && c.info[a].clusterId == c.info[b].clusterId ==>
      c.info[a].dx != c.info[b].dx || c.info[a].dy != c.info[b].dy
  }

  /** Within one cluster the relative cells are the differences of the positions. */
  ghost predicate FollowsAll(v: map<RoomId, Pos>, c: Clusters) {
    forall a, b :: a in c.info && b in c.info && c.info[a].clusterId == c.info[b].clusterId ==>
      && a in v && b in v
      && v[b] == Pos(v[a].x + c.info[b].dx - c.info[a].dx, v[a].y + c.info[b].dy - c.info[a].dy, v[a].z)
  }

  /** The i-th member is recorded with its relative cell. */
  ghost predicate Recorded(c: Clusters, clusterId: nat, m: Member) {
    m.id in c.info && c.info[m.id] == ClusterInfo(clusterId, m.dx, m.dy)
  }

  /** c' records the members of f over c. */
  ghost predicate Overwritten(c: Clusters, c': Clusters, clusterId: nat, f: Fill) {
    && (forall id :: id in c'.info <==> id in c.info || id in f.ids)
    && (forall m :: m in f.members ==> Recorded(c', clusterId, m))
    && (forall id :: id in c'.info && id !in f.ids ==> id in c.info && c'.info[id] == c.info[id])
  }

  /** The first i members have been written. */
  ghost predicate Writing(c: Clusters, c': Clusters, clusterId: nat, f: Fill, i: nat) {
    && c'.Valid() && i <= |f.members|
    && (forall id :: id in c.info ==> id in c'.info)
    && (forall j :: 0 <= j < i ==> Recorded(c', clusterId, f.members[j]))
    && (forall id :: id in c'.info ==> id in c.info || id in f.ids)
    && (forall id :: id in c'.info && id !in f.ids ==> c'.info[id] == c.info[id])
  }

  lemma WriteNext(c: Clusters, c': Clusters, clusterId: nat, grid: set<RoomId>, f: Fill, i: nat)
    requires FillOk(grid, f) && i < |f.members| && Writing(c, c', clusterId, f, i)
    ensures Writing(c, c'.Put(f.members[i].id, ClusterInfo(clusterId, f.members[i].dx, f.members[i].dy)), clusterId, f, i + 1)
  {
    assert f.members[i].id in f.ids;
    PutValid(c', f.members[i].id, ClusterInfo(clusterId, f.members[i].dx, f.members[i].dy));
    hide Clusters.Valid;
  }

  lemma PutValid(c: Clusters, id: RoomId, i: ClusterInfo)
    requires c.Valid()
    ensures c.Put(id, i).Valid()
  {
  }

  lemma WrittenAll(c: Clusters, c': Clusters, clusterId: nat, grid: set<RoomId>, f: Fill)
    requires FillOk(grid, f) && Writing(c, c', clusterId, f, |f.members|)
    ensures c'.Valid() && Overwritten(c, c', clusterId, f)
  {
    forall id | id in f.ids ensures id in c'.info {
      var i :| 0 <= i < |f.members| && f.members[i].id == id;
      assert Recorded(c', clusterId, f.members[i]);
    }
  }

  /** Write one cluster's members over whatever they were before. */
  method AddCluster(c: Clusters, clusterId: nat, ghost grid: set<RoomId>, f: Fill) returns (c': Clusters)
    requires c.Valid() && FillOk(grid, f)
    ensures c'.Valid() && Overwritten(c, c', clusterId, f)
  {
    c' := c;
    for i := 0 to |f.members|
      invariant Writing(c, c', clusterId, f, i)
    {
      hide Writing, FillOk;
      var m := f.members[i];
      WriteNext(c, c', clusterId, grid, f, i);
      c' := c'.Put(m.id, ClusterInfo(clusterId, m.dx, m.dy));
    }
    WrittenAll(c, c', clusterId, grid, f);
  }

  lemma OverwrittenInjective(c: Clusters, c': Clusters, clusterId: nat, grid: set<RoomId>, f: Fill)
    requires InjectiveOffsets(c) && FillOk(grid, f) && Overwritten(c, c', clusterId, f)
    requires forall id :: id in c.info ==> c.info[id].clusterId < clusterId
    ensures InjectiveOffsets(c')
    ensures forall id :: id in c'.info ==> c'.info[id].clusterId <= clusterId
  {
    forall a | a in c'.info
      ensures if a in f.ids then c'.info[a].clusterId == clusterId else c'.info[a].clusterId < clusterId
    {
      if a in f.ids { var i := IndexOf(grid, f, a); }
    }
    forall a, b | a in c'.info && b in c'.info && a != b && c'.info[a].clusterId == c'.info[b].clusterId
      ensures c'.info[a].dx != c'.info[b].dx || c'.info[a].dy != c'.info[b].dy
    {
      if a in f.ids {
        var i := IndexOf(grid, f, a);
        var j := IndexOf(grid, f, b);
        assert Recorded(c', clusterId, f.members[i]) && Recorded(c', clusterId, f.members[j]);
        assert i < j || j < i;
      }
    }
  }

  lemma IndexOf(grid: set<RoomId>, f: Fill, id: RoomId) returns (i: nat)
    requires FillOk(grid, f) && id in f.ids
    ensures i < |f.members| && f.members[i].id == id && f.members[i] in f.members
  {
    i :| 0 <= i < |f.members| && f.members[i].id == id;
  }

  lemma OverwrittenFollows(c: Clusters, c': Clusters, clusterId: nat, grid: set<RoomId>, f: Fill, seed: RoomId, v: map<RoomId, Pos>)
    requires FillOk(grid, f) && Overwritten(c, c', clusterId, f)
    requires forall id :: id in c.info ==> c.info[id].clusterId < clusterId
    requires FollowsAll(v, c) && Follows(v, seed, f.members)
    ensures FollowsAll(v, c')
  {
    forall a | a in c'.info && a in f.ids
      ensures c'.info[a].clusterId == clusterId
      ensures a in v && v[a] == Pos(v[seed].x + c'.info[a].dx, v[seed].y + c'.info[a].dy, v[seed].z)
    {
      var i := IndexOf(grid, f, a);
      assert Recorded(c', clusterId, f.members[i]);
    }
    hide FillOk, Follows, Recorded;
    forall a, b | a in c'.info && b in c'.info && c'.info[a].clusterId == c'.info[b].clusterId
      ensures a in v && b in v
      ensures v[b] == Pos(v[a].x + c'.info[b].dx - c'.info[a].dx, v[a].y + c'.info[b].dy - c'.info[a].dy, v[a].z)
    {
      assert a in f.ids <==> b in f.ids;
    }
  }

  /** One flood fill that became a cluster. */
  datatype Found = Found(seed: RoomId, fill: Fill)

  /** The clusters are the fills in the order they were found; a room that several reach belongs to
      the last of them. */
  ghost predicate Collected(c: Clusters, found: seq<Found>) {
    && (forall id :: id in c.info ==> c.info[id].clusterId < |found|)
    && (forall id :: id in c.info ==> Member(id, c.info[id].dx, c.info[id].dy) in found[c.info[id].clusterId].fill.members)
    && (forall k, id :: 0 <= k < |found| && id in found[k].fill.ids ==> id in c.info && c.info[id].clusterId >= k)
  }

  /** Each is a fill from a grid room, and large enough. */
  ghost predicate AllGrown(zone: Zone, grid: set<RoomId>, found: seq<Found>) {
    forall o :: o in found ==> o.seed in grid && Grown(zone, grid, o.seed, o.fill) && |o.fill.members| >= MIN_GRID_CLUSTER_SIZE
  }

  /** The fill from the room is too small to be a cluster. */
  ghost predicate TooSmall(zone: Zone, grid: set<RoomId>, id: RoomId) {
    exists f :: Grown(zone, grid, id, f) && |f.members| < MIN_GRID_CLUSTER_SIZE
  }

  ghost function GridRooms(zone: Zone): set<RoomId> {
    set id | id in zone.ids && HasGridProperty(zone, id)
  }

  lemma CollectedNext(zone: Zone, c: Clusters, c': Clusters, grid: set<RoomId>, found: seq<Found>, seed: RoomId, f: Fill)
    requires FillOk(grid, f) && Collected(c, found) && Overwritten(c, c', |found|, f)
    ensures Collected(c', found + [Found(seed, f)])
  {
    var found' := found + [Found(seed, f)];
    forall id | id in c'.info
      ensures c'.info[id].clusterId < |found'| && Member(id, c'.info[id].dx, c'.info[id].dy) in found'[c'.info[id].clusterId].fill.members
      ensures id in f.ids ==> c'.info[id].clusterId == |found|
    {
      if id in f.ids {
        var i := IndexOf(grid, f, id);
        assert Recorded(c', |found|, f.members[i]);
      }
    }
  }

  method GridRoomsInOrder(zone: Zone) returns (gridRooms: seq<RoomId>)
    ensures forall id :: id in gridRooms <==> id in GridRooms(zone)
  {
    gridRooms := [];
    for i := 0 to |zone.ids|
      invariant forall id :: id in gridRooms <==> id in zone.ids[..i] && HasGridProperty(zone, id)
    {
      assert zone.ids[..i + 1] == zone.ids[..i] + [zone.ids[i]];
      if HasGridProperty(zone, zone.ids[i]) { gridRooms := gridRooms + [zone.ids[i]]; }
    }
    assert zone.ids[..|zone.ids|] == zone.ids;
  }

  lemma GridIs(zone: Zone, grid: set<RoomId>, gridRooms: seq<RoomId>)
    requires zone.Valid() && grid == (set id | id in gridRooms) && forall id :: id in gridRooms <==> id in GridRooms(zone)
    ensures grid == GridRooms(zone) && forall id :: id in grid ==> id in zone.ids && id in zone.exits && HasGridProperty(zone, id)
  {
    hide HasGridProperty;
  }

  /** What holds of the clusters found so far. */
  ghost predicate Growing(zone: Zone, grid: set<RoomId>, c: Clusters, found: seq<Found>, v: map<RoomId, Pos>) {
    && c.Valid() && InjectiveOffsets(c) && Collected(c, found) && AllGrown(zone, grid, found)
    && (forall id :: id in c.info ==> id in grid && c.info[id].clusterId < |found|)
    && (Steps(zone, v) && (forall id :: id in zone.ids ==> id in v) ==> FollowsAll(v, c))
  }

  /** The room is in a cluster, or its fill is too small to be one. */
  ghost predicate Tried(zone: Zone, grid: set<RoomId>, c: Clusters, id: RoomId) {
    id in c.info || TooSmall(zone, grid, id)
  }

  lemma TriedIf(zone: Zone, grid: set<RoomId>, c: Clusters, id: RoomId)
    ensures id in c.info ==> Tried(zone, grid, c, id)
  {
  }

  /** So many clusters were found. */
  ghost predicate Grows(zone: Zone, grid: set<RoomId>, c: Clusters, n: nat, v: map<RoomId, Pos>) {
    exists found :: |found| == n && Growing(zone, grid, c, found, v)
  }

  lemma NoClusters(zone: Zone, grid: set<RoomId>, v: map<RoomId, Pos>)
    ensures Grows(zone, grid, Clusters([], map[]), 0, v)
  {
    assert Growing(zone, grid, Clusters([], map[]), [], v);
  }

  /** The fill from one room becomes a cluster if it is large enough. */
  method GrowCluster(zone: Zone, grid: set<RoomId>, seed: RoomId, start: Clusters, startCluster: nat, ghost v: map<RoomId, Pos>)
    returns (c: Clusters, nextCluster: nat)
    requires seed in grid && seed in zone.ids && forall id :: id in grid ==> id in zone.exits
    requires Grows(zone, grid, start, startCluster, v)
    ensures Grows(zone, grid, c, nextCluster, v)
    ensures Tried(zone, grid, c, seed) && forall id :: Tried(zone, grid, start, id) ==> Tried(zone, grid, c, id)
  {
    hide Grown, InjectiveOffsets, Collected, AllGrown, FillOk, Overwritten, Steps, FollowsAll, Follows, Clusters.Valid;
    c, nextCluster := start, startCluster;
    ghost var before :| |before| == startCluster && Growing(zone, grid, start, before, v);
    var f := FloodFill(zone, grid, seed, v);
    if |f.members| < MIN_GRID_CLUSTER_SIZE { return; }
    GrownOk(zone, grid, seed, f);
    c := AddCluster(start, startCluster, grid, f);
    ClusterAdded(zone, start, c, grid, before, seed, f);
    if Steps(zone, v) && forall id :: id in zone.ids ==> id in v {
      assert seed in zone.ids;
      OverwrittenFollows(start, c, startCluster, grid, f, seed, v);
    }
    nextCluster := startCluster + 1;
    assert Growing(zone, grid, c, before + [Found(seed, f)], v);
  }

  ghost predicate AllTried(zone: Zone, grid: set<RoomId>, c: Clusters, ids: seq<RoomId>) {
    forall k :: 0 <= k < |ids| ==> Tried(zone, grid, c, ids[k])
  }

  lemma AllTriedStep(zone: Zone, grid: set<RoomId>, before: Clusters, c: Clusters, ids: seq<RoomId>, i: nat)
    requires i < |ids| && AllTried(zone, grid, before, ids[..i]) && Tried(zone, grid, c, ids[i])
    requires forall id :: Tried(zone, grid, before, id) ==> Tried(zone, grid, c, id)
    ensures AllTried(zone, grid, c, ids[..i + 1])
  {
    hide Tried;
    var after := ids[..i + 1];
    forall k | 0 <= k < i + 1 ensures Tried(zone, grid, c, after[k]) {
      if k < i { assert ids[..i][k] == ids[k]; }
    }
  }

  /** Every grid room is tried in turn, unless it is in a cluster by then. */
  method GrowClusters(zone: Zone, grid: set<RoomId>, gridRooms: seq<RoomId>, ghost v: map<RoomId, Pos>) returns (c: Clusters, nextCluster: nat)
    requires (forall id :: id in grid ==> id in zone.exits) && forall k :: 0 <= k < |gridRooms| ==> gridRooms[k] in grid && gridRooms[k] in zone.ids
    ensures Grows(zone, grid, c, nextCluster, v) && AllTried(zone, grid, c, gridRooms)
  {
    c, nextCluster := Clusters([], map[]), 0;
    NoClusters(zone, grid, v);
    assert gridRooms[..0] == [] && gridRooms[..|gridRooms|] == gridRooms;
    hide Grows, Tried, AllTried;
    for i := 0 to |gridRooms|
      invariant Grows(zone, grid, c, nextCluster, v)
      invariant AllTried(zone, grid, c, gridRooms[..i])
    {
      ghost var before := c;
      TriedIf(zone, grid, c, gridRooms[i]);
      if gridRooms[i] !in c.info {
        c, nextCluster := GrowCluster(zone, grid, gridRooms[i], c, nextCluster, v);
      }
      AllTriedStep(zone, grid, before, c, gridRooms, i);
    }
  }

  /** Every cluster is a large enough fill, later ones over earlier ones, and a grid room is in none
      only if its own fill is too small. */
  method DetectGridClusters(zone: Zone, ghost v: map<RoomId, Pos>) returns (c: Clusters, ghost found: seq<Found>)
    requires zone.Valid()
    ensures c.Valid() && InjectiveOffsets(c)
    ensures Collected(c, found) && AllGrown(zone, GridRooms(zone), found)
    ensures forall id :: id in GridRooms(zone) ==> id in c.info || TooSmall(zone, GridRooms(zone), id)
    ensures forall id :: id in c.info ==> id in zone.ids && HasGridProperty(zone, id)
    ensures Steps(zone, v) && (forall id :: id in zone.ids ==> id in v) ==> FollowsAll(v, c)
  {
    var gridRooms := GridRoomsInOrder(zone);
    var grid := set id | id in gridRooms;
    GridIs(zone, grid, gridRooms);
    var n;
    c, n := GrowClusters(zone, grid, gridRooms, v);
    found :| |found| == n && Growing(zone, grid, c, found, v);
    GrowingParts(zone, grid, c, found, v);
    EachTried(zone, grid, gridRooms, c);
    hide *;
  }

  lemma GrowingParts(zone: Zone, grid: set<RoomId>, c: Clusters, found: seq<Found>, v: map<RoomId, Pos>)
    requires Growing(zone, grid, c, found, v)
    ensures c.Valid() && InjectiveOffsets(c) && Collected(c, found) && AllGrown(zone, grid, found) && forall id :: id in c.info ==> id in grid
    ensures Steps(zone, v) && (forall id :: id in zone.ids ==> id in v) ==> FollowsAll(v, c)
  {
    hide Clusters.Valid, InjectiveOffsets, Collected, AllGrown, Steps, FollowsAll;
  }

  lemma EachTried(zone: Zone, grid: set<RoomId>, gridRooms: seq<RoomId>, c: Clusters)
    requires forall id :: id in grid ==> id in gridRooms
    requires forall k :: 0 <= k < |gridRooms| ==> Tried(zone, grid, c, gridRooms[k])
    ensures forall id :: id in grid ==> id in c.info || TooSmall(zone, grid, id)
  {
    hide TooSmall;
    forall id | id in grid ensures id in c.info || TooSmall(zone, grid, id) { var k :| 0 <= k < |gridRooms| && gridRooms[k] == id; }
  }

  lemma GrownOk(zone: Zone, grid: set<RoomId>, seed: RoomId, f: Fill)
    requires Grown(zone, grid, seed, f)
    ensures FillOk(grid, f)
  {
  }

  lemma OverwrittenRooms(c: Clusters, c': Clusters, clusterId: nat, grid: set<RoomId>, f: Fill)
    requires FillOk(grid, f) && Overwritten(c, c', clusterId, f) && forall id :: id in c.info ==> id in grid
    ensures forall id :: id in c'.info ==> id in grid
    ensures forall id :: id in f.ids || id in c.info ==> id in c'.info
  {
  }

  lemma ClusterAdded(zone: Zone, c: Clusters, c': Clusters, grid: set<RoomId>, found: seq<Found>, seed: RoomId, f: Fill)
    requires Collected(c, found) && AllGrown(zone, grid, found) && InjectiveOffsets(c) && Overwritten(c, c', |found|, f)
    requires forall id :: id in c.info ==> id in grid && c.info[id].clusterId < |found|
    requires seed in grid && Grown(zone, grid, seed, f) && seed in f.ids && |f.members| >= MIN_GRID_CLUSTER_SIZE
    ensures Collected(c', found + [Found(seed, f)]) && AllGrown(zone, grid, found + [Found(seed, f)]) && InjectiveOffsets(c')
    ensures forall id :: id in c'.info ==> id in grid && c'.info[id].clusterId < |found| + 1
    ensures seed in c'.info && forall id :: id in c.info ==> id in c'.info
  {
    GrownOk(zone, grid, seed, f);
    hide Grown, FillOk, Overwritten, InjectiveOffsets, Collected, AllGrown;
    OverwrittenInjective(c, c', |found|, grid, f);
    OverwrittenRooms(c, c', |found|, grid, f);
    CollectedNext(zone, c, c', grid, found, seed, f);
    AllGrownNext(zone, grid, found, seed, f);
  }

  lemma AllGrownNext(zone: Zone, grid: set<RoomId>, found: seq<Found>, seed: RoomId, f: Fill)
    requires AllGrown(zone, grid, found) && seed in grid && Grown(zone, grid, seed, f) && |f.members| >= MIN_GRID_CLUSTER_SIZE
    ensures AllGrown(zone, grid, found + [Found(seed, f)])
  {
    hide Grown;
  }

  // ---- The members of a cluster ----

  function MembersOf(c: Clusters, clusterId: nat): seq<RoomId>
    requires c.Valid()
  {
    MembersAmong(c, clusterId, c.order)
  }

  function MembersAmong(c: Clusters, clusterId: nat, ids: seq<RoomId>): (s: seq<RoomId>)
    requires forall id :: id in ids ==> id in c.info
    ensures forall id :: id in s <==> id in ids && c.info[id].clusterId == clusterId
  {
    if ids == [] then []
    else
      assert forall id :: id in ids <==> id == ids[0] || id in ids[1..];
      (if c.info[ids[0]].clusterId == clusterId then [ids[0]] else []) + MembersAmong(c, clusterId, ids[1..])
  }

  lemma {:induction false} MembersDistinct(c: Clusters, clusterId: nat, ids: seq<RoomId>)
    requires NoDup(ids) && forall id :: id in ids ==> id in c.info
    ensures NoDup(MembersAmong(c, clusterId, ids))
  {
    if ids != [] {
      NoDupTail(ids);
      assert forall id :: id in ids <==> id == ids[0] || id in ids[1..];
      MembersDistinct(c, clusterId, ids[1..]);
    }
  }
}
