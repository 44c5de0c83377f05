/** Which rooms have the grid property, and what becomes of a full rectangular grid. */
module FullGrids {
  import opened Zones
  import opened Grid

  // ---- The grid property ----

  /** The room's first exit in that direction leads to the target, which has a name. */
  ghost predicate WalksTo(zone: Zone, id: RoomId, d: Dir, target: RoomId) {
    id in zone.exits && target.name != "" && FirstAt(zone.exits[id], d, target)
  }

  ghost predicate FirstAt(exits: seq<Exit>, d: Dir, target: RoomId) {
    exists i :: 0 <= i < |exits| && exits[i] == Exit(d, target) && forall j :: 0 <= j < i ==> exits[j].dir != d
  }

  lemma {:induction false} LookupIsFirst(exits: seq<Exit>, d: Dir, target: RoomId)
    ensures Lookup(exits, d) == Some(target) <==> target.name != "" && FirstAt(exits, d, target)
  {
    if exits != [] {
      var rest := exits[1..];
      LookupIsFirst(rest, d, target);
      if exits[0].dir == d {
        if FirstAt(exits, d, target) {
          var i :| 0 <= i < |exits| && exits[i] == Exit(d, target) && forall j :: 0 <= j < i ==> exits[j].dir != d;
          assert i == 0;
        }
        if exits[0] == Exit(d, target) {
          assert FirstAt(exits, d, target);
        }
      } else {
        FirstLater(exits, d, target);
      }
    }
  }

  lemma FirstLater(exits: seq<Exit>, d: Dir, target: RoomId)
    requires exits != [] && exits[0].dir != d
    ensures FirstAt(exits, d, target) <==> FirstAt(exits[1..], d, target)
  {
    var rest := exits[1..];
    if i :| 0 <= i < |exits| && exits[i] == Exit(d, target) && forall j :: 0 <= j < i ==> exits[j].dir != d {
      assert rest[i - 1] == Exit(d, target) && forall j :: 0 <= j < i - 1 ==> rest[j] == exits[j + 1];
    }
    if i :| 0 <= i < |rest| && rest[i] == Exit(d, target) && forall j :: 0 <= j < i ==> rest[j].dir != d {
      assert exits[i + 1] == Exit(d, target) && forall j :: 1 <= j < i + 1 ==> exits[j] == rest[j - 1];
    }
  }

  lemma ExitToIsWalk(zone: Zone, id: RoomId, d: Dir, target: RoomId)
    ensures ExitTo(zone, id, d) == Some(target) <==> WalksTo(zone, id, d, target)
  {
    LookupIsFirst(zone.ExitsOf(id), d, target);
  }

  /** One direction is north or south, the other east or west. */
  predicate Perpendicular(a: Dir, b: Dir) {
    (a == North || a == South) && (b == East || b == West)
  }

  /** The two walks of two steps, one in each order, end in one room. */
  ghost predicate WalksClose(zone: Zone, id: RoomId, a: Dir, b: Dir) {
    exists p, q, end :: Corner(zone, id, a, b, p, q, end)
  }

  ghost predicate Corner(zone: Zone, id: RoomId, a: Dir, b: Dir, p: RoomId, q: RoomId, end: RoomId) {
    WalksTo(zone, id, a, p) && WalksTo(zone, p, b, end) && WalksTo(zone, id, b, q) && WalksTo(zone, q, a, end)
  }

  lemma ConvergesIff(zone: Zone, id: RoomId, a: Dir, b: Dir)
    ensures Converges(zone, id, a, b) <==> WalksClose(zone, id, a, b)
  {
    hide ExitTo, WalksTo;
    if Converges(zone, id, a, b) {
      var p, q, end := ExitTo(zone, id, a).value, ExitTo(zone, id, b).value, ExitTo(zone, ExitTo(zone, id, a).value, b).value;
      ExitToIsWalk(zone, id, a, p);
      ExitToIsWalk(zone, id, b, q);
      ExitToIsWalk(zone, p, b, end);
      ExitToIsWalk(zone, q, a, end);
      assert Corner(zone, id, a, b, p, q, end);
    }
    if p, q, end :| Corner(zone, id, a, b, p, q, end) {
      ExitToIsWalk(zone, id, a, p);
      ExitToIsWalk(zone, id, b, q);
      ExitToIsWalk(zone, p, b, end);
      ExitToIsWalk(zone, q, a, end);
      WalkStarts(zone, p, b, end);
      WalkStarts(zone, q, a, end);
    }
  }

  lemma WalkStarts(zone: Zone, id: RoomId, d: Dir, target: RoomId)
    requires WalksTo(zone, id, d, target)
    ensures id in zone.exits
  {
  }

  /** A room has the grid property exactly when two perpendicular walks of two steps, one in each order,
      end in one room. */
  lemma GridPropertyIff(zone: Zone, id: RoomId)
    ensures HasGridProperty(zone, id) <==> exists a, b :: Perpendicular(a, b) && WalksClose(zone, id, a, b)
  {
    hide Converges, WalksClose;
    if HasGridProperty(zone, id) {
      var i :| 0 <= i < |PERPENDICULAR_PAIRS| && Converges(zone, id, PERPENDICULAR_PAIRS[i].0, PERPENDICULAR_PAIRS[i].1);
      var a, b := PERPENDICULAR_PAIRS[i].0, PERPENDICULAR_PAIRS[i].1;
      ConvergesIff(zone, id, a, b);
      assert Perpendicular(a, b) && WalksClose(zone, id, a, b);
    }
    if a, b :| Perpendicular(a, b) && WalksClose(zone, id, a, b) {
      ConvergesIff(zone, id, a, b);
      ClosesAtRoom(zone, id, a, b);
      var i := (if a == North then 0 else 2) + (if b == East then 0 else 1);
      assert PERPENDICULAR_PAIRS[i] == (a, b);
    }
  }

  lemma ClosesAtRoom(zone: Zone, id: RoomId, a: Dir, b: Dir)
    requires WalksClose(zone, id, a, b)
    ensures id in zone.exits
  {
  }

  // ---- A full grid ----

  predicate InRange(n: nat, m: nat, c: Cell) {
    0 <= c.x < n && 0 <= c.y < m
  }

  /** The rooms with a cell fill n columns and m rows, one room a cell. */
  ghost predicate Fills(cell: map<RoomId, Cell>, n: nat, m: nat) {
    && (forall id :: id in cell ==> InRange(n, m, cell[id]))
    && (forall a, b :: a in cell && b in cell && cell[a] == cell[b] ==> a == b)
    && (forall c :: InRange(n, m, c) ==> exists id :: id in cell && cell[id] == c)
  }

  /** Their cardinal exits lead to the room on the next cell. */
  ghost predicate LeadsRight(zone: Zone, cell: map<RoomId, Cell>) {
    forall id, e :: id in cell && e in zone.ExitsOf(id) && Cardinal(e.dir) ==> e.target in cell && cell[e.target] == Neighbour(cell[id], e.dir)
  }

  /** There is an exit to every neighbour. */
  ghost predicate LeadsOn(zone: Zone, cell: map<RoomId, Cell>, n: nat, m: nat) {
    forall id, d :: id in cell && Cardinal(d) && InRange(n, m, Neighbour(cell[id], d)) ==> Leaves(zone, id, d)
  }

  ghost predicate Leaves(zone: Zone, id: RoomId, d: Dir) {
    exists e :: e in zone.ExitsOf(id) && e.dir == d
  }

  /** No other room has a cardinal exit to one of them. */
  ghost predicate Secluded(zone: Zone, cell: map<RoomId, Cell>) {
    forall id, e :: e in zone.ExitsOf(id) && Cardinal(e.dir) && e.target in cell ==> id in cell
  }

  /** The rooms of `cell` are a full grid of n columns and m rows: two-way exits between neighbours in
      whatever order, and no other cardinal exit from or to one of them. */
  ghost predicate FullGrid(zone: Zone, cell: map<RoomId, Cell>, n: nat, m: nat) {
    && (forall id :: id in cell ==> id in zone.ids && id in zone.exits && id.name != "")
    && Fills(cell, n, m) && LeadsRight(zone, cell) && LeadsOn(zone, cell, n, m) && Secluded(zone, cell)
  }

  /** The first exit in a direction leads to the next room. */
  lemma WalksToNext(zone: Zone, cell: map<RoomId, Cell>, n: nat, m: nat, id: RoomId, d: Dir) returns (target: RoomId)
    requires FullGrid(zone, cell, n, m) && id in cell && Cardinal(d) && InRange(n, m, Neighbour(cell[id], d))
    ensures target in cell && cell[target] == Neighbour(cell[id], d) && WalksTo(zone, id, d, target)
  {
    assert Leaves(zone, id, d);
    var exits := zone.exits[id];
    var e :| e in exits && e.dir == d;
    var k :| 0 <= k < |exits| && exits[k] == e;
    var i := FirstIndex(exits, d, k);
    target := exits[i].target;
    assert exits[i] in zone.ExitsOf(id);
    assert exits[i] == Exit(d, target);
  }

  lemma {:induction false} FirstIndex(exits: seq<Exit>, d: Dir, k: nat) returns (i: nat)
    requires k < |exits| && exits[k].dir == d
    ensures i <= k && exits[i].dir == d && forall j :: 0 <= j < i ==> exits[j].dir != d
  {
    i := k;
    if j :| 0 <= j < k && exits[j].dir == d {
      i := FirstIndex(exits, d, j);
    }
  }

  /** Every room of a full grid of at least two columns and rows has the grid property. */
  lemma AllHaveProperty(zone: Zone, cell: map<RoomId, Cell>, n: nat, m: nat, id: RoomId)
    requires FullGrid(zone, cell, n, m) && n >= 2 && m >= 2 && id in cell
    ensures HasGridProperty(zone, id) && id in GridRooms(zone)
  {
    assert InRange(n, m, cell[id]);
    var a, b := if cell[id].y == 0 then South else North, if cell[id].x == 0 then East else West;
    var p := WalksToNext(zone, cell, n, m, id, a);
    var q := WalksToNext(zone, cell, n, m, id, b);
    var end := WalksToNext(zone, cell, n, m, p, b);
    var end' := WalksToNext(zone, cell, n, m, q, a);
    hide WalksTo, HasGridProperty, LeadsRight, LeadsOn, Secluded;
    assert end == end';
    assert Corner(zone, id, a, b, p, q, end);
    assert Perpendicular(a, b) && WalksClose(zone, id, a, b);
    GridPropertyIff(zone, id);
  }

  // ---- Filling it ----

  /** The member stands at its own offset from the seed. */
  ghost predicate OwnOffset(cell: map<RoomId, Cell>, seed: RoomId, m: Member) {
    seed in cell && m.id in cell && cell[m.id] == Cell(cell[seed].x + m.dx, cell[seed].y + m.dy)
  }

  lemma LedBy(zone: Zone, grid: set<RoomId>, seed: RoomId, f: Fill, i: nat) returns (j: nat, e: Exit)
    requires Grown(zone, grid, seed, f) && 0 < i < |f.members|
    ensures j < i && Leads(zone, f.members[j], e, f.members[i])
  {
    hide FillOk, AllSpent;
    assert LedTo(zone, f.members[..i], f.members[i]);
    hide Grown, Rooted;
    j, e := LedFrom(zone, f.members, i);
  }

  lemma LedFrom(zone: Zone, members: seq<Member>, i: nat) returns (j: nat, e: Exit)
    requires i < |members| && LedTo(zone, members[..i], members[i])
    ensures j < i && Leads(zone, members[j], e, members[i])
  {
    hide Leads;
    var p, e' :| p in members[..i] && Leads(zone, p, e', members[i]);
    j :| 0 <= j < i && members[..i][j] == p;
    e := e';
  }

  lemma StartsAtSeed(zone: Zone, grid: set<RoomId>, seed: RoomId, f: Fill)
    requires Grown(zone, grid, seed, f)
    ensures f.members != [] && f.members[0] == Member(seed, 0, 0) && FillOk(grid, f)
  {
  }

  lemma OneOn(zone: Zone, cell: map<RoomId, Cell>, seed: RoomId, p: Member, e: Exit, m: Member)
    requires LeadsRight(zone, cell) && OwnOffset(cell, seed, p) && Leads(zone, p, e, m)
    ensures OwnOffset(cell, seed, m)
  {
  }

  /** A fill from a room of the grid stays inside, every member at its own offset. */
  lemma {:induction false} StaysInside(zone: Zone, cell: map<RoomId, Cell>, grid: set<RoomId>, seed: RoomId, f: Fill, i: nat)
    requires LeadsRight(zone, cell) && Grown(zone, grid, seed, f) && seed in cell && i < |f.members|
    ensures OwnOffset(cell, seed, f.members[i])
    decreases i
  {
    hide LeadsRight, Grown, Leads, FillOk;
    if i == 0 {
      StartsAtSeed(zone, grid, seed, f);
    } else {
      hide OwnOffset;
      var j, e := LedBy(zone, grid, seed, f, i);
      StaysInside(zone, cell, grid, seed, f, j);
      OneOn(zone, cell, seed, f.members[j], e, f.members[i]);
    }
  }

  /** A fill from another room stays outside. */
  lemma {:induction false} StaysOutside(zone: Zone, cell: map<RoomId, Cell>, grid: set<RoomId>, seed: RoomId, f: Fill, i: nat)
    requires Secluded(zone, cell) && Grown(zone, grid, seed, f) && seed !in cell && i < |f.members|
    ensures f.members[i].id !in cell
    decreases i
  {
    hide Grown, FillOk;
    if i == 0 {
      StartsAtSeed(zone, grid, seed, f);
    } else {
      var j, e := LedBy(zone, grid, seed, f, i);
      StaysOutside(zone, cell, grid, seed, f, j);
    }
  }

  lemma MemberAt(grid: set<RoomId>, f: Fill, id: RoomId) returns (i: nat)
    requires FillOk(grid, f) && id in f.ids
    ensures i < |f.members| && f.members[i].id == id
  {
    i :| 0 <= i < |f.members| && f.members[i].id == id;
  }

  /** Two members at one offset are one room. */
  lemma SameOffset(cell: map<RoomId, Cell>, n: nat, m: nat, seed: RoomId, a: Member, b: RoomId, p: Member, d: Dir)
    requires Fills(cell, n, m) && OwnOffset(cell, seed, a) && OwnOffset(cell, seed, p) && Cardinal(d) && b in cell && cell[b] == Neighbour(cell[p.id], d)
    requires Cell(a.dx, a.dy) == Cell(p.dx + Off(d).dx, p.dy + Off(d).dy)
    ensures a.id == b
  {
    assert cell[a.id] == cell[b];
  }

  lemma ExitOn(zone: Zone, cell: map<RoomId, Cell>, n: nat, m: nat, id: RoomId, d: Dir, next: RoomId) returns (e: Exit)
    requires FullGrid(zone, cell, n, m) && id in cell && Cardinal(d) && next in cell && cell[next] == Neighbour(cell[id], d)
    ensures e in zone.ExitsOf(id) && e == Exit(d, next)
  {
    assert InRange(n, m, cell[next]) && Leaves(zone, id, d);
    e :| e in zone.ExitsOf(id) && e.dir == d;
    assert cell[e.target] == cell[next];
  }

  /** The exit of a member to a grid room has been spent: the room is a member, or the cell is taken. */
  lemma SpentExit(zone: Zone, grid: set<RoomId>, seed: RoomId, f: Fill, i: nat, e: Exit)
    requires Grown(zone, grid, seed, f) && i < |f.members| && e in zone.ExitsOf(f.members[i].id) && Cardinal(e.dir) && e.target in grid
    ensures e.target in f.ids || Cell(f.members[i].dx + Off(e.dir).dx, f.members[i].dy + Off(e.dir).dy) in f.posToRoom
  {
    hide FillOk, Rooted;
    var member := f.members[i];
    assert AllSpent(zone, grid, f, member);
    hide Grown;
    assert Spent(grid, f, member, e);
  }

  lemma TakenBy(zone: Zone, grid: set<RoomId>, seed: RoomId, f: Fill, c: Cell) returns (k: nat)
    requires Grown(zone, grid, seed, f) && c in f.posToRoom
    ensures k < |f.members| && Cell(f.members[k].dx, f.members[k].dy) == c && f.members[k].id in f.ids
  {
    var other :| other in f.members && Cell(other.dx, other.dy) == c;
    k :| 0 <= k < |f.members| && f.members[k] == other;
  }

  lemma Parts(zone: Zone, cell: map<RoomId, Cell>, n: nat, m: nat)
    requires FullGrid(zone, cell, n, m)
    ensures Fills(cell, n, m) && LeadsRight(zone, cell)
  {
    hide Fills, LeadsRight, LeadsOn, Secluded;
  }

  /** If the next cell is taken, then by the room that belongs there. */
  lemma TakenIsNext(zone: Zone, cell: map<RoomId, Cell>, n: nat, m: nat, grid: set<RoomId>, seed: RoomId, f: Fill, i: nat, d: Dir, next: RoomId)
    requires Fills(cell, n, m) && LeadsRight(zone, cell) && Grown(zone, grid, seed, f) && seed in cell && i < |f.members|
    requires f.members[i].id in cell && Cardinal(d) && next in cell && cell[next] == Neighbour(cell[f.members[i].id], d)
    requires Cell(f.members[i].dx + Off(d).dx, f.members[i].dy + Off(d).dy) in f.posToRoom
    ensures next in f.ids
  {
    hide Fills, LeadsRight, Grown, OwnOffset;
    StaysInside(zone, cell, grid, seed, f, i);
    var k := TakenBy(zone, grid, seed, f, Cell(f.members[i].dx + Off(d).dx, f.members[i].dy + Off(d).dy));
    StaysInside(zone, cell, grid, seed, f, k);
    SameOffset(cell, n, m, seed, f.members[k], next, f.members[i], d);
  }

  /** The fill goes on to every neighbour. */
  lemma GoesOn(zone: Zone, cell: map<RoomId, Cell>, n: nat, m: nat, grid: set<RoomId>, seed: RoomId, f: Fill, i: nat, e: Exit)
    requires Fills(cell, n, m) && LeadsRight(zone, cell) && Grown(zone, grid, seed, f) && seed in cell && i < |f.members|
    requires e in zone.ExitsOf(f.members[i].id) && f.members[i].id in cell && Cardinal(e.dir) && e.target in cell && e.target in grid
    requires cell[e.target] == Neighbour(cell[f.members[i].id], e.dir)
    ensures e.target in f.ids
  {
    hide Fills, LeadsRight, Grown, Zone.ExitsOf, Neighbour;
    SpentExit(zone, grid, seed, f, i, e);
    if e.target !in f.ids {
      TakenIsNext(zone, cell, n, m, grid, seed, f, i, e.dir, e.target);
    }
  }

  function Apart(a: int, b: int): nat { if a < b then b - a else a - b }

  /** The room before another one on a way from the seed. */
  lemma OneBack(cell: map<RoomId, Cell>, n: nat, m: nat, seed: RoomId, id: RoomId) returns (p: RoomId, d: Dir)
    requires Fills(cell, n, m) && seed in cell && id in cell && cell[id] != cell[seed]
    ensures p in cell && Cardinal(d) && cell[id] == Neighbour(cell[p], d)
    ensures Apart(cell[p].x, cell[seed].x) + Apart(cell[p].y, cell[seed].y) < Apart(cell[id].x, cell[seed].x) + Apart(cell[id].y, cell[seed].y)
  {
    var c, o := cell[id], cell[seed];
    assert InRange(n, m, c) && InRange(n, m, o);
    d := if c.x < o.x then West else if c.x > o.x then East else if c.y < o.y then North else South;
    var back := if c.x < o.x then Cell(c.x + 1, c.y) else if c.x > o.x then Cell(c.x - 1, c.y) else if c.y < o.y then Cell(c.x, c.y + 1) else Cell(c.x, c.y - 1);
    assert InRange(n, m, back);
    p :| p in cell && cell[p] == back;
  }

  /** The fill reaches every room. */
  lemma {:induction false} ReachesAll(zone: Zone, cell: map<RoomId, Cell>, n: nat, m: nat, grid: set<RoomId>, seed: RoomId, f: Fill, id: RoomId)
    requires FullGrid(zone, cell, n, m) && Grown(zone, grid, seed, f) && seed in cell && id in cell && forall r :: r in cell ==> r in grid
    ensures id in f.ids
    decreases Apart(cell[id].x, cell[seed].x) + Apart(cell[id].y, cell[seed].y)
  {
    Parts(zone, cell, n, m);
    StartsAtSeed(zone, grid, seed, f);
    if cell[id] == cell[seed] {
      hide FullGrid, Grown;
      assert f.members[0].id in f.ids;
    } else {
      hide FullGrid, Grown, Fills, LeadsRight, FillOk, Neighbour, Apart;
      var p, d := OneBack(cell, n, m, seed, id);
      ReachesAll(zone, cell, n, m, grid, seed, f, p);
      var i := MemberAt(grid, f, p);
      var e := ExitOn(zone, cell, n, m, p, d, id);
      GoesOn(zone, cell, n, m, grid, seed, f, i, e);
    }
  }

  // ---- Its size ----

  /** Nine of its rooms, row by row. */
  lemma {:induction false} SomeRooms(cell: map<RoomId, Cell>, n: nat, m: nat, k: nat) returns (rooms: set<RoomId>)
    requires Fills(cell, n, m) && n >= 3 && m >= 3 && k <= 9
    ensures |rooms| == k && forall id :: id in rooms ==> id in cell && cell[id].x < 3 && 3 * cell[id].y + cell[id].x < k
  {
    if k == 0 {
      rooms := {};
    } else {
      var others := SomeRooms(cell, n, m, k - 1);
      var c := Cell((k - 1) % 3, (k - 1) / 3);
      assert InRange(n, m, c);
      var id :| id in cell && cell[id] == c;
      assert id !in others;
      rooms := others + {id};
    }
  }

  function IdsOf(members: seq<Member>): set<RoomId> {
    if members == [] then {} else {members[0].id} + IdsOf(members[1..])
  }

  lemma {:induction false} IdsCard(members: seq<Member>)
    ensures |IdsOf(members)| <= |members| && forall i :: 0 <= i < |members| ==> members[i].id in IdsOf(members)
  {
    if members != [] {
      IdsCard(members[1..]);
      assert forall i :: 1 <= i < |members| ==> members[i] == members[1..][i - 1];
    }
  }

  /** The fill is large enough to be a cluster. */
  lemma LargeEnough(zone: Zone, cell: map<RoomId, Cell>, n: nat, m: nat, grid: set<RoomId>, seed: RoomId, f: Fill)
    requires FullGrid(zone, cell, n, m) && n >= 3 && m >= 3 && Grown(zone, grid, seed, f) && seed in cell && forall r :: r in cell ==> r in grid
    ensures |f.members| >= 9
  {
    var rooms := SomeRooms(cell, n, m, 9);
    IdsCard(f.members);
    forall id | id in rooms ensures id in IdsOf(f.members) {
      ReachesAll(zone, cell, n, m, grid, seed, f, id);
      var i := MemberAt(grid, f, id);
    }
    SubsetSize(rooms, IdsOf(f.members));
  }

  // ---- Its cluster ----

  /** The rooms of the grid are one cluster, each at its own offset from one of them, and nobody else
      belongs to it. */
  ghost predicate OneCluster(cell: map<RoomId, Cell>, c: Clusters, seed: RoomId) {
    && seed in cell && seed in c.info
    && (forall id :: id in cell ==> id in c.info && c.info[id].clusterId == c.info[seed].clusterId
                                    && cell[id] == Cell(cell[seed].x + c.info[id].dx, cell[seed].y + c.info[id].dy))
    && (forall id :: id in c.info && c.info[id].clusterId == c.info[seed].clusterId ==> id in cell)
  }

  /** What detection leaves behind. */
  ghost predicate Detected(zone: Zone, c: Clusters, found: seq<Found>) {
    && Collected(c, found) && AllGrown(zone, GridRooms(zone), found)
    && forall id :: id in GridRooms(zone) ==> id in c.info || TooSmall(zone, GridRooms(zone), id)
  }

  lemma NotTooSmall(zone: Zone, cell: map<RoomId, Cell>, n: nat, m: nat, id: RoomId)
    requires FullGrid(zone, cell, n, m) && n >= 3 && m >= 3 && id in cell
    ensures !TooSmall(zone, GridRooms(zone), id)
  {
    forall r | r in cell ensures r in GridRooms(zone) { AllHaveProperty(zone, cell, n, m, r); }
    hide FullGrid, Grown, GridRooms;
    forall f | Grown(zone, GridRooms(zone), id, f) ensures |f.members| >= 9 {
      LargeEnough(zone, cell, n, m, GridRooms(zone), id, f);
    }
  }

  /** The fill a room's cluster came from. */
  lemma FillOf(zone: Zone, c: Clusters, found: seq<Found>, id: RoomId) returns (k: nat, i: nat)
    requires Detected(zone, c, found) && id in c.info
    ensures k == c.info[id].clusterId < |found| && Grown(zone, GridRooms(zone), found[k].seed, found[k].fill)
    ensures i < |found[k].fill.members| && found[k].fill.members[i] == Member(id, c.info[id].dx, c.info[id].dy)
  {
    hide GridRooms, Grown;
    k := c.info[id].clusterId;
    assert found[k] in found;
    var own := Member(id, c.info[id].dx, c.info[id].dy);
    i :| 0 <= i < |found[k].fill.members| && found[k].fill.members[i] == own;
  }

  lemma IsPut(zone: Zone, cell: map<RoomId, Cell>, n: nat, m: nat, c: Clusters, found: seq<Found>, id: RoomId)
    requires FullGrid(zone, cell, n, m) && n >= 3 && m >= 3 && Detected(zone, c, found) && id in cell
    ensures id in c.info
  {
    NotTooSmall(zone, cell, n, m, id);
    AllHaveProperty(zone, cell, n, m, id);
    hide TooSmall, FullGrid;
  }

  /** A fill that reaches a room of the grid started inside and covers the grid. */
  lemma Covers(zone: Zone, cell: map<RoomId, Cell>, n: nat, m: nat, seed: RoomId, f: Fill, i: nat)
    requires FullGrid(zone, cell, n, m) && n >= 2 && m >= 2 && Grown(zone, GridRooms(zone), seed, f) && i < |f.members| && f.members[i].id in cell
    ensures seed in cell && (forall r :: r in cell ==> r in f.ids) && forall j :: 0 <= j < |f.members| ==> OwnOffset(cell, seed, f.members[j])
  {
    var grid := GridRooms(zone);
    hide Grown, HasGridProperty, Fills, LeadsRight, LeadsOn, GridRooms;
    if seed !in cell {
      StaysOutside(zone, cell, grid, seed, f, i);
    }
    forall r | r in cell ensures r in grid { AllHaveProperty(zone, cell, n, m, r); }
    forall r | r in cell ensures r in f.ids { ReachesAll(zone, cell, n, m, grid, seed, f, r); }
    forall j | 0 <= j < |f.members| ensures OwnOffset(cell, seed, f.members[j]) { StaysInside(zone, cell, grid, seed, f, j); }
  }

  /** The fill whose cluster a room of the grid belongs to. */
  lemma OwnFill(zone: Zone, cell: map<RoomId, Cell>, n: nat, m: nat, c: Clusters, found: seq<Found>, id: RoomId) returns (k: nat)
    requires FullGrid(zone, cell, n, m) && n >= 3 && m >= 3 && Detected(zone, c, found) && id in cell
    ensures id in c.info && k == c.info[id].clusterId < |found| && found[k].seed in cell
    ensures forall r :: r in cell ==> r in found[k].fill.ids
    ensures forall i :: 0 <= i < |found[k].fill.members| ==> OwnOffset(cell, found[k].seed, found[k].fill.members[i])
  {
    IsPut(zone, cell, n, m, c, found, id);
    hide FullGrid, Detected, Grown, OwnOffset;
    var i;
    k, i := FillOf(zone, c, found, id);
    Covers(zone, cell, n, m, found[k].seed, found[k].fill, i);
  }

  /** No fill found later covers a room than the one its cluster came from. */
  lemma NoneLater(zone: Zone, c: Clusters, found: seq<Found>, k: nat, id: RoomId)
    requires Detected(zone, c, found) && k < |found| && id in found[k].fill.ids
    ensures id in c.info && c.info[id].clusterId >= k
  {
  }

  lemma SameCluster(zone: Zone, cell: map<RoomId, Cell>, n: nat, m: nat, c: Clusters, found: seq<Found>, a: RoomId, b: RoomId)
    requires FullGrid(zone, cell, n, m) && n >= 3 && m >= 3 && Detected(zone, c, found) && a in cell && b in cell
    ensures a in c.info && b in c.info && c.info[a].clusterId == c.info[b].clusterId
  {
    hide FullGrid, Detected, OwnOffset;
    var k := OwnFill(zone, cell, n, m, c, found, a);
    var l := OwnFill(zone, cell, n, m, c, found, b);
    NoneLater(zone, c, found, l, a);
    NoneLater(zone, c, found, k, b);
  }

  /** Whoever belongs to that cluster is a room of the grid, at its own offset. */
  lemma OwnPlace(zone: Zone, cell: map<RoomId, Cell>, c: Clusters, found: seq<Found>, k: nat, id: RoomId)
    requires Detected(zone, c, found) && id in c.info && c.info[id].clusterId == k < |found|
    requires forall i :: 0 <= i < |found[k].fill.members| ==> OwnOffset(cell, found[k].seed, found[k].fill.members[i])
    ensures OwnOffset(cell, found[k].seed, Member(id, c.info[id].dx, c.info[id].dy))
  {
    hide Detected, Grown, OwnOffset;
    var l, i := FillOf(zone, c, found, id);
  }

  lemma SomeRoom(cell: map<RoomId, Cell>, n: nat, m: nat) returns (id: RoomId)
    requires Fills(cell, n, m) && n >= 1 && m >= 1
    ensures id in cell
  {
    assert InRange(n, m, Cell(0, 0));
    id :| id in cell && cell[id] == Cell(0, 0);
  }

  /** A full grid of at least three columns and rows is found as one cluster of all its rooms. */
  lemma FullGridIsCluster(zone: Zone, cell: map<RoomId, Cell>, n: nat, m: nat, c: Clusters, found: seq<Found>) returns (seed: RoomId)
    requires FullGrid(zone, cell, n, m) && n >= 3 && m >= 3 && Detected(zone, c, found)
    ensures OneCluster(cell, c, seed)
  {
    hide Fills, LeadsRight, LeadsOn, Secluded;
    var first := SomeRoom(cell, n, m);
    hide FullGrid, Detected, OwnOffset;
    var k := OwnFill(zone, cell, n, m, c, found, first);
    seed := found[k].seed;
    forall id | id in cell ensures id in c.info && c.info[id].clusterId == k {
      SameCluster(zone, cell, n, m, c, found, first, id);
    }
    forall id | id in c.info && c.info[id].clusterId == k ensures OwnOffset(cell, seed, Member(id, c.info[id].dx, c.info[id].dy)) {
      OwnPlace(zone, cell, c, found, k, id);
    }
    IsOneCluster(cell, c, seed, k);
  }

  lemma IsOneCluster(cell: map<RoomId, Cell>, c: Clusters, seed: RoomId, k: nat)
    requires seed in cell && forall id :: id in cell ==> id in c.info && c.info[id].clusterId == k
    requires forall id :: id in c.info && c.info[id].clusterId == k ==> OwnOffset(cell, seed, Member(id, c.info[id].dx, c.info[id].dy))
    ensures OneCluster(cell, c, seed)
  {
    forall id | id in cell ensures cell[id] == Cell(cell[seed].x + c.info[id].dx, cell[seed].y + c.info[id].dy) {
      assert OwnOffset(cell, seed, Member(id, c.info[id].dx, c.info[id].dy));
    }
  }

  /** Detection on a zone that holds a full grid. */
  method DetectFullGrid(zone: Zone, ghost cell: map<RoomId, Cell>, ghost n: nat, ghost m: nat) returns (c: Clusters, ghost seed: RoomId)
    requires zone.Valid() && FullGrid(zone, cell, n, m) && n >= 3 && m >= 3
    ensures c.Valid() && OneCluster(cell, c, seed)
  {
    hide *;
    ghost var found;
    c, found := DetectGridClusters(zone, map[]);
    IsDetected(zone, c, found);
    seed := FullGridIsCluster(zone, cell, n, m, c, found);
  }

  lemma IsDetected(zone: Zone, c: Clusters, found: seq<Found>)
    requires Collected(c, found) && AllGrown(zone, GridRooms(zone), found)
    requires forall id :: id in GridRooms(zone) ==> id in c.info || TooSmall(zone, GridRooms(zone), id)
    ensures Detected(zone, c, found)
  {
  }
}
