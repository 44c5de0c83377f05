/** Phase 5c: shifting the rooms of an alignment group onto the coordinate most of them share. */
module Align {
  import opened Sums
  import opened Zones
  import opened Boards
  import opened AxisGroups
  import opened Dominoes
  import Scores
  import Relax

  const CARDINAL_ALIGNMENT_ITERATIONS := 30

  // ---- Chain push ----

  /** The old position of every room that has moved, and of no room with another one. */
  ghost predicate Recorded(r0: Layout, r: Layout, z: int, oldIds: seq<RoomId>, oldPos: map<RoomId, Cell>) {
    && r.order == r0.order && r.at.Keys == r0.at.Keys
    && (forall id :: id in oldIds <==> id in oldPos)
    && (forall id :: id in oldPos ==> id in r0.at && r0.at[id] == At(oldPos[id], z) && r.On(id, z))
    && (forall id :: id in r0.at && id !in oldPos ==> r.at[id] == r0.at[id])
  }

  /** The first room of the layout on the cell, other than rid. */
  method OccupantOf(r: Layout, z: int, c: Cell, rid: RoomId) returns (found: Option<RoomId>)
    requires r.Valid()
    ensures found == FirstAt(r, z, c, rid)
  {
    hide FirstOf;
    assert r.order[0..] == r.order;
    for i := 0 to |r.order|
      invariant FirstAt(r, z, c, rid) == FirstOf(r, z, c, rid, r.order[i..])
    {
      assert r.order[i] in r.order;
      FirstOfStep(r, z, c, rid, r.order, i);
      if r.order[i] != rid && r.at[r.order[i]] == At(c, z) { return Some(r.order[i]); }
    }
    NoneLeft(r, z, c, rid);
    found := None;
  }

  lemma NoneLeft(r: Layout, z: int, c: Cell, rid: RoomId)
    ensures FirstOf(r, z, c, rid, r.order[|r.order|..]) == None
  {
  }

  /** Move a room to a cell, pushing whoever is found there one step on, and so forth. It always
      ends, and every room it moves is recorded. */
  method ChainPush(b: Board, z: int, axis: Axis, sign: int, rid: RoomId, c: Cell, oldIds: seq<RoomId>, oldPos: map<RoomId, Cell>, ghost r0: Layout)
    returns (oldIds': seq<RoomId>, oldPos': map<RoomId, Cell>)
    requires b.Ready() && z in b.occupied && b.result.On(rid, z)
    requires Recorded(r0, b.result, z, oldIds, oldPos) && rid in oldPos
    modifies b`result, b`occupied
    ensures b.Ready() && Contained(z, old(b.result), old(b.occupied), b.result, b.occupied) && z in b.occupied
    ensures Recorded(r0, b.result, z, oldIds', oldPos') && forall id :: id in oldPos ==> id in oldPos'
    ensures Half(b.result, b.occupied[z], oldPos'.Keys) == Push(Half(old(b.result), old(b.occupied)[z], oldPos.Keys), z, axis, sign, rid, c)
    decreases |b.occupied[z]|
  {
    hide Recorded, Contained, ReadyState, Push, FirstAt;
    oldIds', oldPos' := oldIds, oldPos;
    ghost var r, occ := b.result, b.occupied;
    ghost var s := Half(r, occ[z], oldPos.Keys);
    ReadyParts(b.zone, r, b.floors, occ);
    PushTurn(s, z, axis, sign, {}, rid, c);
    var oid: Option<RoomId> := None;
    if c in b.occupied[z] {
      oid := OccupantOf(b.result, z, c, rid);
    }
    if oid.Some? {
      RecordNew(r0, r, z, oldIds, oldPos, oid.value);
      if oid.value !in oldPos' {
        oldPos' := oldPos'[oid.value := b.result.at[oid.value].AtCell()];
        oldIds' := oldIds' + [oid.value];
      }
      assert oldPos'.Keys == oldPos.Keys + {oid.value};
      b.occupied := b.occupied[z := b.occupied[z] - {c}];
      ghost var occ1 := b.occupied;
      StillReady(b.zone, r, b.floors, occ, r, occ1);
      oldIds', oldPos' := ChainPush(b, z, axis, sign, oid.value, Step(c, axis, sign), oldIds', oldPos', r0);
      PushContained(z, r, occ, occ1, b.result, b.occupied);
      RecordedPut(r0, b.result, z, oldIds', oldPos', rid, c);
    } else {
      SameContained(z, r, occ);
    }
    RecordedPut(r0, b.result, z, oldIds', oldPos', rid, c);
    PutContained(z, r, occ, b.result, b.occupied, rid, c);
    b.result := b.result.Put(rid, At(c, z));
    b.occupied := b.occupied[z := b.occupied[z] + {c}];
    ContainedReady(b.zone, r, b.floors, occ, b.result, b.occupied, z);
  }

  lemma ContainedReady(zone: Zone, r: Layout, floors: seq<int>, occ: Occupancy, r': Layout, occ': Occupancy, z: int)
    requires ReadyState(zone, r, floors, occ) && Contained(z, r, occ, r', occ')
    ensures ReadyState(zone, r', floors, occ')
  {
    hide ReadyState;
    StillReady(zone, r, floors, occ, r', occ');
  }

  /** A pushed room is recorded before it moves. */
  lemma RecordNew(r0: Layout, r: Layout, z: int, oldIds: seq<RoomId>, oldPos: map<RoomId, Cell>, oid: RoomId)
    requires Recorded(r0, r, z, oldIds, oldPos) && r.On(oid, z)
    ensures oid !in oldPos ==> Recorded(r0, r, z, oldIds + [oid], oldPos[oid := r.at[oid].AtCell()])
  {
  }

  lemma RecordedPut(r0: Layout, r: Layout, z: int, oldIds: seq<RoomId>, oldPos: map<RoomId, Cell>, rid: RoomId, c: Cell)
    requires Recorded(r0, r, z, oldIds, oldPos) && rid in oldPos
    ensures Recorded(r0, r.Put(rid, At(c, z)), z, oldIds, oldPos) && r.On(rid, z)
  {
  }

  lemma SameContained(z: int, r: Layout, occ: Occupancy)
    ensures Contained(z, r, occ, r, occ)
  {
  }

  lemma PushContained(z: int, r: Layout, occ: Occupancy, occ1: Occupancy, r': Layout, occ': Occupancy)
    requires z in occ && occ1.Keys == occ.Keys && (forall y :: y in occ && y != z ==> occ1[y] == occ[y])
    requires Contained(z, r, occ1, r', occ')
    ensures Contained(z, r, occ, r', occ') && z in occ'
  {
  }

  lemma PutContained(z: int, r: Layout, occ: Occupancy, r': Layout, occ': Occupancy, rid: RoomId, c: Cell)
    requires Contained(z, r, occ, r', occ') && z in occ && r.On(rid, z)
    ensures z in occ' && Contained(z, r, occ, r'.Put(rid, At(c, z)), occ'[z := occ'[z] + {c}]) && r'.On(rid, z)
  {
  }

  // ---- Groups ----

  /** The union-find classes by root, in the order the roots were met. */
  datatype Groups = Groups(roots: seq<RoomId>, members: map<RoomId, seq<RoomId>>)

  /** The listed rooms of one class, in their order. */
  function ClassIn(root: map<RoomId, RoomId>, k: RoomId, ids: seq<RoomId>): seq<RoomId> {
    if ids == [] then []
    else
      var last := ids[|ids| - 1];
      ClassIn(root, k, ids[..|ids| - 1]) + (if last in root && root[last] == k then [last] else [])
  }

  lemma {:induction false} ClassInStep(root: map<RoomId, RoomId>, k: RoomId, ids: seq<RoomId>, id: RoomId)
    ensures ClassIn(root, k, ids + [id]) == ClassIn(root, k, ids) + if id in root && root[id] == k then [id] else []
    ensures ClassIn(root, k, []) == []
  {
    assert (ids + [id])[..|ids|] == ids;
  }

  lemma {:induction false} NotInClass(root: map<RoomId, RoomId>, k: RoomId, ids: seq<RoomId>)
    requires forall x :: x in ids && x in root ==> root[x] != k
    ensures ClassIn(root, k, ids) == []
  {
    if ids != [] {
      assert ids[|ids| - 1] in ids;
      NotInClass(root, k, ids[..|ids| - 1]);
    }
  }

  /** The rooms of `ids` are grouped by their root. */
  ghost predicate Grouped(r: Layout, z: int, root: map<RoomId, RoomId>, g: Groups, ids: seq<RoomId>) {
    && NoDup(g.roots) && (forall k :: k in g.roots <==> k in g.members)
    && (forall k :: k in g.members ==> g.members[k] != [] && NoDup(g.members[k]))
    && (forall k, x :: k in g.members && x in g.members[k] ==> x in ids && x in root && root[x] == k && r.On(x, z))
    && (forall x {:trigger x in ids} :: x in ids ==> x in root && root[x] in g.members && x in g.members[root[x]])
  }

  /** Each group lists its rooms in the order of `ids`. */
  ghost predicate InClasses(root: map<RoomId, RoomId>, g: Groups, ids: seq<RoomId>) {
    forall k :: k in g.members ==> g.members[k] == ClassIn(root, k, ids)
  }

  ghost predicate GroupsOk(r: Layout, z: int, root: map<RoomId, RoomId>, g: Groups) {
    Grouped(r, z, root, g, FloorRooms(r, z))
  }

  function AddTo(g: Groups, k: RoomId, id: RoomId): Groups {
    if k in g.members then g.(members := g.members[k := g.members[k] + [id]])
    else Groups(g.roots + [k], g.members[k := [id]])
  }

  lemma GroupedStep(r: Layout, z: int, root: map<RoomId, RoomId>, g: Groups, ids: seq<RoomId>, id: RoomId)
    requires Grouped(r, z, root, g, ids) && id !in ids && id in root && r.On(id, z)
    ensures Grouped(r, z, root, AddTo(g, root[id], id), ids + [id])
  {
    var k := root[id];
    var g' := AddTo(g, k, id);
    if k in g.members { assert id !in g.members[k]; }
    forall x {:trigger x in ids + [id]} | x in ids + [id] ensures x in root && root[x] in g'.members && x in g'.members[root[x]] {
      if x != id { assert x in ids; }
    }
  }

  lemma {:induction false} InClassesStep(r: Layout, z: int, root: map<RoomId, RoomId>, g: Groups, ids: seq<RoomId>, id: RoomId)
    requires Grouped(r, z, root, g, ids) && InClasses(root, g, ids) && id in root
    ensures InClasses(root, AddTo(g, root[id], id), ids + [id])
  {
    var g' := AddTo(g, root[id], id);
    assert forall x :: x in ids ==> x in root && root[x] in g.members;
    hide ClassIn, Grouped;
    forall j | j in g'.members ensures g'.members[j] == ClassIn(root, j, ids + [id]) {
      ClassInStep(root, j, ids, id);
      if j !in g.members { NotInClass(root, j, ids); }
    }
  }

  method GroupByRoot(r: Layout, z: int, start: map<RoomId, RoomId>, ghost root: map<RoomId, RoomId>, ghost order: map<RoomId, nat>, ghost top: nat)
    returns (g: Groups, parent: map<RoomId, RoomId>)
    requires r.Valid() && Forest(start, root, order, top) && forall x :: x in root <==> r.On(x, z)
    ensures GroupsOk(r, z, root, g) && Forest(parent, root, order, top) && parent.Keys == root.Keys
    ensures InClasses(root, g, FloorRooms(r, z))
  {
    hide Forest, Grouped, InClasses;
    parent := start;
    g := Groups([], map[]);
    var ids := FloorRooms(r, z);
    Relax.FloorRoomsDistinct(r, z, r.order);
    ForestKeys(start, root, order, top);
    assert ids[..0] == [];
    NoGroups(r, z, root);
    for i := 0 to |ids|
      invariant Forest(parent, root, order, top) && parent.Keys == root.Keys
      invariant Grouped(r, z, root, g, ids[..i]) && InClasses(root, g, ids[..i])
    {
      var id := ids[i];
      assert id in ids;
      TakeStep(ids, i);
      NotBefore(ids, i);
      GroupedStep(r, z, root, g, ids[..i], id);
      InClassesStep(r, z, root, g, ids[..i], id);
      var found;
      found, parent := UfFind(parent, id, root, order, top);
      g := AddTo(g, found, id);
    }
    TakeAll(ids);
  }

  lemma NoGroups(r: Layout, z: int, root: map<RoomId, RoomId>)
    ensures Grouped(r, z, root, Groups([], map[]), []) && InClasses(root, Groups([], map[]), [])
  {
  }

  lemma ForestKeys(parent: map<RoomId, RoomId>, root: map<RoomId, RoomId>, order: map<RoomId, nat>, top: nat)
    requires Forest(parent, root, order, top)
    ensures parent.Keys == root.Keys
  {
  }

  /** The coordinate the axis aligns: the row for east/west, the column for north/south. */
  function Coord(r: Layout, axis: Axis, id: RoomId): int
    requires id in r.at
  {
    if axis.EastWest? then r.at[id].y else r.at[id].x
  }

  /** All placed rooms of the group share the coordinate. */
  ghost predicate Aligned(r: Layout, axis: Axis, group: seq<RoomId>) {
    forall x, y :: x in group && y in group && x in r.at && y in r.at ==> Coord(r, axis, x) == Coord(r, axis, y)
  }

  function CountOf(r: Layout, axis: Axis, group: seq<RoomId>, c: int): nat
    requires forall id :: id in group ==> id in r.at
  {
    if group == [] then 0
    else (if Coord(r, axis, group[|group| - 1]) == c then 1 else 0) + CountOf(r, axis, group[..|group| - 1], c)
  }

  /** No coordinate is more common in the group. */
  ghost predicate IsMode(r: Layout, axis: Axis, group: seq<RoomId>, target: int) {
    (forall id :: id in group ==> id in r.at) && forall c :: CountOf(r, axis, group, c) <= CountOf(r, axis, group, target)
  }

  /** It is the one of the most common coordinates that the group comes to first. */
  ghost predicate FirstMode(r: Layout, axis: Axis, group: seq<RoomId>, target: int) {
    && IsMode(r, axis, group, target)
    && exists i :: 0 <= i < |group| && Coord(r, axis, group[i]) == target
         && forall j :: 0 <= j < i ==> CountOf(r, axis, group, Coord(r, axis, group[j])) < CountOf(r, axis, group, target)
  }

  /** The coordinates are listed as the group comes to them. */
  ghost predicate InOrder(r: Layout, axis: Axis, group: seq<RoomId>, n: nat, coords: seq<int>)
    requires n <= |group| && forall id :: id in group ==> id in r.at
  {
    coords == [] || (InOrder(r, axis, group, n, coords[..|coords| - 1]) && Met(r, axis, group, n, coords[..|coords| - 1], coords[|coords| - 1]))
  }

  ghost predicate Met(r: Layout, axis: Axis, group: seq<RoomId>, n: nat, before: seq<int>, c: int)
    requires n <= |group| && forall id :: id in group ==> id in r.at
  {
    exists i :: 0 <= i < n && NewAt(r, axis, group, i, before, c)
  }

  lemma {:induction false} InOrderLater(r: Layout, axis: Axis, group: seq<RoomId>, n: nat, coords: seq<int>)
    requires n < |group| && (forall id :: id in group ==> id in r.at) && InOrder(r, axis, group, n, coords)
    ensures InOrder(r, axis, group, n + 1, coords)
  {
    hide NewAt;
    if coords != [] { InOrderLater(r, axis, group, n, coords[..|coords| - 1]); }
  }

  lemma {:induction false} InOrderAt(r: Layout, axis: Axis, group: seq<RoomId>, n: nat, coords: seq<int>, m: nat)
    requires n <= |group| && (forall id :: id in group ==> id in r.at) && InOrder(r, axis, group, n, coords) && m < |coords|
    ensures Met(r, axis, group, n, coords[..m], coords[m])
  {
    hide Met;
    if m < |coords| - 1 {
      InOrderAt(r, axis, group, n, coords[..|coords| - 1], m);
      assert coords[..|coords| - 1][..m] == coords[..m];
    }
  }

  /** The group comes to the coordinate at index i, after those listed before. */
  ghost predicate NewAt(r: Layout, axis: Axis, group: seq<RoomId>, i: nat, before: seq<int>, c: int)
    requires i < |group| && forall id :: id in group ==> id in r.at
  {
    Coord(r, axis, group[i]) == c && forall j :: 0 <= j < i ==> Coord(r, axis, group[j]) in before
  }

  lemma {:induction false} InOrderStep(r: Layout, axis: Axis, group: seq<RoomId>, n: nat, coords: seq<int>)
    requires n < |group| && (forall id :: id in group ==> id in r.at) && InOrder(r, axis, group, n, coords)
    requires forall j :: 0 <= j < n ==> Coord(r, axis, group[j]) in coords
    ensures InOrder(r, axis, group, n + 1, coords) && InOrder(r, axis, group, n + 1, coords + [Coord(r, axis, group[n])])
  {
    var after := coords + [Coord(r, axis, group[n])];
    InOrderLater(r, axis, group, n, coords);
    assert after[..|coords|] == coords;
    assert NewAt(r, axis, group, n, coords, Coord(r, axis, group[n]));
    hide NewAt;
  }

  lemma {:induction false} FirstOfThem(r: Layout, axis: Axis, group: seq<RoomId>, coords: seq<int>, freq: map<int, nat>, m: nat)
    requires (forall id :: id in group ==> id in r.at) && Counted(r, axis, group, |group|, coords, freq) && m < |coords|
    requires coords[m] in freq && forall c :: c in coords ==> c in freq && freq[c] <= freq[coords[m]]
    requires forall j :: 0 <= j < m ==> coords[j] in freq && freq[coords[j]] < freq[coords[m]]
    ensures FirstMode(r, axis, group, coords[m]) && exists id :: id in group && Coord(r, axis, id) == coords[m]
  {
    assert group[..|group|] == group;
    var target := coords[m];
    assert target in coords;
    forall c ensures CountOf(r, axis, group, c) <= CountOf(r, axis, group, target) { }
    InOrderAt(r, axis, group, |group|, coords, m);
    var i :| 0 <= i < |group| && NewAt(r, axis, group, i, coords[..m], coords[m]);
    assert group[i] in group;
    forall j | 0 <= j < i ensures CountOf(r, axis, group, Coord(r, axis, group[j])) < CountOf(r, axis, group, target) {
      var k :| 0 <= k < m && coords[..m][k] == Coord(r, axis, group[j]);
      assert coords[k] in freq;
    }
  }

  /** The first of the most common coordinates, and how many different ones there are. */
  method ModeCoord(r: Layout, axis: Axis, group: seq<RoomId>) returns (target: int, different: nat)
    requires group != [] && forall id :: id in group ==> id in r.at
    ensures exists id :: id in group && Coord(r, axis, id) == target
    ensures FirstMode(r, axis, group, target)
    ensures different <= 1 <==> forall a, b :: a in group && b in group ==> Coord(r, axis, a) == Coord(r, axis, b)
  {
    hide Counted, FirstMode;
    var coords: seq<int>, freq: map<int, nat> := [], map[];
    CountedStart(r, axis, group);
    for i := 0 to |group|
      invariant Counted(r, axis, group, i, coords, freq)
    {
      assert group[i] in group;
      CountedStep(r, axis, group, i, coords, freq);
      var c := Coord(r, axis, group[i]);
      if c !in freq { coords := coords + [c]; }
      freq := freq[c := (if c in freq then freq[c] else 0) + 1];
    }
    CountedAll(r, axis, group, coords, freq);
    ghost var m;
    target, m := MostCommon(coords, freq);
    FirstOfThem(r, axis, group, coords, freq, m);
    different := |coords|;
    Different(r, axis, group, coords);
  }

  /** The coordinates of the first n rooms, in the order they were met. */
  ghost predicate Listed(r: Layout, axis: Axis, group: seq<RoomId>, n: nat, coords: seq<int>)
    requires n <= |group| && forall id :: id in group ==> id in r.at
  {
    && NoDup(coords) && InOrder(r, axis, group, n, coords)
    && (forall c :: c in coords <==> exists j :: 0 <= j < n && Coord(r, axis, group[j]) == c)
  }

  /** How often each occurs. */
  ghost predicate Tallied(r: Layout, axis: Axis, group: seq<RoomId>, n: nat, freq: map<int, nat>)
    requires n <= |group| && forall id :: id in group ==> id in r.at
  {
    && (forall id :: id in group[..n] ==> id in r.at)
    && (forall c :: CountOf(r, axis, group[..n], c) == if c in freq then freq[c] else 0)
  }

  /** What the loop has counted of the first n rooms. */
  ghost predicate Counted(r: Layout, axis: Axis, group: seq<RoomId>, n: nat, coords: seq<int>, freq: map<int, nat>)
    requires n <= |group| && forall id :: id in group ==> id in r.at
  {
    Listed(r, axis, group, n, coords) && Tallied(r, axis, group, n, freq) && forall c :: c in coords <==> c in freq
  }

  lemma {:induction false} CountedStart(r: Layout, axis: Axis, group: seq<RoomId>)
    requires forall id :: id in group ==> id in r.at
    ensures Counted(r, axis, group, 0, [], map[])
  {
  }

  lemma {:induction false} CountedStep(r: Layout, axis: Axis, group: seq<RoomId>, n: nat, coords: seq<int>, freq: map<int, nat>)
    requires n < |group| && (forall id :: id in group ==> id in r.at) && Counted(r, axis, group, n, coords, freq)
    ensures var c := Coord(r, axis, group[n]);
            Counted(r, axis, group, n + 1, if c in freq then coords else coords + [c], freq[c := (if c in freq then freq[c] else 0) + 1])
  {
    hide Listed, Tallied, Coord;
    ListedStep(r, axis, group, n, coords);
    TalliedStep(r, axis, group, n, freq);
  }

  lemma {:induction false} TalliedStep(r: Layout, axis: Axis, group: seq<RoomId>, n: nat, freq: map<int, nat>)
    requires n < |group| && (forall id :: id in group ==> id in r.at) && Tallied(r, axis, group, n, freq)
    ensures var c := Coord(r, axis, group[n]); Tallied(r, axis, group, n + 1, freq[c := (if c in freq then freq[c] else 0) + 1])
  {
    hide CountOf;
    var c := Coord(r, axis, group[n]);
    var freq' := freq[c := (if c in freq then freq[c] else 0) + 1];
    assert forall id :: id in group[..n + 1] ==> id in r.at;
    forall d ensures CountOf(r, axis, group[..n + 1], d) == if d in freq' then freq'[d] else 0 { CountStep(r, axis, group, n, d); }
  }

  lemma {:induction false} ListedStep(r: Layout, axis: Axis, group: seq<RoomId>, n: nat, coords: seq<int>)
    requires n < |group| && (forall id :: id in group ==> id in r.at) && Listed(r, axis, group, n, coords)
    ensures var c := Coord(r, axis, group[n]); Listed(r, axis, group, n + 1, if c in coords then coords else coords + [c])
  {
    hide InOrder;
    forall j | 0 <= j < n ensures Coord(r, axis, group[j]) in coords { }
    InOrderStep(r, axis, group, n, coords);
    MetStep(r, axis, group, n, coords);
  }

  lemma {:induction false} MetStep(r: Layout, axis: Axis, group: seq<RoomId>, n: nat, coords: seq<int>)
    requires n < |group| && (forall id :: id in group ==> id in r.at) && NoDup(coords)
    requires forall c :: c in coords <==> exists j :: 0 <= j < n && Coord(r, axis, group[j]) == c
    ensures var c := Coord(r, axis, group[n]); var after := if c in coords then coords else coords + [c];
            NoDup(after) && forall d :: d in after <==> exists j :: 0 <= j < n + 1 && Coord(r, axis, group[j]) == d
  {
    var c := Coord(r, axis, group[n]);
    var after := if c in coords then coords else coords + [c];
    forall d ensures d in after <==> exists j :: 0 <= j < n + 1 && Coord(r, axis, group[j]) == d {
      if d in coords { var j :| 0 <= j < n && Coord(r, axis, group[j]) == d; }
      if d == c { assert Coord(r, axis, group[n]) == d; }
    }
  }

  lemma {:induction false} CountStep(r: Layout, axis: Axis, group: seq<RoomId>, n: nat, d: int)
    requires n < |group| && forall id :: id in group ==> id in r.at
    ensures (forall id :: id in group[..n] ==> id in r.at) && forall id :: id in group[..n + 1] ==> id in r.at
    ensures CountOf(r, axis, group[..n + 1], d) == CountOf(r, axis, group[..n], d) + if Coord(r, axis, group[n]) == d then 1 else 0
  {
    assert group[..n + 1][..n] == group[..n] && group[..n + 1][n] == group[n];
  }

  lemma {:induction false} CountedAll(r: Layout, axis: Axis, group: seq<RoomId>, coords: seq<int>, freq: map<int, nat>)
    requires group != [] && (forall id :: id in group ==> id in r.at) && Counted(r, axis, group, |group|, coords, freq)
    ensures coords != [] && NoDup(coords) && forall c :: c in coords ==> c in freq && freq[c] > 0
    ensures forall c :: c in coords <==> exists j :: 0 <= j < |group| && Coord(r, axis, group[j]) == c
  {
    assert group[..|group|] == group;
    hide InOrder;
    assert Coord(r, axis, group[0]) in coords;
    forall c | c in coords ensures freq[c] > 0 { CountPositive(r, axis, group, c); }
  }

  /** The first coordinate with the highest count. */
  method MostCommon(coords: seq<int>, freq: map<int, nat>) returns (target: int, ghost m: nat)
    requires coords != [] && forall c :: c in coords ==> c in freq && freq[c] > 0
    ensures target in coords && forall c :: c in coords ==> freq[c] <= freq[target]
    ensures m < |coords| && coords[m] == target && forall j :: 0 <= j < m ==> coords[j] in freq && freq[coords[j]] < freq[target]
  {
    target, m := 0, 0;
    var maxCount := 0;
    for i := 0 to |coords|
      invariant i == 0 ==> maxCount == 0
      invariant i > 0 ==> target in coords && maxCount == freq[target]
      invariant i > 0 ==> m < i && coords[m] == target && forall j :: 0 <= j < m ==> coords[j] in freq && freq[coords[j]] < freq[target]
      invariant forall c :: c in coords[..i] ==> freq[c] <= maxCount
    {
      TakeStep(coords, i);
      var c := coords[i];
      assert c in coords;
      if freq[c] > maxCount {
        forall j | 0 <= j < i ensures coords[j] in freq && freq[coords[j]] < freq[c] {
          var d := coords[j];
          assert d in coords && d in coords[..i];
        }
        maxCount := freq[c];
        target, m := c, i;
      }
    }
    TakeAll(coords);
  }

  lemma Different(r: Layout, axis: Axis, group: seq<RoomId>, coords: seq<int>)
    requires group != [] && NoDup(coords) && forall id :: id in group ==> id in r.at
    requires forall c :: c in coords <==> exists j :: 0 <= j < |group| && Coord(r, axis, group[j]) == c
    ensures |coords| <= 1 <==> forall a, b :: a in group && b in group ==> Coord(r, axis, a) == Coord(r, axis, b)
  {
    if |coords| <= 1 {
      forall a, b | a in group && b in group ensures Coord(r, axis, a) == Coord(r, axis, b) {
        assert Coord(r, axis, a) in coords && Coord(r, axis, b) in coords;
      }
    } else {
      assert coords[0] in coords && coords[1] in coords;
      var i :| 0 <= i < |group| && Coord(r, axis, group[i]) == coords[0];
      var j :| 0 <= j < |group| && Coord(r, axis, group[j]) == coords[1];
      assert group[i] in group && group[j] in group;
    }
  }

  lemma {:induction false} CountPositive(r: Layout, axis: Axis, group: seq<RoomId>, c: int)
    requires forall id :: id in group ==> id in r.at
    requires exists j :: 0 <= j < |group| && Coord(r, axis, group[j]) == c
    ensures CountOf(r, axis, group, c) > 0
  {
    var front := group[..|group| - 1];
    if Coord(r, axis, group[|group| - 1]) != c {
      var j :| 0 <= j < |group| && Coord(r, axis, group[j]) == c;
      assert front[j] == group[j];
      CountPositive(r, axis, front, c);
    }
  }

  /** The rooms of a group off the coordinate of its first member. */
  function MisalignedIn(r: Layout, axis: Axis, c0: int, group: seq<RoomId>): nat
    requires forall id :: id in group ==> id in r.at
  {
    if group == [] then 0 else (if Coord(r, axis, group[0]) != c0 then 1 else 0) + MisalignedIn(r, axis, c0, group[1..])
  }

  function MisalignedAmong(r: Layout, axis: Axis, g: Groups, roots: seq<RoomId>): nat
    requires forall k :: k in roots ==> k in g.members && g.members[k] != [] && forall id :: id in g.members[k] ==> id in r.at
  {
    if roots == [] then 0
    else
      var group := g.members[roots[0]];
      MisalignedIn(r, axis, Coord(r, axis, group[0]), group) + MisalignedAmong(r, axis, g, roots[1..])
  }

  ghost predicate GroupsPlaced(r: Layout, g: Groups) {
    forall k :: k in g.roots ==> k in g.members && g.members[k] != [] && forall id :: id in g.members[k] ==> id in r.at
  }

  /** countMisaligned over all groups. */
  function Misaligned(r: Layout, axis: Axis, g: Groups): nat
    requires GroupsPlaced(r, g)
  {
    MisalignedAmong(r, axis, g, g.roots)
  }

  // ---- The cascade of one outlier ----

  /** The members of another multi-room group, each added once. */
  method PullGroup(cascade: seq<RoomId>, group: seq<RoomId>, ghost allowed: set<RoomId>) returns (cascade': seq<RoomId>)
    requires NoDup(cascade) && (forall x :: x in cascade ==> x in allowed) && forall x :: x in group ==> x in allowed
    ensures NoDup(cascade') && cascade <= cascade' && forall x :: x in cascade' <==> x in cascade || x in group
  {
    cascade' := cascade;
    for i := 0 to |group|
      invariant NoDup(cascade') && cascade <= cascade' && forall x :: x in cascade' <==> x in cascade || x in group[..i]
    {
      assert group[..i + 1] == group[..i] + [group[i]];
      if group[i] !in cascade' { cascade' := cascade' + [group[i]]; }
    }
    assert group[..|group|] == group;
  }

  /** The next room brings its whole class along, unless that is the outlier's own. */
  ghost predicate Drags(root: map<RoomId, RoomId>, mine: RoomId, next: RoomId, x: RoomId) {
    next in root && root[next] != mine && x in root && root[x] == root[next]
  }

  /** Of every room but the outlier the whole class is there. */
  ghost predicate WholeClasses(root: map<RoomId, RoomId>, mobile: RoomId, cascade: seq<RoomId>) {
    forall x, y :: x in cascade && x != mobile && x in root && y in root && root[y] == root[x] ==> y in cascade
  }

  /** One perpendicular neighbour: stop at the outlier's own group, otherwise pull in the room
      with its whole group. */
  method Pull(r: Layout, z: int, g: Groups, start: map<RoomId, RoomId>, cascade: seq<RoomId>, mobile: RoomId, next: RoomId,
              ghost root: map<RoomId, RoomId>, ghost order: map<RoomId, nat>, ghost top: nat)
    returns (cascade': seq<RoomId>, parent: map<RoomId, RoomId>)
    requires r.Valid() && Forest(start, root, order, top) && start.Keys == root.Keys && GroupsOk(r, z, root, g) && (forall x :: x in root <==> r.On(x, z))
    requires mobile in root && CascadeOk(r, z, root, mobile, cascade) && WholeClasses(root, mobile, cascade)
    ensures Forest(parent, root, order, top) && parent.Keys == root.Keys
    ensures CascadeOk(r, z, root, mobile, cascade') && cascade <= cascade' && WholeClasses(root, mobile, cascade')
    ensures forall x :: x in cascade' <==> x in cascade || Drags(root, root[mobile], next, x)
  {
    hide Forest, GroupsOk;
    cascade', parent := cascade, start;
    if next in cascade { return; }
    if !r.On(next, z) { return; }
    var mine, theirs;
    theirs, parent := UfFind(parent, next, root, order, top);
    mine, parent := UfFind(parent, mobile, root, order, top);
    if theirs == mine { return; }
    cascade' := cascade + [next];
    ClassMembers(r, z, g, root, next);
    if theirs in g.members && |g.members[theirs]| > 1 {
      cascade' := PullGroup(cascade', g.members[theirs], set x | x in root && (x == mobile || root[x] != root[mobile]));
    }
  }

  /** The group of a room lists its class. */
  lemma ClassMembers(r: Layout, z: int, g: Groups, root: map<RoomId, RoomId>, next: RoomId)
    requires r.Valid() && GroupsOk(r, z, root, g) && next in root && forall x :: x in root <==> r.On(x, z)
    ensures root[next] in g.members && forall x :: x in g.members[root[next]] <==> x in root && root[x] == root[next]
    ensures |g.members[root[next]]| <= 1 ==> forall x :: x in g.members[root[next]] ==> x == next
  {
    assert next in FloorRooms(r, z);
    forall x | x in root && root[x] == root[next] ensures x in g.members[root[next]] { assert x in FloorRooms(r, z); }
  }

  /** The cascade holds rooms of the floor, and of the outlier's own group only the outlier. */
  ghost predicate CascadeOk(r: Layout, z: int, root: map<RoomId, RoomId>, mobile: RoomId, cascade: seq<RoomId>) {
    && NoDup(cascade) && mobile in cascade && mobile in root
    && forall x :: x in cascade ==> x in root && r.On(x, z) && (x == mobile || root[x] != root[mobile])
  }

  /** A room drags the classes of its neighbours along the other axis. */
  ghost predicate Dragged(zone: Zone, axis: Axis, root: map<RoomId, RoomId>, mine: RoomId, cur: RoomId, x: RoomId) {
    || (exists e :: e in zone.Out(cur) && axis.Other().Includes(e.dir) && Drags(root, mine, e.to, x))
    || (exists e :: e in zone.In(cur) && axis.Other().Includes(e.dir) && Drags(root, mine, e.from, x))
  }

  ghost function DragForces(zone: Zone, axis: Axis, root: map<RoomId, RoomId>, mine: RoomId): (RoomId, RoomId) -> bool {
    (cur: RoomId, x: RoomId) => Dragged(zone, axis, root, mine, cur, x)
  }

  /** One turn of the cascade: everything its room drags. */
  method CascadeTurn(zone: Zone, r: Layout, z: int, axis: Axis, g: Groups, start: map<RoomId, RoomId>, mobile: RoomId, cur: RoomId, before: seq<RoomId>,
                     ghost root: map<RoomId, RoomId>, ghost order: map<RoomId, nat>, ghost top: nat)
    returns (cascade: seq<RoomId>, parent: map<RoomId, RoomId>)
    requires r.Valid() && Forest(start, root, order, top) && start.Keys == root.Keys && GroupsOk(r, z, root, g)
    requires mobile in root && forall x :: x in root <==> r.On(x, z)
    requires CascadeOk(r, z, root, mobile, before) && WholeClasses(root, mobile, before)
    ensures Forest(parent, root, order, top) && parent.Keys == root.Keys
    ensures CascadeOk(r, z, root, mobile, cascade) && WholeClasses(root, mobile, cascade) && before <= cascade
    ensures forall x :: x in cascade <==> x in before || DragForces(zone, axis, root, root[mobile])(cur, x)
  {
    hide Forest, GroupsOk, CascadeOk, WholeClasses, Drags, Zone.Out, Zone.In;
    cascade, parent := before, start;
    var out, back := zone.Out(cur), zone.In(cur);
    for i := 0 to |out|
      invariant CascadeOk(r, z, root, mobile, cascade) && WholeClasses(root, mobile, cascade) && before <= cascade
      invariant Forest(parent, root, order, top) && parent.Keys == root.Keys
      invariant forall x :: x in cascade <==> x in before || exists e :: e in out[..i] && axis.Other().Includes(e.dir) && Drags(root, root[mobile], e.to, x)
    {
      TakeStep(out, i);
      if axis.Other().Includes(out[i].dir) {
        cascade, parent := Pull(r, z, g, parent, cascade, mobile, out[i].to, root, order, top);
      }
    }
    TakeAll(out);
    ghost var middle := cascade;
    for i := 0 to |back|
      invariant CascadeOk(r, z, root, mobile, cascade) && WholeClasses(root, mobile, cascade) && before <= cascade
      invariant Forest(parent, root, order, top) && parent.Keys == root.Keys
      invariant forall x :: x in cascade <==> x in middle || exists e :: e in back[..i] && axis.Other().Includes(e.dir) && Drags(root, root[mobile], e.from, x)
    {
      TakeStep(back, i);
      if axis.Other().Includes(back[i].dir) {
        cascade, parent := Pull(r, z, g, parent, cascade, mobile, back[i].from, root, order, top);
      }
    }
    TakeAll(back);
  }

  /** The least set with the outlier and all that its rooms drag along. */
  method Cascade(zone: Zone, r: Layout, z: int, axis: Axis, g: Groups, start: map<RoomId, RoomId>, mobile: RoomId,
                 ghost root: map<RoomId, RoomId>, ghost order: map<RoomId, nat>, ghost top: nat)
    returns (cascade: seq<RoomId>, parent: map<RoomId, RoomId>)
    requires r.Valid() && Forest(start, root, order, top) && start.Keys == root.Keys && GroupsOk(r, z, root, g)
    requires mobile in root && forall x :: x in root <==> r.On(x, z)
    ensures Forest(parent, root, order, top) && parent.Keys == root.Keys
    ensures CascadeOk(r, z, root, mobile, cascade) && cascade != [] && cascade[0] == mobile
    ensures forall x :: x in cascade <==> Reached(DragForces(zone, axis, root, root[mobile]), mobile, x)
  {
    hide Forest, GroupsOk, CascadeOk, WholeClasses, DragForces, Least, Reached;
    cascade, parent := [mobile], start;
    ghost var forces := DragForces(zone, axis, root, root[mobile]);
    LeastStart(forces, mobile);
    CascadeAlone(r, z, root, mobile);
    var head := 0;
    while head < |cascade|
      invariant 0 <= head <= |cascade| && CascadeOk(r, z, root, mobile, cascade) && WholeClasses(root, mobile, cascade)
      invariant Forest(parent, root, order, top) && parent.Keys == root.Keys
      invariant Least(forces, mobile, cascade) && [mobile] <= cascade
      invariant forall i, x :: 0 <= i < head && forces(cascade[i], x) ==> x in cascade
      decreases |r.order| - head
    {
      CascadeParts(r, z, root, mobile, cascade);
      DistinctWithin(cascade, r.order);
      ghost var before := cascade;
      var cur := cascade[head];
      assert cur in cascade;
      head := head + 1;
      cascade, parent := CascadeTurn(zone, r, z, axis, g, parent, mobile, cur, cascade, root, order, top);
      LeastGrows(forces, mobile, before, cur, cascade);
      CascadeParts(r, z, root, mobile, cascade);
    }
    assert mobile in cascade;
    ReachedIsMember(forces, mobile, cascade);
  }

  lemma CascadeAlone(r: Layout, z: int, root: map<RoomId, RoomId>, mobile: RoomId)
    requires mobile in root && r.On(mobile, z)
    ensures CascadeOk(r, z, root, mobile, [mobile]) && WholeClasses(root, mobile, [mobile])
  {
  }

  lemma CascadeParts(r: Layout, z: int, root: map<RoomId, RoomId>, mobile: RoomId, cascade: seq<RoomId>)
    requires CascadeOk(r, z, root, mobile, cascade) && r.Valid()
    ensures NoDup(cascade) && mobile in cascade && forall x :: x in cascade ==> x in r.order && x in root
  {
  }

  // ---- One group ----

  /** Rooms and their deltas, in the order they joined the batch. */
  datatype Batch = Batch(ids: seq<RoomId>, delta: map<RoomId, int>)

  ghost predicate BatchOk(r: Layout, z: int, batch: Batch) {
    && NoDup(batch.ids) && (forall id :: id in batch.ids <==> id in batch.delta)
    && (forall id :: id in batch.ids ==> r.On(id, z))
  }

  method JoinBatch(r: Layout, z: int, ghost root: map<RoomId, RoomId>, ghost mobile: RoomId, start: Batch, cascade: seq<RoomId>, delta: int)
    returns (batch: Batch)
    requires BatchOk(r, z, start) && CascadeOk(r, z, root, mobile, cascade)
    ensures BatchOk(r, z, batch) && forall id :: id in batch.ids <==> id in start.ids || id in cascade
    ensures start.ids <= batch.ids && (start.ids == [] && cascade != [] ==> batch.ids != [] && batch.ids[0] == cascade[0])
    ensures forall id :: id in batch.delta ==> if id in start.delta then batch.delta[id] == start.delta[id] else batch.delta[id] == delta
  {
    batch := start;
    for i := 0 to |cascade|
      invariant BatchOk(r, z, batch) && forall id :: id in batch.ids <==> id in start.ids || id in cascade[..i]
      invariant (i == 0 ==> batch == start) && start.ids <= batch.ids && (start.ids == [] && i > 0 ==> batch.ids != [] && batch.ids[0] == cascade[0])
      invariant forall id :: id in batch.delta ==> if id in start.delta then batch.delta[id] == start.delta[id] else batch.delta[id] == delta
    {
      TakeStep(cascade, i);
      assert cascade[i] in cascade;
      if cascade[i] !in batch.delta { batch := Batch(batch.ids + [cascade[i]], batch.delta[cascade[i] := delta]); }
    }
    TakeAll(cascade);
  }

  /** The way from some outlier of the group to the target. */
  ghost predicate DeltaOf(r: Layout, axis: Axis, group: seq<RoomId>, target: int, delta: int) {
    delta != 0 && exists m :: m in group && m in r.at && target - Coord(r, axis, m) == delta
  }

  /** The group's rooms are all on one side of the target. */
  ghost predicate OneSided(r: Layout, axis: Axis, group: seq<RoomId>, target: int) {
    || (forall m :: m in group && m in r.at ==> Coord(r, axis, m) >= target)
    || (forall m :: m in group && m in r.at ==> Coord(r, axis, m) <= target)
  }

  /** The outlier at index j of the group reaches the room. */
  ghost predicate Leads(zone: Zone, r: Layout, axis: Axis, root: map<RoomId, RoomId>, k: RoomId, group: seq<RoomId>, target: int, j: int, id: RoomId) {
    && 0 <= j < |group| && group[j] in r.at && Coord(r, axis, group[j]) != target
    && Reached(DragForces(zone, axis, root, k), group[j], id)
  }

  /** No other outlier of the group comes before it. */
  ghost predicate LeadsFirst(zone: Zone, r: Layout, axis: Axis, root: map<RoomId, RoomId>, k: RoomId, group: seq<RoomId>, target: int, j: int, id: RoomId) {
    Leads(zone, r, axis, root, k, group, target, j, id) && forall i :: 0 <= i < j ==> !Leads(zone, r, axis, root, k, group, target, i, id)
  }

  /** The batch is every room that an outlier reaches, each with the way of the first that does. */
  ghost predicate Batched(zone: Zone, r: Layout, axis: Axis, root: map<RoomId, RoomId>, k: RoomId, group: seq<RoomId>, target: int, n: nat, batch: Batch) {
    && (forall id, j :: 0 <= j < n && Leads(zone, r, axis, root, k, group, target, j, id) ==> id in batch.delta)
    && (forall id :: id in batch.delta ==>
         exists j :: 0 <= j < n && LeadsFirst(zone, r, axis, root, k, group, target, j, id) && batch.delta[id] == target - Coord(r, axis, group[j]))
  }

  /** The batch starts with the first outlier, if there is one among the first n rooms. */
  ghost predicate LedBy(r: Layout, axis: Axis, group: seq<RoomId>, target: int, n: nat, batch: Batch)
    requires n <= |group|
  {
    if batch.ids == [] then forall i :: 0 <= i < n ==> OnTarget(r, axis, target, group[i])
    else exists j :: 0 <= j < n && FirstOutlier(r, axis, group, target, j) && group[j] == batch.ids[0]
  }

  ghost predicate FirstOutlier(r: Layout, axis: Axis, group: seq<RoomId>, target: int, j: int) {
    0 <= j < |group| && !OnTarget(r, axis, target, group[j]) && forall i :: 0 <= i < j ==> OnTarget(r, axis, target, group[i])
  }

  predicate OnTarget(r: Layout, axis: Axis, target: int, id: RoomId) {
    id in r.at && Coord(r, axis, id) == target
  }

  lemma LedByJoin(r: Layout, axis: Axis, group: seq<RoomId>, target: int, n: nat, before: Batch, batch: Batch)
    requires n < |group| && LedBy(r, axis, group, target, n, before) && !OnTarget(r, axis, target, group[n])
    requires batch.ids != [] && before.ids <= batch.ids && (before.ids == [] ==> batch.ids[0] == group[n])
    ensures LedBy(r, axis, group, target, n + 1, batch)
  {
    if before.ids == [] {
      assert FirstOutlier(r, axis, group, target, n);
    } else {
      var j :| 0 <= j < n && FirstOutlier(r, axis, group, target, j) && group[j] == before.ids[0];
    }
  }

  lemma BatchedSkip(zone: Zone, r: Layout, axis: Axis, root: map<RoomId, RoomId>, k: RoomId, group: seq<RoomId>, target: int, n: nat, batch: Batch)
    requires Batched(zone, r, axis, root, k, group, target, n, batch) && n < |group|
    requires group[n] in r.at && Coord(r, axis, group[n]) != target ==> group[n] in batch.delta
    ensures Batched(zone, r, axis, root, k, group, target, n + 1, batch)
  {
    hide DragForces, Reached;
    forall id | Leads(zone, r, axis, root, k, group, target, n, id) ensures id in batch.delta {
      var j :| 0 <= j < n && LeadsFirst(zone, r, axis, root, k, group, target, j, group[n]);
      ReachedTrans(DragForces(zone, axis, root, k), group[j], group[n], id);
      assert Leads(zone, r, axis, root, k, group, target, j, id);
    }
  }

  lemma BatchedJoin(zone: Zone, r: Layout, z: int, axis: Axis, root: map<RoomId, RoomId>, k: RoomId, group: seq<RoomId>, target: int, n: nat,
                    before: Batch, cascade: seq<RoomId>, batch: Batch)
    requires Batched(zone, r, axis, root, k, group, target, n, before) && n < |group| && group[n] in r.at && Coord(r, axis, group[n]) != target
    requires forall x :: x in cascade <==> Reached(DragForces(zone, axis, root, k), group[n], x)
    requires forall id :: id in batch.delta <==> id in before.delta || id in cascade
    requires forall id :: id in batch.delta ==> if id in before.delta then batch.delta[id] == before.delta[id] else batch.delta[id] == target - Coord(r, axis, group[n])
    ensures Batched(zone, r, axis, root, k, group, target, n + 1, batch)
  {
    hide DragForces, Reached;
    forall id | id in batch.delta
      ensures exists j :: 0 <= j < n + 1 && LeadsFirst(zone, r, axis, root, k, group, target, j, id) && batch.delta[id] == target - Coord(r, axis, group[j])
    {
      if id in before.delta {
        var j :| 0 <= j < n && LeadsFirst(zone, r, axis, root, k, group, target, j, id) && before.delta[id] == target - Coord(r, axis, group[j]);
      } else {
        assert LeadsFirst(zone, r, axis, root, k, group, target, n, id);
      }
    }
  }

  lemma BatchedDelta(zone: Zone, r: Layout, axis: Axis, root: map<RoomId, RoomId>, k: RoomId, group: seq<RoomId>, target: int, batch: Batch)
    requires Batched(zone, r, axis, root, k, group, target, |group|, batch)
    ensures forall id :: id in batch.delta ==> DeltaOf(r, axis, group, target, batch.delta[id])
    ensures forall id :: id in group && id in r.at && Coord(r, axis, id) != target ==> id in batch.delta
  {
    hide DragForces;
    forall id | id in batch.delta ensures DeltaOf(r, axis, group, target, batch.delta[id]) {
      var j :| 0 <= j < |group| && LeadsFirst(zone, r, axis, root, k, group, target, j, id) && batch.delta[id] == target - Coord(r, axis, group[j]);
      assert group[j] in group;
    }
    forall id | id in group && id in r.at && Coord(r, axis, id) != target ensures id in batch.delta {
      var j :| 0 <= j < |group| && group[j] == id;
      assert Leads(zone, r, axis, root, k, group, target, j, id);
    }
  }

  /** Every outlier of the group with its perpendicular cascade, each room with the delta of the
      first outlier that reached it. */
  method CollectBatch(zone: Zone, r: Layout, z: int, axis: Axis, g: Groups, group: seq<RoomId>, target: int, start: map<RoomId, RoomId>,
                      ghost root: map<RoomId, RoomId>, ghost order: map<RoomId, nat>, ghost top: nat, ghost k: RoomId)
    returns (batch: Batch, parent: map<RoomId, RoomId>)
    requires r.Valid() && Forest(start, root, order, top) && start.Keys == root.Keys && GroupsOk(r, z, root, g)
    requires (forall x :: x in root <==> r.On(x, z)) && forall id :: id in group ==> id in root && root[id] == k && r.On(id, z)
    ensures BatchOk(r, z, batch) && Forest(parent, root, order, top) && parent.Keys == root.Keys
    ensures Batched(zone, r, axis, root, k, group, target, |group|, batch) && LedBy(r, axis, group, target, |group|, batch)
  {
    hide Forest, GroupsOk, CascadeOk, Batched, DragForces, Reached, FirstOutlier;
    batch, parent := Batch([], map[]), start;
    EmptyBatch(zone, r, z, axis, root, k, group, target);
    for i := 0 to |group|
      invariant BatchOk(r, z, batch) && Forest(parent, root, order, top) && parent.Keys == root.Keys
      invariant Batched(zone, r, axis, root, k, group, target, i, batch) && LedBy(r, axis, group, target, i, batch)
    {
      var mobile := group[i];
      assert mobile in group;
      if Coord(r, axis, mobile) == target || mobile in batch.ids {
        BatchedSkip(zone, r, axis, root, k, group, target, i, batch);
        continue;
      }
      var delta := target - Coord(r, axis, mobile);
      var cascade;
      cascade, parent := Cascade(zone, r, z, axis, g, parent, mobile, root, order, top);
      ghost var before := batch;
      batch := JoinBatch(r, z, root, mobile, batch, cascade, delta);
      BatchedJoin(zone, r, z, axis, root, k, group, target, i, before, cascade, batch);
      assert cascade[0] in batch.ids;
      LedByJoin(r, axis, group, target, i, before, batch);
    }
  }

  lemma EmptyBatch(zone: Zone, r: Layout, z: int, axis: Axis, root: map<RoomId, RoomId>, k: RoomId, group: seq<RoomId>, target: int)
    ensures BatchOk(r, z, Batch([], map[])) && Batched(zone, r, axis, root, k, group, target, 0, Batch([], map[]))
  {
  }

  /** At least as far in the push direction. */
  predicate Ahead(sign: int, a: int, b: int) {
    if sign == 1 then a >= b else a <= b
  }

  /** Insertion of a room by its old coordinate, furthest in the push direction first. */
  function InsertByCoord(r: Layout, axis: Axis, sign: int, id: RoomId, s: seq<RoomId>): (t: seq<RoomId>)
    requires id in r.at && forall x :: x in s ==> x in r.at
    ensures forall x :: x in t <==> x in s || x == id
  {
    if s == [] || Ahead(sign, Coord(r, axis, id), Coord(r, axis, s[0])) then [id] + s
    else [s[0]] + InsertByCoord(r, axis, sign, id, s[1..])
  }

  function SortByCoord(r: Layout, axis: Axis, sign: int, s: seq<RoomId>): (t: seq<RoomId>)
    requires forall x :: x in s ==> x in r.at
    ensures forall x :: x in t <==> x in s
  {
    if s == [] then [] else InsertByCoord(r, axis, sign, s[0], SortByCoord(r, axis, sign, s[1..]))
  }

  /** Every room is at least as far in the push direction as those after it. */
  ghost predicate Ordered(r: Layout, axis: Axis, sign: int, s: seq<RoomId>) {
    s == [] || (s[0] in r.at && FurtherThan(r, axis, sign, s[0], s[1..]) && Ordered(r, axis, sign, s[1..]))
  }

  ghost predicate FurtherThan(r: Layout, axis: Axis, sign: int, id: RoomId, s: seq<RoomId>)
    requires id in r.at
  {
    forall x :: x in s ==> x in r.at && Ahead(sign, Coord(r, axis, id), Coord(r, axis, x))
  }

  lemma OrderedParts(r: Layout, axis: Axis, sign: int, s: seq<RoomId>)
    requires Ordered(r, axis, sign, s)
    ensures s != [] ==> s[0] in r.at && FurtherThan(r, axis, sign, s[0], s[1..]) && Ordered(r, axis, sign, s[1..])
    ensures Ordered(r, axis, sign, [])
  {
  }

  lemma OrderedCons(r: Layout, axis: Axis, sign: int, id: RoomId, s: seq<RoomId>)
    requires id in r.at && id !in s && NoDup(s) && FurtherThan(r, axis, sign, id, s) && Ordered(r, axis, sign, s)
    ensures NoDup([id] + s) && Ordered(r, axis, sign, [id] + s)
  {
    assert ([id] + s)[1..] == s;
  }

  lemma {:induction false} InsertOrdered(r: Layout, axis: Axis, sign: int, id: RoomId, s: seq<RoomId>)
    requires id in r.at && (forall x :: x in s ==> x in r.at) && id !in s && NoDup(s) && Ordered(r, axis, sign, s)
    ensures NoDup(InsertByCoord(r, axis, sign, id, s)) && Ordered(r, axis, sign, InsertByCoord(r, axis, sign, id, s))
  {
    hide Ordered;
    OrderedParts(r, axis, sign, s);
    if s == [] {
      assert [id] + [] == [id];
      OrderedCons(r, axis, sign, id, []);
    } else if Ahead(sign, Coord(r, axis, id), Coord(r, axis, s[0])) {
      forall x | x in s ensures Ahead(sign, Coord(r, axis, id), Coord(r, axis, x)) { assert x == s[0] || x in s[1..]; }
      OrderedCons(r, axis, sign, id, s);
    } else {
      NoDupTail(s);
      InsertOrdered(r, axis, sign, id, s[1..]);
      var rest := InsertByCoord(r, axis, sign, id, s[1..]);
      hide InsertByCoord;
      forall x | x in rest ensures x != s[0] && Ahead(sign, Coord(r, axis, s[0]), Coord(r, axis, x)) { assert x in s[1..] || x == id; }
      OrderedCons(r, axis, sign, s[0], rest);
    }
  }

  lemma {:induction false} SortOrdered(r: Layout, axis: Axis, sign: int, s: seq<RoomId>)
    requires (forall x :: x in s ==> x in r.at) && NoDup(s)
    ensures NoDup(SortByCoord(r, axis, sign, s)) && Ordered(r, axis, sign, SortByCoord(r, axis, sign, s))
  {
    if s != [] {
      NoDupTail(s);
      SortOrdered(r, axis, sign, s[1..]);
      InsertOrdered(r, axis, sign, s[0], SortByCoord(r, axis, sign, s[1..]));
    }
  }

  // ---- Shifting the batch ----

  /** Every room of the batch moves in the push direction. */
  ghost predicate OneWay(batch: Batch, sign: int) {
    forall id :: id in batch.delta ==> batch.delta[id] != 0 && Ahead(sign, batch.delta[id], 0)
  }

  /** Each room's new cell. */
  function Targets(r: Layout, axis: Axis, batch: Batch): map<RoomId, Cell> {
    map id | id in batch.delta && id in r.at ::
      if axis.EastWest? then Cell(r.at[id].x, r.at[id].y + batch.delta[id]) else Cell(r.at[id].x + batch.delta[id], r.at[id].y)
  }

  function BatchHome(r: Layout, batch: Batch): map<RoomId, Cell> {
    map id | id in batch.delta && id in r.at :: r.at[id].AtCell()
  }

  /** The floor with the batch off the board. */
  function Raised(r: Layout, cells: set<Cell>, batch: Batch): Half {
    Half(r, cells - Cells(BatchHome(r, batch)), BatchHome(r, batch).Keys)
  }

  /** The floor after the batch was put back, the furthest in the push direction first. */
  function AfterShift(r: Layout, cells: set<Cell>, z: int, axis: Axis, sign: int, batch: Batch): Half
    requires forall id :: id in batch.ids ==> id in r.at
  {
    PushAll(Raised(r, cells, batch), z, axis, sign, SortByCoord(r, axis, sign, batch.ids), Targets(r, axis, batch))
  }

  /** No push of the batch finds a room in its way that is yet to be put back. */
  predicate CleanShift(r: Layout, cells: set<Cell>, z: int, axis: Axis, sign: int, batch: Batch)
    requires forall id :: id in batch.ids ==> id in r.at
  {
    StraysAll(Raised(r, cells, batch), z, axis, sign, SortByCoord(r, axis, sign, batch.ids), Targets(r, axis, batch)) == 0
  }

  /** Taking the batch off the board: nobody off the board stands on an occupied cell. */
  lemma RaisedLoose(r: Layout, occ: Occupancy, z: int, batch: Batch, sorted: seq<RoomId>)
    requires Agrees(r, occ) && z in occ && BatchOk(r, z, batch) && forall id :: id in sorted <==> id in batch.ids
    ensures Loose(r, Raised(r, occ[z], batch).cells, z, Members(sorted))
  {
    var home := BatchHome(r, batch);
    var cells, off := occ[z] - Cells(home), Members(sorted);
    forall id ensures id in off ==> id in r.at && r.at[id].AtCell() !in cells {
      if id in off { assert home[id] == r.at[id].AtCell(); }
    }
    forall c ensures c in cells <==> exists id :: id in r.at && id !in off && r.at[id] == At(c, z) {
      if c in cells {
        assert Taken(r, z, c);
        var id :| id in r.at && r.at[id] == At(c, z);
        assert id !in off;
      }
      if id :| id in r.at && id !in off && r.at[id] == At(c, z) {
        assert Taken(r, z, c);
        assert forall x :: x in home ==> r.at[x] != r.at[id];
      }
    }
  }

  /** One floor of a board that changed on that floor only agrees exactly when the board does. */
  lemma ExactIsAgreeing(r0: Layout, occ0: Occupancy, r: Layout, occ: Occupancy, z: int)
    requires Agrees(r0, occ0) && Contained(z, r0, occ0, r, occ) && z in occ
    ensures Agrees(r, occ) <==> BoardExact(r, occ[z], z, {})
  {
    if BoardExact(r, occ[z], z, {}) {
      forall y, c | y in occ ensures c in occ[y] <==> Taken(r, y, c) {
        if y != z {
          if Taken(r, y, c) {
            var id :| id in r.at && r.at[id] == At(c, y);
            assert r0.at[id] == At(c, y);
          }
          if Taken(r0, y, c) {
            var id :| id in r0.at && r0.at[id] == At(c, y);
            assert r.at[id] == At(c, y);
          }
        }
      }
    }
    if Agrees(r, occ) {
      forall c ensures c in occ[z] <==> exists id :: id in r.at && id !in {} && r.at[id] == At(c, z) {
        assert c in occ[z] <==> Taken(r, z, c);
      }
    }
  }

  /** A batch that moves one way is put back without finding a room that is yet to be: every push
      ends ahead of those. */
  lemma {:induction false} OneWayIsClean(r0: Layout, s: Half, z: int, axis: Axis, sign: int, batch: Batch, sorted: seq<RoomId>)
    requires (sign == 1 || sign == -1) && s.r.Valid() && OneWay(batch, sign) && NoDup(sorted) && Ordered(r0, axis, sign, sorted)
    requires forall id :: id in sorted ==> s.r.On(id, z) && id in batch.delta && id in r0.at && s.r.at[id] == r0.at[id]
    requires Loose(s.r, s.cells, z, Members(sorted))
    ensures StraysAll(s, z, axis, sign, sorted, Targets(r0, axis, batch)) == 0
    decreases |sorted|
  {
    if sorted != [] {
      var to, id := Targets(r0, axis, batch), sorted[0];
      MembersTail(sorted);
      LooseIsClear(s, z, axis, sign, Members(sorted), id, to[id]);
      PushIsDomino(s, z, axis, sign, Members(sorted), id, to[id]);
      PushRooms(s, z, axis, sign, id, to[id]);
      var h, n := Push(s, z, axis, sign, id, to[id]), RunLength(s, z, axis, sign, id, to[id]);
      hide Push, Strays, RunLength, BoardExact;
      StillLoose(r0, s, h, z, axis, sign, batch, sorted, n);
      OneWayIsClean(r0, h, z, axis, sign, batch, sorted[1..]);
    }
  }

  lemma {:induction false} StillLoose(r0: Layout, s: Half, h: Half, z: int, axis: Axis, sign: int, batch: Batch, sorted: seq<RoomId>, n: nat)
    requires sorted != [] && (sign == 1 || sign == -1) && OneWay(batch, sign) && NoDup(sorted) && Ordered(r0, axis, sign, sorted)
    requires forall id :: id in sorted ==> s.r.On(id, z) && id in batch.delta && id in r0.at && s.r.at[id] == r0.at[id]
    requires Loose(s.r, s.cells, z, Members(sorted)) && Members(sorted) - {sorted[0]} == Members(sorted[1..]) && sorted[0] !in sorted[1..]
    requires Domino(s.r, s.cells, z, Members(sorted), sorted[0], Targets(r0, axis, batch)[sorted[0]], axis, sign, n, h.r, h.cells)
    requires BoardExact(h.r, h.cells, z, Members(sorted[1..]))
    ensures Loose(h.r, h.cells, z, Members(sorted[1..]))
    ensures forall id :: id in sorted[1..] ==> id in h.r.at && h.r.at[id] == r0.at[id]
  {
    var to := Targets(r0, axis, batch)[sorted[0]];
    LooseCells(s.r, s.cells, z, Members(sorted));
    DominoStays(s.r, s.cells, z, Members(sorted), sorted[0], to, axis, sign, n, h.r, h.cells);
    hide BoardExact, Loose, Domino, OneWay, Targets, Nth;
    forall id | id in sorted[1..] ensures id in h.r.at && h.r.at[id] == r0.at[id] && h.r.at[id].AtCell() !in h.cells {
      assert id in sorted && id in Members(sorted) && id != sorted[0];
      var j :| 0 < j < |sorted| && sorted[j] == id;
      PushedPast(r0, z, axis, sign, batch, sorted, j, n);
    }
    hide Ordered;
    MakeLoose(h.r, h.cells, z, Members(sorted[1..]));
  }

  lemma DominoStays(r: Layout, cells: set<Cell>, z: int, off: set<RoomId>, rid: RoomId, c: Cell, axis: Axis, sign: int, n: nat, r': Layout, cells': set<Cell>)
    requires Domino(r, cells, z, off, rid, c, axis, sign, n, r', cells')
    ensures cells' == cells + {Nth(c, axis, sign, n)}
    ensures forall id :: id in off && id != rid && id in r.at ==> id in r'.at && r'.at[id] == r.at[id]
  {
  }

  lemma LooseCells(r: Layout, cells: set<Cell>, z: int, off: set<RoomId>)
    requires Loose(r, cells, z, off)
    ensures forall id :: id in r.at && id in off && r.at[id].z == z ==> r.at[id].AtCell() !in cells
  {
  }

  lemma MakeLoose(r: Layout, cells: set<Cell>, z: int, off: set<RoomId>)
    requires BoardExact(r, cells, z, off) && forall id :: id in off ==> id in r.at && r.at[id].AtCell() !in cells
    ensures Loose(r, cells, z, off)
  {
  }

  /** The push of the first room ends ahead of every room after it. */
  lemma PushedPast(r0: Layout, z: int, axis: Axis, sign: int, batch: Batch, sorted: seq<RoomId>, j: nat, n: nat)
    requires (sign == 1 || sign == -1) && OneWay(batch, sign) && Ordered(r0, axis, sign, sorted) && 0 < j < |sorted|
    requires sorted[0] in batch.delta && sorted[0] in r0.at && sorted[j] in r0.at
    ensures r0.at[sorted[j]].AtCell() != Nth(Targets(r0, axis, batch)[sorted[0]], axis, sign, n)
  {
    assert sorted[j] in sorted[1..];
  }

  /** Take the batch off the board, and list it in the order its rooms are put back. */
  method TakeOff(b: Board, z: int, axis: Axis, sign: int, batch: Batch, startPos: map<RoomId, Cell>) returns (sorted: seq<RoomId>)
    requires b.Ready() && z in b.occupied && BatchOk(b.result, z, batch) && startPos == BatchHome(b.result, batch)
    requires forall id :: id in batch.ids ==> id in b.result.at
    modifies b`occupied
    ensures b.Ready() && Contained(z, b.result, old(b.occupied), b.result, b.occupied) && z in b.occupied
    ensures sorted == SortByCoord(b.result, axis, sign, batch.ids) && NoDup(sorted) && Ordered(b.result, axis, sign, sorted)
    ensures Recorded(b.result, b.result, z, batch.ids, startPos) && forall id :: id in batch.ids <==> id in startPos
    ensures Half(b.result, b.occupied[z], startPos.Keys) == Raised(b.result, old(b.occupied)[z], batch)
  {
    hide Recorded, Contained, ReadyState, Ordered, SortByCoord, BatchOk;
    ghost var r0, occ0 := b.result, b.occupied;
    BatchParts(r0, z, batch);
    RecordedStart(r0, z, batch, startPos);
    assert Home(r0, startPos) == startPos;
    b.VacateAll(z, batch.ids, startPos);
    sorted := SortByCoord(b.result, axis, sign, batch.ids);
    SortOrdered(r0, axis, sign, batch.ids);
    VacatedContained(z, r0, occ0, b.occupied);
    ContainedReady(b.zone, r0, b.floors, occ0, b.result, b.occupied, z);
  }

  /** Push one room of the batch to its new cell. */
  method ShiftOne(b: Board, z: int, axis: Axis, sign: int, batch: Batch, id: RoomId, startIds: seq<RoomId>, startPos: map<RoomId, Cell>, ghost r0: Layout)
    returns (oldIds: seq<RoomId>, oldPos: map<RoomId, Cell>)
    requires b.Ready() && z in b.occupied && id in batch.delta && id in r0.at
    requires Recorded(r0, b.result, z, startIds, startPos) && id in startPos
    modifies b`result, b`occupied
    ensures b.Ready() && Contained(z, old(b.result), old(b.occupied), b.result, b.occupied) && z in b.occupied
    ensures Recorded(r0, b.result, z, oldIds, oldPos) && forall x :: x in startPos ==> x in oldPos
    ensures id in Targets(r0, axis, batch)
    ensures Half(b.result, b.occupied[z], oldPos.Keys)
            == Push(Half(old(b.result), old(b.occupied)[z], startPos.Keys), z, axis, sign, id, Targets(r0, axis, batch)[id])
  {
    hide Recorded, Contained, ReadyState, Push;
    RecordedSame(r0, b.result, z, startIds, startPos);
    RecordedOn(r0, b.result, z, startIds, startPos, id);
    var c := startPos[id];
    var target := if axis.EastWest? then Cell(c.x, c.y + batch.delta[id]) else Cell(c.x + batch.delta[id], c.y);
    oldIds, oldPos := ChainPush(b, z, axis, sign, id, target, startIds, startPos, r0);
  }

  /** Take the batch off the board, then push each room to its new cell. An agreeing board agrees
      afterwards exactly when no push finds a room that is yet to be put back. */
  method ShiftBatch(b: Board, z: int, axis: Axis, sign: int, batch: Batch, startPos: map<RoomId, Cell>)
    returns (oldIds: seq<RoomId>, oldPos: map<RoomId, Cell>)
    requires b.Ready() && z in b.occupied && BatchOk(b.result, z, batch) && (sign == 1 || sign == -1) && startPos == BatchHome(b.result, batch)
    requires forall id :: id in batch.ids ==> id in b.result.at
    modifies b`result, b`occupied
    ensures b.Ready() && Contained(z, old(b.result), old(b.occupied), b.result, b.occupied) && z in b.occupied
    ensures Recorded(old(b.result), b.result, z, oldIds, oldPos)
    ensures Half(b.result, b.occupied[z], oldPos.Keys) == AfterShift(old(b.result), old(b.occupied)[z], z, axis, sign, batch)
    ensures Agrees(old(b.result), old(b.occupied)) ==>
      (Agrees(b.result, b.occupied) <==> CleanShift(old(b.result), old(b.occupied)[z], z, axis, sign, batch))
  {
    hide Recorded, Contained, ReadyState, Agrees, Ordered, SortByCoord, BatchOk, Raised, Push, PushAll, CleanShift, Targets;
    ghost var r0, occ0 := b.result, b.occupied;
    BatchParts(r0, z, batch);
    oldIds, oldPos := batch.ids, startPos;
    var sorted := TakeOff(b, z, axis, sign, batch, startPos);
    ghost var to := Targets(r0, axis, batch);
    ghost var whole := AfterShift(r0, occ0[z], z, axis, sign, batch);
    PushAllEnds(Raised(r0, occ0[z], batch), z, axis, sign, sorted, to);
    for i := 0 to |sorted|
      invariant b.Ready() && Contained(z, r0, occ0, b.result, b.occupied) && z in b.occupied
      invariant Recorded(r0, b.result, z, oldIds, oldPos)
      invariant forall id :: id in batch.ids ==> id in oldPos
      invariant PushAll(Half(b.result, b.occupied[z], oldPos.Keys), z, axis, sign, sorted[i..], to) == whole
    {
      ghost var r, occ := b.result, b.occupied;
      ContainedKeys(z, r0, occ0, r, occ);
      ghost var s := Half(r, occ[z], oldPos.Keys);
      assert sorted[i] in sorted;
      oldIds, oldPos := ShiftOne(b, z, axis, sign, batch, sorted[i], oldIds, oldPos, r0);
      PushAllStep(s, z, axis, sign, sorted, i, to);
      ContainedTrans(z, r0, occ0, r, occ, b.result, b.occupied);
      ContainedKeys(z, r0, occ0, b.result, b.occupied);
    }
    PushAllEnds(Half(b.result, b.occupied[z], oldPos.Keys), z, axis, sign, sorted, to);
    if Agrees(r0, occ0) { ShiftAgrees(b.zone, r0, b.floors, occ0, b.result, b.occupied, z, axis, sign, batch); }
  }

  lemma TargetOf(r: Layout, axis: Axis, batch: Batch, id: RoomId)
    requires id in batch.delta && id in r.at
    ensures id in Targets(r, axis, batch)
    ensures Targets(r, axis, batch)[id] == if axis.EastWest? then Cell(r.at[id].x, r.at[id].y + batch.delta[id]) else Cell(r.at[id].x + batch.delta[id], r.at[id].y)
  {
  }

  lemma ShiftAgrees(zone: Zone, r0: Layout, floors: seq<int>, occ0: Occupancy, r: Layout, occ: Occupancy, z: int, axis: Axis, sign: int, batch: Batch)
    requires ReadyState(zone, r0, floors, occ0) && Agrees(r0, occ0) && z in occ0 && BatchOk(r0, z, batch) && (sign == 1 || sign == -1)
    requires Contained(z, r0, occ0, r, occ) && z in occ && forall id :: id in batch.ids ==> id in r0.at
    requires var h := AfterShift(r0, occ0[z], z, axis, sign, batch); h.r == r && h.cells == occ[z]
    ensures Agrees(r, occ) <==> CleanShift(r0, occ0[z], z, axis, sign, batch)
  {
    ReadyParts(zone, r0, floors, occ0);
    BatchParts(r0, z, batch);
    var sorted := SortByCoord(r0, axis, sign, batch.ids);
    SortOrdered(r0, axis, sign, batch.ids);
    RaisedLoose(r0, occ0, z, batch, sorted);
    LooseExact(r0, Raised(r0, occ0[z], batch).cells, z, Members(sorted));
    ExactIsAgreeing(r0, occ0, r, occ, z);
    hide Loose, BoardExact, Agrees, Contained, PushAll, StraysAll, SortByCoord, Ordered, BatchOk;
    forall id | id in sorted ensures r0.On(id, z) && id in Targets(r0, axis, batch) { TargetOf(r0, axis, batch, id); }
    ExactIffClean(Raised(r0, occ0[z], batch), z, axis, sign, sorted, Targets(r0, axis, batch));
  }

  lemma LooseExact(r: Layout, cells: set<Cell>, z: int, off: set<RoomId>)
    requires Loose(r, cells, z, off)
    ensures BoardExact(r, cells, z, off)
  {
  }

  /** A batch that moves one way is shifted cleanly. */
  lemma OneWayShift(r: Layout, occ: Occupancy, z: int, axis: Axis, sign: int, batch: Batch)
    requires r.Valid() && Agrees(r, occ) && z in occ && BatchOk(r, z, batch) && (sign == 1 || sign == -1) && OneWay(batch, sign)
    requires forall id :: id in batch.ids ==> id in r.at
    ensures CleanShift(r, occ[z], z, axis, sign, batch)
  {
    BatchParts(r, z, batch);
    var sorted := SortByCoord(r, axis, sign, batch.ids);
    SortOrdered(r, axis, sign, batch.ids);
    RaisedLoose(r, occ, z, batch, sorted);
    hide Loose, Agrees, StraysAll, SortByCoord, Ordered, BatchOk, OneWay;
    OneWayIsClean(r, Raised(r, occ[z], batch), z, axis, sign, batch, sorted);
  }

  lemma RecordedSame(r0: Layout, r: Layout, z: int, oldIds: seq<RoomId>, oldPos: map<RoomId, Cell>)
    requires Recorded(r0, r, z, oldIds, oldPos)
    ensures forall id :: id in oldPos ==> id in r0.at && oldPos[id] == r0.at[id].AtCell()
  {
  }

  // ---- Undoing a shift ----

  /** After a shift that was undone the cells are exact if and only if every occupied cell had a room
      on it then or has one now, and no room that was not met shared its cell with one that was. */
  ghost predicate Mends(r0: Layout, h: Half, z: int) {
    && (forall c :: c in h.cells ==> Taken(h.r, z, c) || Taken(r0, z, c))
    && (forall a, b :: a in h.r.at && b in h.r.at && a !in h.met && b in h.met && h.r.at[b].z == z ==> h.r.at[a] != h.r.at[b])
  }

  /** Put back every recorded room; the layout is then exactly the old one. */
  method Rollback(b: Board, z: int, oldIds: seq<RoomId>, oldPos: map<RoomId, Cell>, ghost r0: Layout)
    requires b.Ready() && z in b.occupied && r0.Valid() && Recorded(r0, b.result, z, oldIds, oldPos)
    modifies b`result, b`occupied
    ensures b.Ready() && b.result == r0 && Contained(z, old(b.result), old(b.occupied), b.result, b.occupied)
    ensures b.occupied == Vacated(old(b.occupied), z, Cells(Home(old(b.result), oldPos)), Cells(oldPos))
  {
    hide Recorded, Contained, ReadyState, OnFloor;
    ghost var r, occ := b.result, b.occupied;
    RecordedParts(r0, r, z, oldIds, oldPos);
    b.Relocate(z, oldIds, oldPos);
    RestoredContained(z, r, occ, oldPos);
  }

  /** Putting the recorded cells back gives the old layout. */
  lemma RecordedParts(r0: Layout, r: Layout, z: int, oldIds: seq<RoomId>, oldPos: map<RoomId, Cell>)
    requires Recorded(r0, r, z, oldIds, oldPos)
    ensures OnFloor(r, z, oldPos) && (forall id :: id in oldIds <==> id in oldPos) && Applied(r, z, oldPos) == r0
  {
    assert Applied(r, z, oldPos).at == r0.at;
  }

  lemma RestoredContained(z: int, r: Layout, occ: Occupancy, to: map<RoomId, Cell>)
    requires z in occ && OnFloor(r, z, to)
    ensures Contained(z, r, occ, Applied(r, z, to), Vacated(occ, z, Cells(Home(r, to)), Cells(to)))
  {
  }

  /** Undone exactly when the shift mends. */
  lemma UndoneAgrees(r0: Layout, occ0: Occupancy, r: Layout, occ: Occupancy, z: int, oldIds: seq<RoomId>, oldPos: map<RoomId, Cell>)
    requires Agrees(r0, occ0) && z in occ0 && Contained(z, r0, occ0, r, occ) && z in occ && Recorded(r0, r, z, oldIds, oldPos)
    requires occ0[z] - Cells(oldPos) <= occ[z]
    ensures var occ' := Vacated(occ, z, Cells(Home(r, oldPos)), Cells(oldPos));
            Agrees(r0, occ') <==> Mends(r0, Half(r, occ[z], oldPos.Keys), z)
  {
    var occ' := Vacated(occ, z, Cells(Home(r, oldPos)), Cells(oldPos));
    UndoneContained(z, r0, occ0, r, occ, occ', oldPos);
    ExactIsAgreeing(r0, occ0, r0, occ', z);
    if Mends(r0, Half(r, occ[z], oldPos.Keys), z) {
      forall c ensures c in occ'[z] <==> Taken(r0, z, c) { MendedCell(r0, occ0, r, occ, z, oldIds, oldPos, c); }
      TakenExact(r0, occ0, occ'[z], z);
    }
    if BoardExact(r0, occ'[z], z, {}) {
      UndoneMends(r0, r, occ, z, oldIds, oldPos);
    }
  }

  lemma UndoneContained(z: int, r0: Layout, occ0: Occupancy, r: Layout, occ: Occupancy, occ': Occupancy, oldPos: map<RoomId, Cell>)
    requires Contained(z, r0, occ0, r, occ) && z in occ && occ' == Vacated(occ, z, Cells(Home(r, oldPos)), Cells(oldPos))
    ensures Contained(z, r0, occ0, r0, occ') && z in occ'
    ensures occ'[z] == occ[z] - Cells(Home(r, oldPos)) + Cells(oldPos)
  {
  }

  lemma TakenExact(r: Layout, occ: Occupancy, cells: set<Cell>, z: int)
    requires Agrees(r, occ) && forall c :: c in cells <==> Taken(r, z, c)
    ensures BoardExact(r, cells, z, {})
  {
    forall c ensures c in cells <==> exists id :: id in r.at && id !in {} && r.at[id] == At(c, z) {
      assert c in cells <==> Taken(r, z, c);
    }
  }

  lemma MendedCell(r0: Layout, occ0: Occupancy, r: Layout, occ: Occupancy, z: int, oldIds: seq<RoomId>, oldPos: map<RoomId, Cell>, c: Cell)
    requires Agrees(r0, occ0) && z in occ0 && Contained(z, r0, occ0, r, occ) && z in occ && Recorded(r0, r, z, oldIds, oldPos)
    requires occ0[z] - Cells(oldPos) <= occ[z] && Mends(r0, Half(r, occ[z], oldPos.Keys), z)
    ensures c in occ[z] - Cells(Home(r, oldPos)) + Cells(oldPos) <==> Taken(r0, z, c)
  {
    if c in Cells(oldPos) {
      var id :| id in oldPos && oldPos[id] == c;
      assert r0.at[id] == At(c, z);
    } else {
      if c in occ[z] - Cells(Home(r, oldPos)) {
        if Taken(r, z, c) {
          var id :| id in r.at && r.at[id] == At(c, z);
          InHome(r, oldPos, id);
          assert r0.at[id] == At(c, z);
        }
      }
      if Taken(r0, z, c) {
        var id :| id in r0.at && r0.at[id] == At(c, z);
        assert id !in oldPos && r.at[id] == At(c, z);
        assert c in occ0[z];
        forall x | x in Home(r, oldPos) ensures Home(r, oldPos)[x] != c {
          assert r.On(x, z) && r.at[x] != r.at[id];
        }
      }
    }
  }

  lemma UndoneMends(r0: Layout, r: Layout, occ: Occupancy, z: int, oldIds: seq<RoomId>, oldPos: map<RoomId, Cell>)
    requires z in occ && Recorded(r0, r, z, oldIds, oldPos)
    requires BoardExact(r0, occ[z] - Cells(Home(r, oldPos)) + Cells(oldPos), z, {})
    ensures Mends(r0, Half(r, occ[z], oldPos.Keys), z)
  {
    forall c | c in occ[z] ensures Taken(r, z, c) || Taken(r0, z, c) { UndoneCell(r0, r, occ, z, oldIds, oldPos, c); }
    forall a, b | a in r.at && b in r.at && a !in oldPos && b in oldPos && r.at[b].z == z ensures r.at[a] != r.at[b] {
      UndoneApart(r0, r, occ, z, oldIds, oldPos, a, b);
    }
  }

  lemma UndoneCell(r0: Layout, r: Layout, occ: Occupancy, z: int, oldIds: seq<RoomId>, oldPos: map<RoomId, Cell>, c: Cell)
    requires z in occ && Recorded(r0, r, z, oldIds, oldPos) && c in occ[z]
    requires BoardExact(r0, occ[z] - Cells(Home(r, oldPos)) + Cells(oldPos), z, {})
    ensures Taken(r, z, c) || Taken(r0, z, c)
  {
    if c in Cells(Home(r, oldPos)) {
      var id :| id in Home(r, oldPos) && Home(r, oldPos)[id] == c;
      assert r.On(id, z) && r.at[id] == At(c, z);
    } else {
      var id :| id in r0.at && id !in {} && r0.at[id] == At(c, z);
    }
  }

  lemma UndoneApart(r0: Layout, r: Layout, occ: Occupancy, z: int, oldIds: seq<RoomId>, oldPos: map<RoomId, Cell>, a: RoomId, b: RoomId)
    requires z in occ && Recorded(r0, r, z, oldIds, oldPos) && a in r.at && b in r.at && a !in oldPos && b in oldPos && r.at[b].z == z
    requires BoardExact(r0, occ[z] - Cells(Home(r, oldPos)) + Cells(oldPos), z, {})
    ensures r.at[a] != r.at[b]
  {
    var c := r.at[a].AtCell();
    InHome(r, oldPos, b);
    if r.at[a].z == z {
      assert r0.at[a] == At(c, z);
      OwnCell(r0, occ[z] - Cells(Home(r, oldPos)) + Cells(oldPos), z, a, c);
      forall x | x in oldPos ensures oldPos[x] != c { assert r0.at[x] != r0.at[a]; }
      assert c !in Cells(Home(r, oldPos));
    }
  }

  lemma OwnCell(r: Layout, cells: set<Cell>, z: int, id: RoomId, c: Cell)
    requires BoardExact(r, cells, z, {}) && id in r.at && r.at[id] == At(c, z)
    ensures c in cells
  {
    assert id !in {};
  }

  /** A clean shift mends. */
  lemma CleanMends(r0: Layout, h: Half, z: int)
    requires BoardExact(h.r, h.cells, z, {})
    ensures Mends(r0, h, z)
  {
    forall c | c in h.cells ensures Taken(h.r, z, c) { var id :| id in h.r.at && h.r.at[id] == At(c, z); }
  }

  lemma AgreesNoOverlap(r: Layout, occ: Occupancy)
    requires Agrees(r, occ)
    ensures NoOverlap(r)
  {
  }

  lemma OneSidedWay(r: Layout, axis: Axis, group: seq<RoomId>, target: int, batch: Batch, sign: int)
    requires OneSided(r, axis, group, target) && forall id :: id in batch.delta ==> DeltaOf(r, axis, group, target, batch.delta[id])
    requires batch.ids != [] && batch.ids[0] in batch.delta && sign == PushSign(batch)
    ensures OneWay(batch, sign)
  {
  }

  /** The direction of the first room's shift, in which rooms in the way are pushed. */
  function PushSign(batch: Batch): int
    requires batch.ids != [] && batch.ids[0] in batch.delta
  {
    if batch.delta[batch.ids[0]] > 0 then 1 else -1
  }

  ghost predicate Shiftable(r: Layout, z: int, batch: Batch) {
    BatchOk(r, z, batch) && batch.ids != [] && batch.ids[0] in batch.delta && forall id :: id in batch.ids ==> id in r.at
  }

  /** What the shift of a batch in the direction of its first room comes to. */
  ghost function Outcome(r: Layout, cells: set<Cell>, z: int, axis: Axis, batch: Batch): Half
    requires Shiftable(r, z, batch)
  {
    AfterShift(r, cells, z, axis, PushSign(batch), batch)
  }

  /** The shift, or its undoing, leaves an agreeing board agreeing. */
  ghost predicate Harmless(r: Layout, cells: set<Cell>, z: int, axis: Axis, batch: Batch, shifted: bool)
    requires Shiftable(r, z, batch)
  {
    if shifted then CleanShift(r, cells, z, axis, PushSign(batch), batch) else Mends(r, Outcome(r, cells, z, axis, batch), z)
  }

  /** Shift the batch, and take that back unless fewer rooms are misaligned over all groups. */
  method ShiftIfBetter(b: Board, z: int, axis: Axis, g: Groups, batch: Batch) returns (shifted: bool)
    requires b.Ready() && z in b.occupied && Shiftable(b.result, z, batch) && GroupsPlaced(b.result, g)
    modifies b`result, b`occupied
    ensures b.Ready() && Contained(z, old(b.result), old(b.occupied), b.result, b.occupied) && GroupsPlaced(b.result, g)
    ensures var h := Outcome(old(b.result), old(b.occupied)[z], z, axis, batch);
            && GroupsPlaced(h.r, g) && (shifted <==> Misaligned(h.r, axis, g) < Misaligned(old(b.result), axis, g))
            && b.result == if shifted then h.r else old(b.result)
    ensures Agrees(old(b.result), old(b.occupied)) ==>
      (Agrees(b.result, b.occupied) <==> Harmless(old(b.result), old(b.occupied)[z], z, axis, batch, shifted))
  {
    hide BatchOk, Recorded, Contained, ReadyState, Misaligned, GroupsPlaced, Agrees, AfterShift, CleanShift, Mends;
    ghost var r0, occ0 := b.result, b.occupied;
    ReadyParts(b.zone, r0, b.floors, occ0);
    BatchParts(r0, z, batch);
    shifted := false;
    var before := Misaligned(b.result, axis, g);
    var startPos := BatchHome(b.result, batch);
    var oldIds, oldPos := ShiftBatch(b, z, axis, PushSign(batch), batch, startPos);
    ContainedKeys(z, r0, occ0, b.result, b.occupied);
    PlacedStill(z, r0, occ0, b.result, b.occupied, g);
    var after := Misaligned(b.result, axis, g);
    if after >= before {
      ghost var r, occ := b.result, b.occupied;
      Rollback(b, z, oldIds, oldPos, r0);
      ContainedTrans(z, r0, occ0, r, occ, b.result, b.occupied);
      if Agrees(r0, occ0) {
        CellsKept(r0, occ0[z], z, axis, PushSign(batch), batch, oldIds, oldPos, r);
        UndoneAgrees(r0, occ0, r, occ, z, oldIds, oldPos);
      }
      return;
    }
    shifted := true;
  }

  /** No occupied cell of a room that stayed is given up. */
  lemma CellsKept(r0: Layout, cells: set<Cell>, z: int, axis: Axis, sign: int, batch: Batch, oldIds: seq<RoomId>, oldPos: map<RoomId, Cell>, r: Layout)
    requires BatchOk(r0, z, batch) && (sign == 1 || sign == -1) && (forall id :: id in batch.ids ==> id in r0.at) && Recorded(r0, r, z, oldIds, oldPos)
    requires AfterShift(r0, cells, z, axis, sign, batch).met == oldPos.Keys
    ensures cells - Cells(oldPos) <= AfterShift(r0, cells, z, axis, sign, batch).cells
  {
    hide PushAll, SortByCoord;
    var home := BatchHome(r0, batch);
    PushAllGrows(Raised(r0, cells, batch), z, axis, sign, SortByCoord(r0, axis, sign, batch.ids), Targets(r0, axis, batch));
    forall c | c in Cells(home) ensures c in Cells(oldPos) {
      var id :| id in home && home[id] == c;
      assert id in oldPos && oldPos[id] == c;
    }
  }

  /** How one group was to be aligned. */
  datatype Trial = Trial(target: int, batch: Batch)

  /** The outliers and all they drag along, on their way to the first of the most common coordinates. */
  ghost predicate Tries(zone: Zone, r: Layout, z: int, axis: Axis, root: map<RoomId, RoomId>, k: RoomId, group: seq<RoomId>, t: Trial) {
    && FirstMode(r, axis, group, t.target)
    && Batched(zone, r, axis, root, k, group, t.target, |group|, t.batch) && Shiftable(r, z, t.batch)
    && LedBy(r, axis, group, t.target, |group|, t.batch)
  }

  /** The group is aligned, or the trial does not leave fewer rooms misaligned. */
  ghost predicate Settled(zone: Zone, r: Layout, cells: set<Cell>, z: int, axis: Axis, root: map<RoomId, RoomId>, g: Groups, k: RoomId, group: seq<RoomId>, t: Trial) {
    || Aligned(r, axis, group)
    || (&& Tries(zone, r, z, axis, root, k, group, t)
        && var h := Outcome(r, cells, z, axis, t.batch);
           GroupsPlaced(r, g) && GroupsPlaced(h.r, g) && Misaligned(h.r, axis, g) >= Misaligned(r, axis, g))
  }

  /** One group's turn: nothing if it is aligned; otherwise the trial, kept exactly if it leaves fewer
      rooms misaligned over all groups. Agreement is kept exactly if that is harmless. */
  ghost predicate Turn(zone: Zone, z: int, axis: Axis, root: map<RoomId, RoomId>, g: Groups, k: RoomId, group: seq<RoomId>, t: Trial,
                       r: Layout, occ: Occupancy, r': Layout, occ': Occupancy) {
    if Aligned(r, axis, group) then r' == r && occ' == occ
    else
      && z in occ && Tries(zone, r, z, axis, root, k, group, t)
      && var h := Outcome(r, occ[z], z, axis, t.batch);
      && GroupsPlaced(r, g) && GroupsPlaced(h.r, g)
      && var shifted := Misaligned(h.r, axis, g) < Misaligned(r, axis, g);
      && r' == (if shifted then h.r else r)
      && (Agrees(r, occ) ==> (Agrees(r', occ') <==> Harmless(r, occ[z], z, axis, t.batch, shifted)))
  }

  /** Shift one group's outliers onto its most common coordinate; kept exactly if fewer rooms are
      misaligned over all groups, and otherwise undone exactly. */
  method AlignGroup(b: Board, z: int, axis: Axis, g: Groups, group: seq<RoomId>, start: map<RoomId, RoomId>,
                    ghost root: map<RoomId, RoomId>, ghost order: map<RoomId, nat>, ghost top: nat, ghost k: RoomId)
    returns (shifted: bool, parent: map<RoomId, RoomId>, ghost trial: Trial)
    requires b.Ready() && z in b.occupied && Forest(start, root, order, top) && start.Keys == root.Keys
    requires GroupsOk(b.result, z, root, g) && GroupsPlaced(b.result, g) && forall x :: x in root <==> b.result.On(x, z)
    requires group != [] && forall id :: id in group ==> id in root && root[id] == k && b.result.On(id, z)
    modifies b`result, b`occupied
    ensures b.Ready() && Contained(z, old(b.result), old(b.occupied), b.result, b.occupied)
    ensures Forest(parent, root, order, top) && parent.Keys == root.Keys
    ensures GroupsPlaced(b.result, g)
    ensures !shifted ==> b.result == old(b.result)
    ensures shifted ==> Misaligned(b.result, axis, g) < Misaligned(old(b.result), axis, g)
    ensures Turn(b.zone, z, axis, root, g, k, group, trial, old(b.result), old(b.occupied), b.result, b.occupied)
  {
    hide Forest, GroupsOk, BatchOk, Contained, ReadyState, Misaligned, GroupsPlaced, Agrees, Batched, FirstMode, Harmless, Outcome;
    shifted, parent := false, start;
    ghost var r0, occ0 := b.result, b.occupied;
    ReadyParts(b.zone, r0, b.floors, occ0);
    SameContained(z, r0, occ0);
    var target, different := ModeCoord(b.result, axis, group);
    trial := Trial(target, Batch([], map[]));
    if different <= 1 { return; }
    var batch;
    batch, parent := CollectBatch(b.zone, b.result, z, axis, g, group, target, parent, root, order, top, k);
    NotEmpty(b.zone, r0, z, axis, root, k, group, target, batch);
    trial := Trial(target, batch);
    shifted := ShiftIfBetter(b, z, axis, g, batch);
  }

  /** A group that is not aligned has an outlier. */
  lemma {:induction false} NotEmpty(zone: Zone, r: Layout, z: int, axis: Axis, root: map<RoomId, RoomId>, k: RoomId, group: seq<RoomId>, target: int, batch: Batch)
    requires !Aligned(r, axis, group) && BatchOk(r, z, batch) && Batched(zone, r, axis, root, k, group, target, |group|, batch)
    ensures Shiftable(r, z, batch)
  {
    BatchedDelta(zone, r, axis, root, k, group, target, batch);
    hide Batched, BatchOk, Aligned, DeltaOf, Shiftable;
    var out := Outlier(r, axis, group, target);
    HasRoom(r, z, batch, out);
  }

  lemma {:induction false} HasRoom(r: Layout, z: int, batch: Batch, id: RoomId)
    requires BatchOk(r, z, batch) && id in batch.delta
    ensures Shiftable(r, z, batch)
  {
    assert id in batch.ids && batch.ids[0] in batch.ids;
  }

  lemma Outlier(r: Layout, axis: Axis, group: seq<RoomId>, target: int) returns (out: RoomId)
    requires !Aligned(r, axis, group)
    ensures out in group && out in r.at && Coord(r, axis, out) != target
  {
    var x, y :| x in group && y in group && x in r.at && y in r.at && Coord(r, axis, x) != Coord(r, axis, y);
    out := if Coord(r, axis, x) != target then x else y;
  }

  lemma BatchParts(r: Layout, z: int, batch: Batch)
    requires BatchOk(r, z, batch)
    ensures NoDup(batch.ids) && (forall id :: id in batch.ids <==> id in batch.delta) && (forall id :: id in batch.ids ==> r.On(id, z))
  {
  }

  lemma RecordedStart(r: Layout, z: int, batch: Batch, oldPos: map<RoomId, Cell>)
    requires BatchOk(r, z, batch) && oldPos == map id | id in batch.delta && id in r.at :: r.at[id].AtCell()
    ensures Recorded(r, r, z, batch.ids, oldPos)
    ensures forall id :: id in batch.ids <==> id in oldPos
  {
  }

  lemma VacatedContained(z: int, r: Layout, occ: Occupancy, occ': Occupancy)
    requires z in occ && occ'.Keys == occ.Keys && forall y :: y in occ && y != z ==> occ'[y] == occ[y]
    ensures Contained(z, r, occ, r, occ')
  {
  }

  lemma RecordedOn(r0: Layout, r: Layout, z: int, oldIds: seq<RoomId>, oldPos: map<RoomId, Cell>, id: RoomId)
    requires Recorded(r0, r, z, oldIds, oldPos) && id in oldPos
    ensures r.On(id, z)
  {
  }

  lemma ContainedKeys(z: int, r: Layout, occ: Occupancy, r': Layout, occ': Occupancy)
    requires Contained(z, r, occ, r', occ')
    ensures occ'.Keys == occ.Keys && r'.order == r.order && forall id, y :: r'.On(id, y) <==> r.On(id, y)
  {
  }

  lemma PlacedStill(z: int, r: Layout, occ: Occupancy, r': Layout, occ': Occupancy, g: Groups)
    requires Contained(z, r, occ, r', occ') && GroupsPlaced(r, g)
    ensures GroupsPlaced(r', g)
  {
  }

  // ---- The phase ----

  /** The multi-room groups, largest first; equal sizes keep their order. */
  function InsertBySize(g: Groups, k: RoomId, s: seq<RoomId>): (t: seq<RoomId>)
    requires k in g.members && forall x :: x in s ==> x in g.members
    ensures forall x :: x in t <==> x in s || x == k
  {
    if s == [] || |g.members[k]| >= |g.members[s[0]]| then [k] + s else [s[0]] + InsertBySize(g, k, s[1..])
  }

  function LargestFirst(g: Groups, roots: seq<RoomId>): (t: seq<RoomId>)
    requires forall k :: k in roots ==> k in g.members
    ensures forall k :: k in t <==> k in roots && |g.members[k]| > 1
  {
    if roots == [] then []
    else
      var rest := LargestFirst(g, roots[1..]);
      if |g.members[roots[0]]| > 1 then InsertBySize(g, roots[0], rest) else rest
  }

  lemma {:induction false} FloorRoomsFrame(r: Layout, r': Layout, z: int, ids: seq<RoomId>)
    requires forall id :: r'.On(id, z) <==> r.On(id, z)
    ensures FloorRoomsOf(r', z, ids) == FloorRoomsOf(r, z, ids)
  {
    if ids != [] { FloorRoomsFrame(r, r', z, ids[1..]); }
  }

  /** Steps that keep the rooms on their floors keep the groups. */
  lemma GroupsStill(r: Layout, r': Layout, z: int, root: map<RoomId, RoomId>, g: Groups)
    requires GroupsOk(r, z, root, g) && r'.order == r.order && forall id, y :: r'.On(id, y) <==> r.On(id, y)
    ensures GroupsOk(r', z, root, g)
  {
    FloorRoomsFrame(r, r', z, r.order);
  }

  lemma GroupMembers(r: Layout, z: int, root: map<RoomId, RoomId>, g: Groups)
    requires GroupsOk(r, z, root, g)
    ensures GroupsPlaced(r, g) && forall k :: k in g.roots ==> k in g.members
    ensures forall k :: k in g.members ==> g.members[k] != []
    ensures forall k, id :: k in g.members && id in g.members[k] ==> id in root && root[id] == k && r.On(id, z)
  {
    forall k | k in g.roots ensures k in g.members && g.members[k] != [] && forall id :: id in g.members[k] ==> id in r.at {
      forall id | id in g.members[k] ensures id in r.at { assert r.On(id, z); }
    }
  }

  /** Every exit of the axis between rooms of the floor keeps to one row (or column). */
  ghost predicate AxisStraight(zone: Zone, r: Layout, z: int, axis: Axis) {
    forall a, b :: Adjacent(zone, r, z, axis, a, b) && a in r.at && b in r.at ==> Coord(r, axis, a) == Coord(r, axis, b)
  }

  lemma {:induction false} MisalignedInZero(r: Layout, axis: Axis, c0: int, group: seq<RoomId>)
    requires forall id :: id in group ==> id in r.at
    ensures MisalignedIn(r, axis, c0, group) == 0 <==> forall id :: id in group ==> Coord(r, axis, id) == c0
  {
    if group != [] {
      assert group[0] in group;
      MisalignedInZero(r, axis, c0, group[1..]);
      assert forall id :: id in group <==> id == group[0] || id in group[1..];
    }
  }

  lemma {:induction false} MisalignedZero(r: Layout, axis: Axis, g: Groups, roots: seq<RoomId>)
    requires forall k :: k in roots ==> k in g.members && g.members[k] != [] && forall id :: id in g.members[k] ==> id in r.at
    ensures MisalignedAmong(r, axis, g, roots) == 0 <==> forall k :: k in roots ==> Aligned(r, axis, g.members[k])
  {
    if roots != [] {
      var group := g.members[roots[0]];
      assert roots[0] in roots;
      MisalignedInZero(r, axis, Coord(r, axis, group[0]), group);
      assert group[0] in group;
      MisalignedZero(r, axis, g, roots[1..]);
      assert forall k :: k in roots <==> k == roots[0] || k in roots[1..];
    }
  }

  /** The count the phase drives down is zero exactly when every exit of the axis is straight. */
  lemma AlignedIffStraight(zone: Zone, r: Layout, z: int, axis: Axis, root: map<RoomId, RoomId>, g: Groups)
    requires r.Valid() && GroupsOk(r, z, root, g) && Classes(zone, r, z, axis, root)
    ensures GroupsPlaced(r, g)
    ensures Misaligned(r, axis, g) == 0 <==> AxisStraight(zone, r, z, axis)
  {
    GroupMembers(r, z, root, g);
    MisalignedZero(r, axis, g, g.roots);
    if Misaligned(r, axis, g) == 0 {
      forall a, b | Adjacent(zone, r, z, axis, a, b) && a in r.at && b in r.at ensures Coord(r, axis, a) == Coord(r, axis, b) {
        ConnectedStep(zone, r, z, axis, a, b);
        AdjacentOn(zone, r, z, axis, a, b);
        SameGroup(zone, r, z, axis, root, g, a, b);
      }
    }
    if AxisStraight(zone, r, z, axis) {
      forall k | k in g.roots ensures Aligned(r, axis, g.members[k]) {
        StraightAligned(zone, r, z, axis, root, g.members[k], k);
      }
    }
  }

  lemma SameGroup(zone: Zone, r: Layout, z: int, axis: Axis, root: map<RoomId, RoomId>, g: Groups, a: RoomId, b: RoomId)
    requires GroupsOk(r, z, root, g) && Classes(zone, r, z, axis, root) && r.On(a, z) && r.On(b, z) && r.Valid()
    requires Connected(zone, r, z, axis, a, b) && forall k :: k in g.roots ==> k in g.members && Aligned(r, axis, g.members[k])
    ensures Coord(r, axis, a) == Coord(r, axis, b)
  {
    var ids := FloorRooms(r, z);
    assert a in ids && b in ids && root[a] == root[b];
    assert a in g.members[root[a]] && b in g.members[root[b]];
  }

  lemma StraightAligned(zone: Zone, r: Layout, z: int, axis: Axis, root: map<RoomId, RoomId>, group: seq<RoomId>, k: RoomId)
    requires AxisStraight(zone, r, z, axis) && Classes(zone, r, z, axis, root)
    requires forall id :: id in group ==> id in root && root[id] == k
    ensures Aligned(r, axis, group)
  {
    var f := (id: RoomId) => if id in r.at then Some(Coord(r, axis, id)) else None;
    forall a, b | Adjacent(zone, r, z, axis, a, b) ensures f(a) == f(b) { AdjacentOn(zone, r, z, axis, a, b); }
    forall x, y | x in group && y in group && x in r.at && y in r.at ensures Coord(r, axis, x) == Coord(r, axis, y) {
      assert Connected(zone, r, z, axis, x, y);
      ConnectedInvariant(zone, r, z, axis, x, y, f);
    }
  }

  // ---- Turns and agreement ----

  /** Whose turn it was, and what was tried. */
  datatype Move = Move(k: RoomId, t: Trial)

  ghost predicate Moves(zone: Zone, z: int, axis: Axis, root: map<RoomId, RoomId>, g: Groups, m: Move, s: State, s': State) {
    m.k in g.members && Turn(zone, z, axis, root, g, m.k, g.members[m.k], m.t, s.r, s.occ, s'.r, s'.occ)
  }

  /** The turns one after the other, with the states in between. */
  ghost predicate TurnsRun(zone: Zone, z: int, axis: Axis, root: map<RoomId, RoomId>, g: Groups, s: State, s': State, run: seq<State>, moves: seq<Move>) {
    && Run(run, |moves|, s, s')
    && forall i :: 0 <= i < |moves| ==> Moves(zone, z, axis, root, g, moves[i], run[i], run[i + 1])
  }

  /** The turn changes nothing, or makes a clean shift, or one whose undoing mends the cells. */
  ghost predicate HarmlessTurn(z: int, axis: Axis, g: Groups, m: Move, s: State) {
    && m.k in g.members
    && ( || Aligned(s.r, axis, g.members[m.k])
         || (&& z in s.occ && Shiftable(s.r, z, m.t.batch)
             && var h := Outcome(s.r, s.occ[z], z, axis, m.t.batch);
             && GroupsPlaced(s.r, g) && GroupsPlaced(h.r, g)
             && Harmless(s.r, s.occ[z], z, axis, m.t.batch, Misaligned(h.r, axis, g) < Misaligned(s.r, axis, g))))
  }

  ghost predicate AllAgree(run: seq<State>) {
    forall i :: 0 <= i < |run| ==> Agrees(run[i].r, run[i].occ)
  }

  /** A run that starts in agreement stays in agreement if and only if every turn is harmless. */
  lemma AgreementKept(zone: Zone, z: int, axis: Axis, root: map<RoomId, RoomId>, g: Groups, s: State, s': State, run: seq<State>, moves: seq<Move>)
    requires TurnsRun(zone, z, axis, root, g, s, s', run, moves) && Agrees(s.r, s.occ)
    ensures AllAgree(run) <==> forall i :: 0 <= i < |moves| ==> HarmlessTurn(z, axis, g, moves[i], run[i])
  {
    hide Agrees, Harmless, Outcome, Misaligned, GroupsPlaced, Aligned, Tries;
    if forall i :: 0 <= i < |moves| ==> HarmlessTurn(z, axis, g, moves[i], run[i]) {
      AgreesUpTo(zone, z, axis, root, g, s, s', run, moves, |moves|);
    }
    if AllAgree(run) {
      forall i | 0 <= i < |moves| ensures HarmlessTurn(z, axis, g, moves[i], run[i]) {
        TurnAgrees(zone, z, axis, root, g, moves[i], run[i], run[i + 1]);
      }
    }
  }

  lemma {:induction false} AgreesUpTo(zone: Zone, z: int, axis: Axis, root: map<RoomId, RoomId>, g: Groups, s: State, s': State, run: seq<State>,
                                      moves: seq<Move>, n: nat)
    requires TurnsRun(zone, z, axis, root, g, s, s', run, moves) && Agrees(s.r, s.occ) && n <= |moves|
    requires forall i :: 0 <= i < n ==> HarmlessTurn(z, axis, g, moves[i], run[i])
    ensures forall i :: 0 <= i <= n ==> Agrees(run[i].r, run[i].occ)
  {
    hide Agrees, Turn, HarmlessTurn;
    if n > 0 {
      AgreesUpTo(zone, z, axis, root, g, s, s', run, moves, n - 1);
      TurnAgrees(zone, z, axis, root, g, moves[n - 1], run[n - 1], run[n]);
    }
  }

  lemma TurnAgrees(zone: Zone, z: int, axis: Axis, root: map<RoomId, RoomId>, g: Groups, m: Move, s: State, s': State)
    requires m.k in g.members && Turn(zone, z, axis, root, g, m.k, g.members[m.k], m.t, s.r, s.occ, s'.r, s'.occ) && Agrees(s.r, s.occ)
    ensures Agrees(s'.r, s'.occ) <==> HarmlessTurn(z, axis, g, m, s)
  {
    hide Agrees, Harmless, Outcome, Misaligned, GroupsPlaced, Aligned, FirstMode, Batched, Shiftable;
  }

  /** A group whose outliers lie on one side of the target has a harmless turn. */
  lemma OneSidedHarmless(zone: Zone, z: int, axis: Axis, root: map<RoomId, RoomId>, g: Groups, m: Move, s: State, s': State)
    requires m.k in g.members && Turn(zone, z, axis, root, g, m.k, g.members[m.k], m.t, s.r, s.occ, s'.r, s'.occ)
    requires Agrees(s.r, s.occ) && s.r.Valid() && OneSided(s.r, axis, g.members[m.k], m.t.target)
    ensures HarmlessTurn(z, axis, g, m, s)
  {
    hide Agrees, OneSided, Misaligned, GroupsPlaced, Aligned, FirstMode, Batched, BatchOk, Mends, CleanShift, OneWay, AfterShift;
    var group := g.members[m.k];
    if !Aligned(s.r, axis, group) {
      var batch, sign := m.t.batch, PushSign(m.t.batch);
      BatchedDelta(zone, s.r, axis, root, m.k, group, m.t.target, batch);
      OneSidedWay(s.r, axis, group, m.t.target, batch, sign);
      OneWayShift(s.r, s.occ, z, axis, sign, batch);
      OneWayMends(s.r, s.occ, z, axis, sign, batch);
    }
  }

  lemma OneWayMends(r: Layout, occ: Occupancy, z: int, axis: Axis, sign: int, batch: Batch)
    requires r.Valid() && Agrees(r, occ) && z in occ && BatchOk(r, z, batch) && (sign == 1 || sign == -1)
    requires (forall id :: id in batch.ids ==> id in r.at) && CleanShift(r, occ[z], z, axis, sign, batch)
    ensures Mends(r, AfterShift(r, occ[z], z, axis, sign, batch), z)
  {
    BatchParts(r, z, batch);
    var sorted := SortByCoord(r, axis, sign, batch.ids);
    SortOrdered(r, axis, sign, batch.ids);
    RaisedLoose(r, occ, z, batch, sorted);
    LooseExact(r, Raised(r, occ[z], batch).cells, z, Members(sorted));
    hide Loose, Agrees, PushAll, StraysAll, SortByCoord, Ordered, BatchOk, BoardExact;
    forall id | id in sorted ensures r.On(id, z) && id in Targets(r, axis, batch) { TargetOf(r, axis, batch, id); }
    CleanIsExact(Raised(r, occ[z], batch), z, axis, sign, sorted, Targets(r, axis, batch));
    CleanMends(r, AfterShift(r, occ[z], z, axis, sign, batch), z);
  }

  /** No group would be shifted. */
  ghost predicate AllSettled(zone: Zone, r: Layout, cells: set<Cell>, z: int, axis: Axis, root: map<RoomId, RoomId>, g: Groups) {
    forall k :: k in g.roots && k in g.members ==> exists t :: Settled(zone, r, cells, z, axis, root, g, k, g.members[k], t)
  }

  lemma SmallAligned(r: Layout, axis: Axis, group: seq<RoomId>)
    requires |group| <= 1
    ensures Aligned(r, axis, group)
  {
  }

  /** One pass over the multi-room groups. */
  method AlignGroups(b: Board, z: int, axis: Axis, g: Groups, start: map<RoomId, RoomId>,
                     ghost root: map<RoomId, RoomId>, ghost order: map<RoomId, nat>, ghost top: nat)
    returns (anyShift: bool, parent: map<RoomId, RoomId>, ghost run: seq<State>, ghost moves: seq<Move>)
    requires b.Ready() && z in b.occupied && Forest(start, root, order, top) && start.Keys == root.Keys
    requires GroupsOk(b.result, z, root, g) && GroupsPlaced(b.result, g) && forall x :: x in root <==> b.result.On(x, z)
    modifies b`result, b`occupied
    ensures b.Ready() && Contained(z, old(b.result), old(b.occupied), b.result, b.occupied)
    ensures Forest(parent, root, order, top) && parent.Keys == root.Keys && GroupsPlaced(b.result, g)
    ensures TurnsRun(b.zone, z, axis, root, g, State(old(b.result), old(b.occupied)), State(b.result, b.occupied), run, moves) && run != []
    ensures !anyShift ==> b.result == old(b.result)
    ensures anyShift ==> Misaligned(b.result, axis, g) < Misaligned(old(b.result), axis, g)
    ensures !anyShift && AllAgree(run) ==>
      b.occupied == old(b.occupied) && AllSettled(b.zone, b.result, old(b.occupied)[z], z, axis, root, g)
    ensures (forall k :: k in g.members ==> Aligned(old(b.result), axis, g.members[k])) ==>
      !anyShift && b.result == old(b.result) && b.occupied == old(b.occupied)
  {
    hide Forest, GroupsOk, Contained, ReadyState, Misaligned, GroupsPlaced, Agrees, Aligned, Settled, Turn, AllAgree, TurnsRun;
    RunStart(b.zone, z, axis, root, g, State(b.result, b.occupied));
    ghost var r0, occ0 := b.result, b.occupied;
    GroupMembers(r0, z, root, g);
    SameContained(z, r0, occ0);
    anyShift, parent := false, start;
    run, moves := [State(r0, occ0)], [];
    var roots := LargestFirst(g, g.roots);
    for i := 0 to |roots|
      invariant b.Ready() && Contained(z, r0, occ0, b.result, b.occupied)
      invariant Forest(parent, root, order, top) && parent.Keys == root.Keys && GroupsPlaced(b.result, g)
      invariant TurnsRun(b.zone, z, axis, root, g, State(r0, occ0), State(b.result, b.occupied), run, moves)
      invariant run != [] && run[0] == State(r0, occ0)
      invariant !anyShift ==> b.result == r0
      invariant anyShift ==> Misaligned(b.result, axis, g) < Misaligned(r0, axis, g)
      invariant !anyShift && AllAgree(run) ==>
        b.occupied == occ0 && forall k :: k in roots[..i] ==> exists t :: Settled(b.zone, r0, occ0[z], z, axis, root, g, k, g.members[k], t)
      invariant (forall k :: k in g.members ==> Aligned(r0, axis, g.members[k])) ==> !anyShift && b.result == r0 && b.occupied == occ0
    {
      assert roots[i] in roots;
      TakeStep(roots, i);
      ghost var r, occ := b.result, b.occupied;
      ContainedKeys(z, r0, occ0, r, occ);
      GroupsStill(r0, r, z, root, g);
      GroupMembers(r, z, root, g);
      var shifted;
      ghost var trial;
      shifted, parent, trial := AlignGroup(b, z, axis, g, g.members[roots[i]], parent, root, order, top, roots[i]);
      if Aligned(r, axis, g.members[roots[i]]) { AlignedTurn(b.zone, z, axis, root, g, roots[i], g.members[roots[i]], trial, r, occ, b.result, b.occupied); }
      if !shifted { StayedSettled(b.zone, z, axis, root, g, roots[i], g.members[roots[i]], trial, r, occ, b.occupied); }
      RunStep(b.zone, z, axis, root, g, State(r0, occ0), State(r, occ), State(b.result, b.occupied), run, moves, Move(roots[i], trial));
      ContainedTrans(z, r0, occ0, r, occ, b.result, b.occupied);
      AgreeStep(run, State(b.result, b.occupied));
      run, moves := run + [State(b.result, b.occupied)], moves + [Move(roots[i], trial)];
      if shifted { anyShift := true; }
      if !anyShift && AllAgree(run) { StillSame(z, r0, occ0, b.occupied); }
    }
    TakeAll(roots);
    if !anyShift && AllAgree(run) { AllSettledFrom(b.zone, r0, occ0[z], z, axis, root, g, roots); }
  }

  lemma AgreeStep(run: seq<State>, s: State)
    ensures AllAgree(run + [s]) ==> AllAgree(run) && Agrees(s.r, s.occ) && (run != [] ==> Agrees(run[0].r, run[0].occ))
  {
    hide Agrees;
    if AllAgree(run + [s]) {
      forall i | 0 <= i < |run| ensures Agrees(run[i].r, run[i].occ) { assert (run + [s])[i] == run[i]; }
      assert (run + [s])[|run|] == s;
    }
  }

  /** A turn that leaves the layout as it was found nothing better. */
  lemma StayedSettled(zone: Zone, z: int, axis: Axis, root: map<RoomId, RoomId>, g: Groups, k: RoomId, group: seq<RoomId>, t: Trial,
                      r: Layout, occ: Occupancy, occ': Occupancy)
    requires Turn(zone, z, axis, root, g, k, group, t, r, occ, r, occ') && z in occ
    ensures Settled(zone, r, occ[z], z, axis, root, g, k, group, t)
  {
    hide Harmless, Outcome, Misaligned, GroupsPlaced, Aligned, Tries;
  }

  lemma AlignedTurn(zone: Zone, z: int, axis: Axis, root: map<RoomId, RoomId>, g: Groups, k: RoomId, group: seq<RoomId>, t: Trial,
                    r: Layout, occ: Occupancy, r': Layout, occ': Occupancy)
    requires Turn(zone, z, axis, root, g, k, group, t, r, occ, r', occ') && Aligned(r, axis, group)
    ensures r' == r && occ' == occ
  {
    hide Aligned;
  }

  lemma RunStart(zone: Zone, z: int, axis: Axis, root: map<RoomId, RoomId>, g: Groups, s: State)
    ensures TurnsRun(zone, z, axis, root, g, s, s, [s], [])
  {
  }

  lemma RunStep(zone: Zone, z: int, axis: Axis, root: map<RoomId, RoomId>, g: Groups, s: State, s1: State, s2: State, run: seq<State>, moves: seq<Move>, m: Move)
    requires TurnsRun(zone, z, axis, root, g, s, s1, run, moves) && m.k in g.members
    requires Turn(zone, z, axis, root, g, m.k, g.members[m.k], m.t, s1.r, s1.occ, s2.r, s2.occ)
    ensures TurnsRun(zone, z, axis, root, g, s, s2, run + [s2], moves + [m])
  {
    hide Turn;
  }

  lemma RunJoin(zone: Zone, z: int, axis: Axis, root: map<RoomId, RoomId>, g: Groups, s: State, s1: State, s2: State,
                run: seq<State>, moves: seq<Move>, run': seq<State>, moves': seq<Move>)
    requires TurnsRun(zone, z, axis, root, g, s, s1, run, moves) && TurnsRun(zone, z, axis, root, g, s1, s2, run', moves')
    ensures TurnsRun(zone, z, axis, root, g, s, s2, run + run'[1..], moves + moves')
    ensures AllAgree(run + run'[1..]) ==> AllAgree(run')
  {
    hide Turn, Agrees;
    var whole, all := run + run'[1..], moves + moves';
    forall i | 0 <= i < |all| ensures Moves(zone, z, axis, root, g, all[i], whole[i], whole[i + 1]) {
      if i >= |moves| {
        assert all[i] == moves'[i - |moves|] && whole[i] == run'[i - |moves|] && whole[i + 1] == run'[i - |moves| + 1];
      }
    }
    if AllAgree(whole) {
      forall i | 0 <= i < |run'| ensures Agrees(run'[i].r, run'[i].occ) { assert whole[|moves| + i] == run'[i]; }
    }
  }

  lemma StillSame(z: int, r: Layout, occ: Occupancy, occ': Occupancy)
    requires Agrees(r, occ) && Contained(z, r, occ, r, occ') && Agrees(r, occ')
    ensures occ' == occ
  {
    hide Agrees;
    SameBoard(z, r, occ, occ');
  }

  lemma AllSettledFrom(zone: Zone, r: Layout, cells: set<Cell>, z: int, axis: Axis, root: map<RoomId, RoomId>, g: Groups, roots: seq<RoomId>)
    requires forall k :: k in g.roots ==> k in g.members
    requires forall k :: k in roots <==> k in g.roots && k in g.members && |g.members[k]| > 1
    requires forall k :: k in roots ==> exists t :: Settled(zone, r, cells, z, axis, root, g, k, g.members[k], t)
    ensures AllSettled(zone, r, cells, z, axis, root, g)
  {
    forall k | k in g.roots && k in g.members ensures exists t :: Settled(zone, r, cells, z, axis, root, g, k, g.members[k], t) {
      if |g.members[k]| <= 1 {
        SmallAligned(r, axis, g.members[k]);
        assert Settled(zone, r, cells, z, axis, root, g, k, g.members[k], Trial(0, Batch([], map[])));
      } else {
        assert k in roots;
      }
    }
  }

  /** How alignAxis went: the groups, so many passes with a shift, and the turns of all passes with
      the states in between. */
  datatype Alignment = Alignment(g: Groups, root: map<RoomId, RoomId>, passes: nat, run: seq<State>, moves: seq<Move>)

  /** The groups are the connected components; no room changes floor and no other floor is touched;
      each pass leaves fewer rooms off their group's coordinate, until no group would be shifted,
      unless the passes run out or the board has ceased to agree. */
  ghost predicate AxisAligned(zone: Zone, z: int, axis: Axis, r: Layout, occ: Occupancy, how: Alignment, r': Layout, occ': Occupancy) {
    && Contained(z, r, occ, r', occ')
    && Classes(zone, r, z, axis, how.root) && GroupsOk(r, z, how.root, how.g) && InClasses(how.root, how.g, FloorRooms(r, z)) && GroupsPlaced(r, how.g) && GroupsPlaced(r', how.g)
    && TurnsRun(zone, z, axis, how.root, how.g, State(r, occ), State(r', occ'), how.run, how.moves)
    && (how.passes == 0 ==> r' == r) && Misaligned(r', axis, how.g) + how.passes <= Misaligned(r, axis, how.g)
    && (how.passes < CARDINAL_ALIGNMENT_ITERATIONS && AllAgree(how.run) ==>
         z in occ' && AllSettled(zone, r', occ'[z], z, axis, how.root, how.g))
  }

  method AlignAxis(b: Board, z: int, axis: Axis) returns (ghost how: Alignment)
    requires b.Ready() && z in b.occupied
    modifies b`result, b`occupied
    ensures b.Ready() && AxisAligned(b.zone, z, axis, old(b.result), old(b.occupied), how, b.result, b.occupied)
    ensures AxisStraight(b.zone, old(b.result), z, axis) ==> b.result == old(b.result) && b.occupied == old(b.occupied)
  {
    hide Forest, GroupsOk, Contained, ReadyState, Misaligned, GroupsPlaced, Aligned, AxisStraight, Connected, Classes, AllSettled, AllAgree, TurnsRun, Agrees;
    ghost var r0, occ0 := b.result, b.occupied;
    ReadyParts(b.zone, r0, b.floors, occ0);
    SameContained(z, r0, occ0);
    var parent, g;
    ghost var root, order, top;
    parent, root, order, top := UnionAll(b.zone, b.result, z, axis);
    ClassKeys(b.zone, r0, z, axis, root);
    g, parent := GroupByRoot(b.result, z, parent, root, order, top);
    GroupMembers(r0, z, root, g);
    if AxisStraight(b.zone, r0, z, axis) {
      forall k | k in g.members ensures Aligned(r0, axis, g.members[k]) {
        StraightAligned(b.zone, r0, z, axis, root, g.members[k], k);
      }
    }
    RunStart(b.zone, z, axis, root, g, State(r0, occ0));
    how := Alignment(g, root, 0, [State(r0, occ0)], []);
    for iter := 0 to CARDINAL_ALIGNMENT_ITERATIONS
      invariant b.Ready() && Contained(z, r0, occ0, b.result, b.occupied)
      invariant Forest(parent, root, order, top) && parent.Keys == root.Keys && GroupsPlaced(b.result, g)
      invariant how.g == g && how.root == root && how.passes == iter && (iter == 0 ==> b.result == r0)
      invariant TurnsRun(b.zone, z, axis, root, g, State(r0, occ0), State(b.result, b.occupied), how.run, how.moves)
      invariant Misaligned(b.result, axis, g) + iter <= Misaligned(r0, axis, g)
      invariant AxisStraight(b.zone, r0, z, axis) ==> b.result == r0 && b.occupied == occ0
    {
      ghost var r, occ := b.result, b.occupied;
      ContainedKeys(z, r0, occ0, r, occ);
      GroupsStill(r0, r, z, root, g);
      var anyShift;
      ghost var run, moves;
      anyShift, parent, run, moves := AlignGroups(b, z, axis, g, parent, root, order, top);
      RunJoin(b.zone, z, axis, root, g, State(r0, occ0), State(r, occ), State(b.result, b.occupied), how.run, how.moves, run, moves);
      how := how.(run := how.run + run[1..], moves := how.moves + moves);
      ContainedTrans(z, r0, occ0, r, occ, b.result, b.occupied);
      ContainedKeys(z, r0, occ0, b.result, b.occupied);
      if !anyShift { break; }
      how := how.(passes := how.passes + 1);
    }
  }

  lemma ClassKeys(zone: Zone, r: Layout, z: int, axis: Axis, root: map<RoomId, RoomId>)
    requires Classes(zone, r, z, axis, root)
    ensures forall x :: x in root <==> r.On(x, z)
  {
  }

  lemma PerfectStraight(zone: Zone, r: Layout, z: int, axis: Axis)
    requires r.Valid() && Scores.Perfect(zone, r, z)
    ensures AxisStraight(zone, r, z, axis)
  {
    AllOutMembers(zone, zone.ids);
    hide Scores.Perfect, Zone.Out;
    forall a, b | Adjacent(zone, r, z, axis, a, b) && a in r.at && b in r.at ensures Coord(r, axis, a) == Coord(r, axis, b) {
      var e :| e in AllEdges(zone) && Joins(r, z, axis, e) && ((e.from == a && e.to == b) || (e.from == b && e.to == a));
      PerfectEdge(zone, r, z, axis, e);
    }
  }

  lemma PerfectEdge(zone: Zone, r: Layout, z: int, axis: Axis, e: Edge)
    requires r.Valid() && Scores.Perfect(zone, r, z) && e in zone.Out(e.from) && Joins(r, z, axis, e)
    ensures Coord(r, axis, e.from) == Coord(r, axis, e.to)
  {
    assert e.from in r.order && Scores.BothOn(r, z, e);
  }

  ghost predicate AlignRun(zone: Zone, floors: seq<int>, s: State, s': State, run: seq<State>, how: seq<Alignment>) {
    && Run(run, 2 * |floors|, s, s') && |how| == 2 * |floors|
    && forall i :: 0 <= i < 2 * |floors| ==> AxisDone(zone, floors, i, run[i], how[i], run[i + 1])
  }

  /** The phase took both axes of the floors in turn. */
  ghost predicate AlignedAll(zone: Zone, floors: seq<int>, s: State, s': State) {
    exists run, how :: AlignRun(zone, floors, s, s', run, how)
  }

  /** Phase 5c: both axes of every floor in turn. Rooms keep their floors, and a layout whose
      exits are all exact is left alone. */
  method FixCardinalAlignment(b: Board)
    requires b.Ready()
    modifies b`result, b`occupied
    ensures b.Ready() && SameFloors(old(b.result), b.result) && b.occupied.Keys == old(b.occupied).Keys
    ensures Relax.AllPerfect(b.zone, old(b.result)) ==> b.result == old(b.result) && b.occupied == old(b.occupied)
    ensures AlignedAll(b.zone, b.floors, State(old(b.result), old(b.occupied)), State(b.result, b.occupied))
  {
    hide ReadyState, AxisAligned, AxisStraight, Scores.Perfect;
    ghost var r0, occ0 := b.result, b.occupied;
    ghost var run, how: seq<Alignment> := [State(r0, occ0)], [];
    for i := 0 to |b.floors|
      invariant b.Ready() && SameFloors(r0, b.result) && b.occupied.Keys == occ0.Keys
      invariant Relax.AllPerfect(b.zone, r0) ==> b.result == r0 && b.occupied == occ0
      invariant Run(run, 2 * i, State(r0, occ0), State(b.result, b.occupied)) && |how| == 2 * i
      invariant forall j :: 0 <= j < 2 * i ==> AxisDone(b.zone, b.floors, j, run[j], how[j], run[j + 1])
    {
      var z := b.floors[i];
      FloorIsOpen(b.zone, b.result, b.floors, b.occupied, i);
      ghost var r, occ := b.result, b.occupied;
      ReadyParts(b.zone, r, b.floors, occ);
      if Scores.Perfect(b.zone, r, z) {
        PerfectStraight(b.zone, r, z, EastWest);
        PerfectStraight(b.zone, r, z, NorthSouth);
      }
      ghost var rows := AlignAxis(b, z, EastWest);
      ghost var r1, occ1 := b.result, b.occupied;
      AlignedFloors(b.zone, z, EastWest, r, occ, rows, r1, occ1);
      ghost var columns := AlignAxis(b, z, NorthSouth);
      AlignedFloors(b.zone, z, NorthSouth, r1, occ1, columns, b.result, b.occupied);
      run, how := run + [State(r1, occ1), State(b.result, b.occupied)], how + [rows, columns];
    }
    assert AlignRun(b.zone, b.floors, State(r0, occ0), State(b.result, b.occupied), run, how);
  }

  /** Each floor has two turns: first its rows, then its columns. */
  ghost predicate AxisDone(zone: Zone, floors: seq<int>, i: nat, s: State, how: Alignment, s': State)
    requires i < 2 * |floors|
  {
    AxisAligned(zone, floors[i / 2], if i % 2 == 0 then EastWest else NorthSouth, s.r, s.occ, how, s'.r, s'.occ)
  }

  lemma AlignedFloors(zone: Zone, z: int, axis: Axis, r: Layout, occ: Occupancy, how: Alignment, r': Layout, occ': Occupancy)
    requires AxisAligned(zone, z, axis, r, occ, how, r', occ')
    ensures SameFloors(r, r') && occ'.Keys == occ.Keys
  {
    hide Classes, GroupsOk, GroupsPlaced, Misaligned, AllAgree, TurnsRun, AllSettled, Agrees;
  }
}
