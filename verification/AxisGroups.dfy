/** Alignment groups: the rooms of a floor joined by east/west (or north/south) exits, found by
    union-find in one phase and by breadth-first search in another. */
module AxisGroups {
  import opened Sums
  import opened Zones

  /** East/west groups share a row; north/south groups share a column. */
  datatype Axis = EastWest | NorthSouth {
    predicate Includes(d: Dir) {
      if EastWest? then d.East? || d.West? else d.North? || d.South?
    }

    function Other(): Axis { if EastWest? then NorthSouth else EastWest }
  }

  // ---- The relation ----

  predicate Joins(r: Layout, z: int, axis: Axis, e: Edge) {
    axis.Includes(e.dir) && r.On(e.from, z) && r.On(e.to, z)
  }

  /** An exit of the axis leads from one room to the other, either way. */
  ghost predicate Adjacent(zone: Zone, r: Layout, z: int, axis: Axis, a: RoomId, b: RoomId) {
    exists e :: e in AllEdges(zone) && Joins(r, z, axis, e) && ((e.from == a && e.to == b) || (e.from == b && e.to == a))
  }

  function AllEdges(zone: Zone): seq<Edge> {
    AllOut(zone, zone.ids)
  }

  ghost predicate Chain(zone: Zone, r: Layout, z: int, axis: Axis, path: seq<RoomId>) {
    forall i :: 0 < i < |path| ==> Adjacent(zone, r, z, axis, path[i - 1], path[i])
  }

  /** The undirected connectivity of the axis on a floor. */
  ghost predicate Connected(zone: Zone, r: Layout, z: int, axis: Axis, a: RoomId, b: RoomId) {
    exists path :: |path| > 0 && path[0] == a && path[|path| - 1] == b && Chain(zone, r, z, axis, path)
  }

  lemma ConnectedRefl(zone: Zone, r: Layout, z: int, axis: Axis, a: RoomId)
    ensures Connected(zone, r, z, axis, a, a)
  {
    var path := [a];
    assert path[0] == a && path[|path| - 1] == a && Chain(zone, r, z, axis, path);
  }

  lemma ConnectedTrans(zone: Zone, r: Layout, z: int, axis: Axis, a: RoomId, b: RoomId, c: RoomId)
    requires Connected(zone, r, z, axis, a, b) && Connected(zone, r, z, axis, b, c)
    ensures Connected(zone, r, z, axis, a, c)
  {
    hide Adjacent;
    var p :| |p| > 0 && p[0] == a && p[|p| - 1] == b && Chain(zone, r, z, axis, p);
    var q :| |q| > 0 && q[0] == b && q[|q| - 1] == c && Chain(zone, r, z, axis, q);
    var path := p + q[1..];
    forall i | 0 < i < |path| ensures Adjacent(zone, r, z, axis, path[i - 1], path[i]) {
      if i < |p| {
        assert Adjacent(zone, r, z, axis, p[i - 1], p[i]);
      } else {
        assert Adjacent(zone, r, z, axis, q[i - |p|], q[i - |p| + 1]);
        assert path[i] == q[i - |p| + 1];
        assert path[i - 1] == if i == |p| then q[0] else q[i - |p|];
      }
    }
    assert path[|path| - 1] == c;
  }

  lemma ConnectedSym(zone: Zone, r: Layout, z: int, axis: Axis, a: RoomId, b: RoomId)
    requires Connected(zone, r, z, axis, a, b)
    ensures Connected(zone, r, z, axis, b, a)
  {
    var p :| |p| > 0 && p[0] == a && p[|p| - 1] == b && Chain(zone, r, z, axis, p);
    var path := seq(|p|, i requires 0 <= i < |p| => p[|p| - 1 - i]);
    forall i | 0 < i < |path| ensures Adjacent(zone, r, z, axis, path[i - 1], path[i]) {
      assert Adjacent(zone, r, z, axis, p[|p| - 1 - i], p[|p| - i]);
    }
    assert path[0] == b && path[|path| - 1] == a;
  }

  lemma ConnectedStep(zone: Zone, r: Layout, z: int, axis: Axis, a: RoomId, b: RoomId)
    requires Adjacent(zone, r, z, axis, a, b)
    ensures Connected(zone, r, z, axis, a, b)
  {
    var path := [a, b];
    assert path[0] == a && path[|path| - 1] == b && Chain(zone, r, z, axis, path);
  }

  /** Whatever adjacent rooms agree on, connected rooms agree on. */
  lemma {:induction false} ChainInvariant<T(!new)>(zone: Zone, r: Layout, z: int, axis: Axis, path: seq<RoomId>, f: RoomId -> T)
    requires |path| > 0 && Chain(zone, r, z, axis, path)
    requires forall a, b :: Adjacent(zone, r, z, axis, a, b) ==> f(a) == f(b)
    ensures f(path[0]) == f(path[|path| - 1])
    decreases |path|
  {
    if |path| > 1 {
      assert Adjacent(zone, r, z, axis, path[0], path[1]);
      forall i | 0 < i < |path[1..]| ensures Adjacent(zone, r, z, axis, path[1..][i - 1], path[1..][i]) {
        assert Adjacent(zone, r, z, axis, path[i], path[i + 1]);
      }
      ChainInvariant(zone, r, z, axis, path[1..], f);
    }
  }

  lemma ConnectedInvariant<T(!new)>(zone: Zone, r: Layout, z: int, axis: Axis, a: RoomId, b: RoomId, f: RoomId -> T)
    requires Connected(zone, r, z, axis, a, b)
    requires forall x, y :: Adjacent(zone, r, z, axis, x, y) ==> f(x) == f(y)
    ensures f(a) == f(b)
  {
    var path :| |path| > 0 && path[0] == a && path[|path| - 1] == b && Chain(zone, r, z, axis, path);
    ChainInvariant(zone, r, z, axis, path, f);
  }

  lemma AdjacentIff(zone: Zone, r: Layout, z: int, axis: Axis, a: RoomId, b: RoomId)
    ensures Adjacent(zone, r, z, axis, a, b) <==>
      || (exists e :: e in zone.Out(a) && a in zone.ids && e.to == b && Joins(r, z, axis, e))
      || (exists e :: e in zone.In(a) && e.from == b && Joins(r, z, axis, e))
  {
    AllOutMembers(zone, zone.ids);
    OutMembers(a, zone.ExitsOf(a));
    zone.InFromMembers(zone.ids, a);
  }

  // ---- Breadth-first search ----

  /** The neighbours of one room along the axis that are not in the group yet. */
  method AdjoinAxis(zone: Zone, r: Layout, z: int, axis: Axis, id: RoomId, group: seq<RoomId>) returns (group': seq<RoomId>)
    requires NoDup(group) && r.On(id, z) && id in zone.ids
    ensures NoDup(group') && group <= group'
    ensures forall x :: x in group' <==> x in group || Adjacent(zone, r, z, axis, id, x)
  {
    hide Zone.Out, Zone.In, Adjacent;
    group' := group;
    var out, back := zone.Out(id), zone.In(id);
    for i := 0 to |out|
      invariant NoDup(group') && group <= group'
      invariant forall x :: x in group' <==> x in group || exists e :: e in out[..i] && e.to == x && Joins(r, z, axis, e)
    {
      assert out[..i + 1] == out[..i] + [out[i]];
      var e := out[i];
      assert e in out;
      OutFrom(zone, id, e);
      if axis.Includes(e.dir) && r.On(e.to, z) && e.to !in group' { group' := group' + [e.to]; }
    }
    assert out[..|out|] == out;
    ghost var middle := group';
    for i := 0 to |back|
      invariant NoDup(group') && group <= group'
      invariant forall x :: x in group' <==> x in middle || exists e :: e in back[..i] && e.from == x && Joins(r, z, axis, e)
    {
      assert back[..i + 1] == back[..i] + [back[i]];
      var e := back[i];
      assert e in back;
      InTo(zone, id, e);
      if axis.Includes(e.dir) && r.On(e.from, z) && e.from !in group' { group' := group' + [e.from]; }
    }
    assert back[..|back|] == back;
    forall x ensures x in group' <==> x in group || Adjacent(zone, r, z, axis, id, x) {
      AdjacentIff(zone, r, z, axis, id, x);
    }
  }

  lemma InTo(zone: Zone, id: RoomId, e: Edge)
    requires e in zone.In(id)
    ensures e.to == id
  {
    zone.InFromMembers(zone.ids, id);
  }

  /** buildAxisGroup: exactly the rooms connected to the seed. */
  method BuildAxisGroup(zone: Zone, r: Layout, z: int, axis: Axis, seed: RoomId) returns (group: seq<RoomId>)
    requires zone.Valid() && r.Valid() && r.On(seed, z) && forall id :: id in r.order ==> id in zone.ids
    ensures NoDup(group) && seed in group
    ensures forall x :: x in group <==> Connected(zone, r, z, axis, seed, x)
    ensures forall x :: x in group ==> r.On(x, z)
  {
    hide Adjacent, Connected;
    group := [seed];
    ConnectedRefl(zone, r, z, axis, seed);
    var head := 0;
    while head < |group|
      invariant 0 <= head <= |group| && NoDup(group) && seed in group
      invariant forall x :: x in group ==> r.On(x, z) && Connected(zone, r, z, axis, seed, x)
      invariant forall i, x :: 0 <= i < head && Adjacent(zone, r, z, axis, group[i], x) ==> x in group
      decreases |r.order| - head
    {
      DistinctWithin(group, r.order);
      var id := group[head];
      assert id in group;
      ghost var before := group;
      group := AdjoinAxis(zone, r, z, axis, id, group);
      forall x | x in group ensures r.On(x, z) && Connected(zone, r, z, axis, seed, x) {
        if x !in before {
          AdjacentOn(zone, r, z, axis, id, x);
          ConnectedStep(zone, r, z, axis, id, x);
          ConnectedTrans(zone, r, z, axis, seed, id, x);
        }
      }
      head := head + 1;
    }
    ghost var inGroup := (x: RoomId) => x in group;
    forall x | Connected(zone, r, z, axis, seed, x) ensures x in group {
      forall a, b | Adjacent(zone, r, z, axis, a, b) ensures inGroup(a) == inGroup(b) {
        AdjacentSym(zone, r, z, axis, a, b);
        if a in group { var i :| 0 <= i < |group| && group[i] == a; }
        if b in group { var i :| 0 <= i < |group| && group[i] == b; }
      }
      ConnectedInvariant(zone, r, z, axis, seed, x, inGroup);
    }
  }

  lemma AdjacentOn(zone: Zone, r: Layout, z: int, axis: Axis, a: RoomId, b: RoomId)
    requires Adjacent(zone, r, z, axis, a, b)
    ensures r.On(a, z) && r.On(b, z)
  {
  }

  lemma AdjacentSym(zone: Zone, r: Layout, z: int, axis: Axis, a: RoomId, b: RoomId)
    requires Adjacent(zone, r, z, axis, a, b)
    ensures Adjacent(zone, r, z, axis, b, a)
  {
  }

  // ---- Union-find ----

  /** One node of the parent forest: its root, and an order that grows towards the root. */
  ghost predicate Node(parent: map<RoomId, RoomId>, root: map<RoomId, RoomId>, order: map<RoomId, nat>, top: nat, x: RoomId) {
    && x in parent && x in root && x in order && order[x] <= top
    && var p, q := parent[x], root[x];
       && p in parent && p in root && p in order && q in parent && q in root
       && (p == x <==> q == x)
       && root[p] == q && root[q] == q
       && (p != x ==> order[x] < order[p])
  }

  ghost predicate Forest(parent: map<RoomId, RoomId>, root: map<RoomId, RoomId>, order: map<RoomId, nat>, top: nat) {
    && root.Keys == parent.Keys && order.Keys == parent.Keys
    && forall x {:trigger Node(parent, root, order, top, x)} :: x in parent ==> Node(parent, root, order, top, x)
  }

  /** Find the root, then point every node on the way at it. */
  method UfFind(parent: map<RoomId, RoomId>, x: RoomId, ghost root: map<RoomId, RoomId>, ghost order: map<RoomId, nat>, ghost top: nat)
    returns (found: RoomId, parent': map<RoomId, RoomId>)
    requires Forest(parent, root, order, top) && x in parent
    ensures found == root[x] && Forest(parent', root, order, top) && parent'.Keys == parent.Keys
    ensures found in parent && root[found] == found
  {
    found := x;
    assert Node(parent, root, order, top, x);
    while parent[found] != found
      invariant Node(parent, root, order, top, found) && root[found] == root[x]
      decreases top - order[found]
    {
      found := parent[found];
      assert Node(parent, root, order, top, found);
    }
    parent' := parent;
    var cur := x;
    while cur != found
      invariant Forest(parent', root, order, top) && parent'.Keys == parent.Keys
      invariant cur in parent' && root[cur] == found && found in parent' && root[found] == found
      decreases top - order[cur]
    {
      assert Node(parent', root, order, top, cur);
      RootIsLast(parent', root, order, top, cur);
      var n := parent'[cur];
      assert Node(parent', root, order, top, n);
      Compress(parent', root, order, top, cur);
      parent' := parent'[cur := found];
      cur := n;
    }
  }

  /** A node that is not its root comes before it in the order. */
  lemma RootIsLast(parent: map<RoomId, RoomId>, root: map<RoomId, RoomId>, order: map<RoomId, nat>, top: nat, x: RoomId)
    requires Forest(parent, root, order, top) && x in parent && root[x] != x
    ensures root[x] in order && order[x] < order[root[x]]
    decreases top - order[x]
  {
    assert Node(parent, root, order, top, x) && Node(parent, root, order, top, parent[x]);
    if root[parent[x]] != parent[x] {
      RootIsLast(parent, root, order, top, parent[x]);
    }
  }

  /** Pointing a node straight at its root keeps the forest. */
  lemma Compress(parent: map<RoomId, RoomId>, root: map<RoomId, RoomId>, order: map<RoomId, nat>, top: nat, x: RoomId)
    requires Forest(parent, root, order, top) && x in parent && root[x] != x && root[x] in order && order[x] < order[root[x]]
    ensures Forest(parent[x := root[x]], root, order, top)
  {
    var parent' := parent[x := root[x]];
    assert Node(parent, root, order, top, x) && Node(parent, root, order, top, root[x]);
    forall y {:trigger Node(parent', root, order, top, y)} | y in parent' ensures Node(parent', root, order, top, y) {
      assert Node(parent, root, order, top, y);
    }
  }

  /** Merging two classes sends one class to the other's root. */
  function Merged(root: map<RoomId, RoomId>, a: RoomId, b: RoomId): map<RoomId, RoomId>
    requires a in root && b in root
  {
    map x | x in root :: if root[x] == root[a] then root[b] else root[x]
  }

  method UfUnion(parent: map<RoomId, RoomId>, a: RoomId, b: RoomId, ghost root: map<RoomId, RoomId>, ghost order: map<RoomId, nat>, ghost top: nat)
    returns (parent': map<RoomId, RoomId>, ghost root': map<RoomId, RoomId>, ghost order': map<RoomId, nat>, ghost top': nat)
    requires Forest(parent, root, order, top) && a in parent && b in parent
    ensures a in root && b in root && Forest(parent', root', order', top') && root' == Merged(root, a, b)
    ensures parent'.Keys == parent.Keys
  {
    var ra, rb;
    ra, parent' := UfFind(parent, a, root, order, top);
    rb, parent' := UfFind(parent', b, root, order, top);
    root', order', top' := Merged(root, a, b), order, top;
    if ra != rb {
      Hang(parent', root, order, top, a, b);
      parent' := parent'[ra := rb];
      order', top' := order[rb := top + 1], top + 1;
    } else {
      MergedSame(root, a, b);
    }
  }

  lemma MergedSame(root: map<RoomId, RoomId>, a: RoomId, b: RoomId)
    requires a in root && b in root && root[a] == root[b]
    ensures Merged(root, a, b) == root
  {
  }

  /** Hanging one root under another, which then comes last in the order. */
  lemma Hang(parent: map<RoomId, RoomId>, root: map<RoomId, RoomId>, order: map<RoomId, nat>, top: nat, a: RoomId, b: RoomId)
    requires Forest(parent, root, order, top) && a in root && b in root && root[a] != root[b]
    requires root[a] in parent && root[b] in parent
    ensures Forest(parent[root[a] := root[b]], Merged(root, a, b), order[root[b] := top + 1], top + 1)
  {
    var parent', root', order' := parent[root[a] := root[b]], Merged(root, a, b), order[root[b] := top + 1];
    assert Node(parent, root, order, top, a) && Node(parent, root, order, top, b);
    assert Node(parent, root, order, top, root[a]) && Node(parent, root, order, top, root[b]);
    forall y {:trigger Node(parent', root', order', top + 1, y)} | y in parent' ensures Node(parent', root', order', top + 1, y) {
      assert Node(parent, root, order, top, y);
      assert Node(parent, root, order, top, parent[y]);
      assert Node(parent, root, order, top, root[y]);
    }
  }

  /** The root of a room, connected to it. */
  ghost predicate Rooted(zone: Zone, r: Layout, z: int, axis: Axis, root: map<RoomId, RoomId>, x: RoomId) {
    x in root && root[x] in root && Connected(zone, r, z, axis, x, root[x])
  }

  ghost predicate AllRooted(zone: Zone, r: Layout, z: int, axis: Axis, root: map<RoomId, RoomId>) {
    forall x {:trigger Rooted(zone, r, z, axis, root, x)} :: x in root ==> Rooted(zone, r, z, axis, root, x)
  }

  /** The classes after the union of every exit of the axis. */
  ghost predicate Classes(zone: Zone, r: Layout, z: int, axis: Axis, root: map<RoomId, RoomId>) {
    && (forall x :: x in root <==> r.On(x, z))
    && (forall x, y :: x in root && y in root ==> (root[x] == root[y] <==> Connected(zone, r, z, axis, x, y)))
  }

  /** Union-find over all exits computes exactly the connected components. */
  method UnionAll(zone: Zone, r: Layout, z: int, axis: Axis)
    returns (parent: map<RoomId, RoomId>, ghost root: map<RoomId, RoomId>, ghost order: map<RoomId, nat>, ghost top: nat)
    requires zone.Valid() && r.Valid()
    ensures Forest(parent, root, order, top) && Classes(zone, r, z, axis, root)
  {
    hide Forest, Connected, Adjacent, Merged, Classes, AllRooted;
    parent := map id | id in r.at && r.at[id].z == z :: id;
    root, order, top := parent, map id | id in parent :: 0, 0;
    SingletonForest(zone, r, z, axis, parent, order);
    var edges := AllEdges(zone);
    for i := 0 to |edges|
      invariant Forest(parent, root, order, top)
      invariant (forall x :: x in root <==> r.On(x, z)) && parent.Keys == root.Keys
      invariant AllRooted(zone, r, z, axis, root)
      invariant forall j :: 0 <= j < i && Joins(r, z, axis, edges[j]) ==> SameRoot(root, edges[j])
    {
      var e := edges[i];
      if !r.On(e.from, z) { continue; }
      if !axis.Includes(e.dir) { continue; }
      if !r.On(e.to, z) { continue; }
      assert e in edges && Joins(r, z, axis, e);
      ghost var before := root;
      parent, root, order, top := UfUnion(parent, e.from, e.to, root, order, top);
      MergeKeeps(zone, r, z, axis, before, e);
      forall j | 0 <= j < i && Joins(r, z, axis, edges[j]) ensures SameRoot(root, edges[j]) {
        MergeKeepsEqual(before, e, edges[j].from, edges[j].to);
      }
    }
    UnionComplete(zone, r, z, axis, root, edges);
  }

  ghost predicate SameRoot(root: map<RoomId, RoomId>, e: Edge) {
    e.from in root && e.to in root && root[e.from] == root[e.to]
  }

  lemma SingletonForest(zone: Zone, r: Layout, z: int, axis: Axis, parent: map<RoomId, RoomId>, order: map<RoomId, nat>)
    requires (forall x :: x in parent ==> parent[x] == x) && order.Keys == parent.Keys && forall x :: x in order ==> order[x] == 0
    ensures Forest(parent, parent, order, 0) && AllRooted(zone, r, z, axis, parent)
  {
    forall x | x in parent ensures Rooted(zone, r, z, axis, parent, x) { ConnectedRefl(zone, r, z, axis, x); }
  }

  lemma MergeKeeps(zone: Zone, r: Layout, z: int, axis: Axis, root: map<RoomId, RoomId>, e: Edge)
    requires AllRooted(zone, r, z, axis, root)
    requires e in AllEdges(zone) && Joins(r, z, axis, e) && e.from in root && e.to in root
    ensures AllRooted(zone, r, z, axis, Merged(root, e.from, e.to))
    ensures Merged(root, e.from, e.to).Keys == root.Keys && SameRoot(Merged(root, e.from, e.to), e)
  {
    var root' := Merged(root, e.from, e.to);
    assert Adjacent(zone, r, z, axis, e.from, e.to);
    hide Connected, Adjacent;
    assert Rooted(zone, r, z, axis, root, e.from) && Rooted(zone, r, z, axis, root, e.to);
    ConnectedStep(zone, r, z, axis, e.from, e.to);
    ConnectedTrans(zone, r, z, axis, e.from, e.to, root[e.to]);
    ConnectedSym(zone, r, z, axis, e.from, root[e.from]);
    ConnectedTrans(zone, r, z, axis, root[e.from], e.from, root[e.to]);
    forall x {:trigger Rooted(zone, r, z, axis, root', x)} | x in root' ensures Rooted(zone, r, z, axis, root', x) {
      assert Rooted(zone, r, z, axis, root, x);
      if root[x] == root[e.from] {
        ConnectedTrans(zone, r, z, axis, x, root[x], root[e.to]);
      }
    }
  }

  lemma MergeKeepsEqual(root: map<RoomId, RoomId>, e: Edge, x: RoomId, y: RoomId)
    requires e.from in root && e.to in root && x in root && y in root && root[x] == root[y]
    ensures var root' := Merged(root, e.from, e.to); x in root' && y in root' && root'[x] == root'[y]
  {
  }

  lemma UnionComplete(zone: Zone, r: Layout, z: int, axis: Axis, root: map<RoomId, RoomId>, edges: seq<Edge>)
    requires edges == AllEdges(zone)
    requires forall x :: x in root <==> r.On(x, z)
    requires AllRooted(zone, r, z, axis, root)
    requires forall j :: 0 <= j < |edges| && Joins(r, z, axis, edges[j]) ==> SameRoot(root, edges[j])
    ensures Classes(zone, r, z, axis, root)
  {
    forall a, b | Adjacent(zone, r, z, axis, a, b) ensures a in root && b in root && root[a] == root[b] {
      hide AllRooted;
      var e :| e in AllEdges(zone) && Joins(r, z, axis, e) && ((e.from == a && e.to == b) || (e.from == b && e.to == a));
      var j :| 0 <= j < |edges| && edges[j] == e;
      assert SameRoot(root, edges[j]);
    }
    forall x, y | x in root && y in root ensures root[x] == root[y] <==> Connected(zone, r, z, axis, x, y) {
      SameClass(zone, r, z, axis, root, x, y);
    }
  }

  lemma SameClass(zone: Zone, r: Layout, z: int, axis: Axis, root: map<RoomId, RoomId>, x: RoomId, y: RoomId)
    requires AllRooted(zone, r, z, axis, root) && x in root && y in root
    requires forall a, b :: Adjacent(zone, r, z, axis, a, b) ==> a in root && b in root && root[a] == root[b]
    ensures root[x] == root[y] <==> Connected(zone, r, z, axis, x, y)
  {
    hide Adjacent, Connected;
    if Connected(zone, r, z, axis, x, y) {
      var f := (x: RoomId) => if x in root then Some(root[x]) else None;
      ConnectedInvariant(zone, r, z, axis, x, y, f);
    }
    if root[x] == root[y] {
      assert Rooted(zone, r, z, axis, root, x) && Rooted(zone, r, z, axis, root, y);
      ConnectedSym(zone, r, z, axis, y, root[y]);
      ConnectedTrans(zone, r, z, axis, x, root[x], y);
    }
  }

  /** The union-find class of a room is the group the breadth-first search finds from it. */
  lemma ClassIsGroup(zone: Zone, r: Layout, z: int, axis: Axis, root: map<RoomId, RoomId>, seed: RoomId, group: seq<RoomId>)
    requires Classes(zone, r, z, axis, root) && r.On(seed, z)
    requires forall x :: x in group <==> Connected(zone, r, z, axis, seed, x)
    requires forall x :: x in group ==> r.On(x, z)
    ensures forall x :: x in group <==> x in root && root[x] == root[seed]
  {
    hide Connected;
  }
}
