/** Layout scores, direction mismatches and the guards that count them locally. */
module Scores {
  import opened Sums
  import opened Zones

  const DIAGONAL_PENALTY := 20
  const DIRECTION_MISMATCH_PENALTY := 50
  const OCCLUSION_PENALTY_LIGHT := 3
  const OCCLUSION_PENALTY_HEAVY := 15

  // ---- One exit ----

  function Stretch(p: Pos, q: Pos): nat {
    Abs(q.x - p.x) + Abs(q.y - p.y)
  }

  predicate Diagonal(p: Pos, q: Pos) {
    p.x != q.x && p.y != q.y
  }

  /** The target is not strictly on the exit's side of the source. */
  predicate Mismatch(o: Offset, p: Pos, q: Pos) {
    || (o.dx > 0 && q.x - p.x <= 0)
    || (o.dx < 0 && q.x - p.x >= 0)
    || (o.dy > 0 && q.y - p.y <= 0)
    || (o.dy < 0 && q.y - p.y >= 0)
  }

  function Min(a: int, b: int): int { if a < b then a else b }
  function Max(a: int, b: int): int { if a < b then b else a }

  /** The cell lies strictly inside the straight segment from p to q. */
  predicate Between(p: Pos, q: Pos, c: Cell) {
    if p.x == q.x && c.x == p.x then Min(p.y, q.y) < c.y < Max(p.y, q.y)
    else p.y == q.y && c.y == p.y && Min(p.x, q.x) < c.x < Max(p.x, q.x)
  }

  // ---- A floor ----

  datatype Placed = Placed(id: RoomId, cell: Cell)

  /** The rooms of a floor with their cells, in layout order. */
  function Snapshot(r: Layout, z: int): seq<Placed> {
    SnapshotOf(r, z, r.order)
  }

  function SnapshotOf(r: Layout, z: int, ids: seq<RoomId>): seq<Placed> {
    if ids == [] then []
    else (if r.On(ids[0], z) then [Placed(ids[0], r.at[ids[0]].AtCell())] else []) + SnapshotOf(r, z, ids[1..])
  }

  predicate Blocks(e: Edge, p: Pos, q: Pos, o: Placed) {
    o.id != e.from && o.id != e.to && Between(p, q, o.cell)
  }

  function Blockers(zPositions: seq<Placed>, e: Edge, p: Pos, q: Pos): int {
    Sum(zPositions, (o: Placed) => if Blocks(e, p, q, o) then 1 else 0)
  }

  /** The two scores: layoutScore with its occlusion weight, and relaxationScore, whose
      diagonal penalty grows with the displacement off the exit's axis. */
  datatype ScoreFn = LayoutScore(weight: nat) | RelaxationScore {
    function Weight(): nat {
      if LayoutScore? then weight else OCCLUSION_PENALTY_LIGHT
    }

    function DiagonalCost(o: Offset, p: Pos, q: Pos): nat {
      if LayoutScore? then DIAGONAL_PENALTY
      else DIAGONAL_PENALTY * Max(if o.dx != 0 then Abs(q.y - p.y) else Abs(q.x - p.x), 1)
    }
  }

  const LIGHT := LayoutScore(OCCLUSION_PENALTY_LIGHT)
  const HEAVY := LayoutScore(OCCLUSION_PENALTY_HEAVY)

  predicate BothOn(r: Layout, z: int, e: Edge) {
    Known(e.dir) && r.On(e.from, z) && r.On(e.to, z)
  }

  function ExitCost(r: Layout, zPositions: seq<Placed>, z: int, fn: ScoreFn, e: Edge): int {
    if !BothOn(r, z, e) then 0
    else
      var p, q := r.at[e.from], r.at[e.to];
      var dist := Stretch(p, q);
      (if dist > 1 then dist - 1 else 0)
      + (if Diagonal(p, q) then fn.DiagonalCost(Off(e.dir), p, q) else 0)
      + (if Mismatch(Off(e.dir), p, q) then DIRECTION_MISMATCH_PENALTY else 0)
      + (if dist >= 2 && !Diagonal(p, q) then fn.Weight() * Blockers(zPositions, e, p, q) else 0)
  }

  function CostFn(r: Layout, zPositions: seq<Placed>, z: int, fn: ScoreFn): Edge -> int {
    (e: Edge) => ExitCost(r, zPositions, z, fn, e)
  }

  // ---- Sums over all exits ----

  function RowFn(zone: Zone, f: Edge -> int): RoomId -> int {
    (id: RoomId) => Sum(zone.Out(id), f)
  }

  function Total(zone: Zone, ids: seq<RoomId>, f: Edge -> int): int {
    Sum(ids, RowFn(zone, f))
  }

  /** The contribution of one room's exits. */
  function RoomScore(zone: Zone, r: Layout, zPositions: seq<Placed>, z: int, fn: ScoreFn, id: RoomId): int {
    Sum(zone.Out(id), CostFn(r, zPositions, z, fn))
  }

  /** The score of a floor. */
  function Score(zone: Zone, r: Layout, z: int, fn: ScoreFn): int {
    Total(zone, r.order, CostFn(r, Snapshot(r, z), z, fn))
  }

  function MismatchFn(r: Layout, z: int): Edge -> int {
    (e: Edge) => if BothOn(r, z, e) && Mismatch(Off(e.dir), r.at[e.from], r.at[e.to]) then 1 else 0
  }

  function DiagonalFn(r: Layout, z: int): Edge -> int {
    (e: Edge) => if BothOn(r, z, e) && Diagonal(r.at[e.from], r.at[e.to]) then 1 else 0
  }

  /** The exits of a floor whose target is on the wrong side. */
  function Mismatches(zone: Zone, r: Layout, z: int): int {
    Total(zone, r.order, MismatchFn(r, z))
  }

  function Diagonals(zone: Zone, r: Layout, z: int): int {
    Total(zone, r.order, DiagonalFn(r, z))
  }

  lemma TotalEq(zone: Zone, ids: seq<RoomId>, f: Edge -> int, g: Edge -> int)
    requires forall id, e :: id in ids && e in zone.Out(id) ==> f(e) == g(e)
    ensures Total(zone, ids, f) == Total(zone, ids, g)
  {
    forall id | id in ids ensures RowFn(zone, f)(id) == RowFn(zone, g)(id) {
      SumEq(zone.Out(id), f, g);
    }
    SumEq(ids, RowFn(zone, f), RowFn(zone, g));
  }

  lemma TotalLe(zone: Zone, ids: seq<RoomId>, f: Edge -> int, g: Edge -> int)
    requires forall id, e :: id in ids && e in zone.Out(id) ==> f(e) <= g(e)
    ensures Total(zone, ids, f) <= Total(zone, ids, g)
  {
    forall id | id in ids ensures RowFn(zone, f)(id) <= RowFn(zone, g)(id) {
      SumLe(zone.Out(id), f, g);
    }
    SumLe(ids, RowFn(zone, f), RowFn(zone, g));
  }

  lemma TotalPlus(zone: Zone, ids: seq<RoomId>, f: Edge -> int, g: Edge -> int, h: Edge -> int)
    requires forall e :: h(e) == f(e) + g(e)
    ensures Total(zone, ids, h) == Total(zone, ids, f) + Total(zone, ids, g)
  {
    forall id | id in ids ensures RowFn(zone, h)(id) == RowFn(zone, f)(id) + RowFn(zone, g)(id) {
      SumPlus(zone.Out(id), f, g, h);
    }
    SumPlus(ids, RowFn(zone, f), RowFn(zone, g), RowFn(zone, h));
  }

  lemma TotalZero(zone: Zone, ids: seq<RoomId>, f: Edge -> int)
    requires forall e :: f(e) >= 0
    ensures Total(zone, ids, f) >= 0
    ensures Total(zone, ids, f) == 0 <==> forall id, e :: id in ids && e in zone.Out(id) ==> f(e) == 0
  {
    forall id | id in ids
      ensures RowFn(zone, f)(id) >= 0
      ensures RowFn(zone, f)(id) == 0 <==> forall e :: e in zone.Out(id) ==> f(e) == 0
    {
      SumZero(zone.Out(id), f);
    }
    SumZero(ids, RowFn(zone, f));
  }

  /** Any listing of the same rooms gives the same total. */
  lemma TotalAnyOrder(zone: Zone, s: seq<RoomId>, t: seq<RoomId>, f: Edge -> int)
    requires NoDup(s) && NoDup(t) && forall id :: id in s <==> id in t
    ensures Total(zone, s, f) == Total(zone, t, f)
  {
    SumSupport(s, t, RowFn(zone, f));
  }

  // ---- A score of zero ----

  /** Every exit between two rooms of the floor is exactly one step in its direction. */
  ghost predicate Perfect(zone: Zone, r: Layout, z: int) {
    forall id, e :: id in r.order && e in zone.Out(id) && BothOn(r, z, e) ==> r.at[e.to] == Plus(r.at[e.from], Off(e.dir))
  }

  lemma {:induction false} SnapshotMembers(r: Layout, z: int, ids: seq<RoomId>)
    ensures forall o: Placed :: o in SnapshotOf(r, z, ids) <==> o.id in ids && r.On(o.id, z) && o.cell == r.at[o.id].AtCell()
  {
    if ids != [] {
      SnapshotMembers(r, z, ids[1..]);
      forall o
        ensures o in SnapshotOf(r, z, ids) <==> o.id in ids && r.On(o.id, z) && o.cell == r.at[o.id].AtCell()
      {
        assert o.id in ids <==> o.id == ids[0] || o.id in ids[1..];
      }
    }
  }

  lemma BlockersNonneg(zPositions: seq<Placed>, e: Edge, p: Pos, q: Pos)
    ensures Blockers(zPositions, e, p, q) >= 0
    ensures Blockers(zPositions, e, p, q) == 0 <==> forall o :: o in zPositions ==> !Blocks(e, p, q, o)
  {
    var f := (o: Placed) => if Blocks(e, p, q, o) then 1 else 0;
    SumZero(zPositions, f);
    if forall o :: o in zPositions ==> f(o) == 0 {
      forall o | o in zPositions ensures !Blocks(e, p, q, o) { assert f(o) == 0; }
    }
  }

  lemma CostNonneg(r: Layout, zPositions: seq<Placed>, z: int, fn: ScoreFn, e: Edge)
    ensures ExitCost(r, zPositions, z, fn, e) >= 0
    ensures BothOn(r, z, e) && Cardinal(e.dir) ==>
      (ExitCost(r, zPositions, z, fn, e) == 0 <==> r.at[e.to] == Plus(r.at[e.from], Off(e.dir)))
  {
    if BothOn(r, z, e) {
      var p, q := r.at[e.from], r.at[e.to];
      BlockersNonneg(zPositions, e, p, q);
      var b := Blockers(zPositions, e, p, q);
      assert fn.Weight() * b >= 0;
    }
  }

  /** The score of a floor is zero exactly when every exit on it is one step in its direction. */
  lemma ScoreZeroIffPerfect(zone: Zone, r: Layout, z: int, fn: ScoreFn)
    ensures Score(zone, r, z, fn) >= 0
    ensures Score(zone, r, z, fn) == 0 <==> Perfect(zone, r, z)
  {
    var f := CostFn(r, Snapshot(r, z), z, fn);
    forall e ensures f(e) >= 0 { CostNonneg(r, Snapshot(r, z), z, fn, e); }
    TotalZero(zone, r.order, f);
    forall id, e | id in r.order && e in zone.Out(id)
      ensures f(e) == 0 <==> (BothOn(r, z, e) ==> r.at[e.to] == Plus(r.at[e.from], Off(e.dir)))
    {
      OutMembers(id, zone.ExitsOf(id));
      CostNonneg(r, Snapshot(r, z), z, fn, e);
    }
    if forall id, e :: id in r.order && e in zone.Out(id) ==> f(e) == 0 {
      forall id, e | id in r.order && e in zone.Out(id) && BothOn(r, z, e)
        ensures r.at[e.to] == Plus(r.at[e.from], Off(e.dir))
      {
        assert f(e) == 0;
      }
    }
  }

  // ---- A floor's score sees that floor only ----

  ghost predicate SameFloor(r: Layout, r': Layout, z: int) {
    && r'.order == r.order
    && forall id :: r'.On(id, z) == r.On(id, z) && (r.On(id, z) ==> r'.at[id] == r.at[id])
  }

  lemma {:induction false} SnapshotFrame(r: Layout, r': Layout, z: int, ids: seq<RoomId>)
    requires SameFloor(r, r', z)
    ensures SnapshotOf(r', z, ids) == SnapshotOf(r, z, ids)
  {
    if ids != [] {
      SnapshotFrame(r, r', z, ids[1..]);
    }
  }

  lemma ScoreFrame(zone: Zone, r: Layout, r': Layout, z: int, fn: ScoreFn)
    requires SameFloor(r, r', z)
    ensures Score(zone, r', z, fn) == Score(zone, r, z, fn)
    ensures Mismatches(zone, r', z) == Mismatches(zone, r, z)
    ensures Diagonals(zone, r', z) == Diagonals(zone, r, z)
  {
    SnapshotFrame(r, r', z, r.order);
    TotalEq(zone, r.order, CostFn(r', Snapshot(r', z), z, fn), CostFn(r, Snapshot(r, z), z, fn));
    TotalEq(zone, r.order, MismatchFn(r', z), MismatchFn(r, z));
    TotalEq(zone, r.order, DiagonalFn(r', z), DiagonalFn(r, z));
  }

  // ---- Moving and swapping ----

  function Moved(r: Layout, id: RoomId, c: Cell, z: int): Layout {
    r.Put(id, At(c, z))
  }

  function Swapped(r: Layout, a: RoomId, b: RoomId): Layout
    requires a in r.at && b in r.at
  {
    r.Put(a, r.at[b]).Put(b, r.at[a])
  }

  /** A sum over a snapshot is a sum over the rooms of the floor. */
  lemma {:induction false} SnapshotSum(r: Layout, z: int, ids: seq<RoomId>, f: Placed -> int, g: RoomId -> int)
    requires forall id :: g(id) == if r.On(id, z) then f(Placed(id, r.at[id].AtCell())) else 0
    ensures Sum(SnapshotOf(r, z, ids), f) == Sum(ids, g)
  {
    if ids != [] {
      SnapshotSum(r, z, ids[1..], f, g);
      var head := if r.On(ids[0], z) then [Placed(ids[0], r.at[ids[0]].AtCell())] else [];
      SumAppend(head, SnapshotOf(r, z, ids[1..]), f);
      assert head != [] ==> head[1..] == [];
    }
  }

  function BlockFn(r: Layout, z: int, e: Edge, p: Pos, q: Pos): RoomId -> int {
    (id: RoomId) => if r.On(id, z) && Blocks(e, p, q, Placed(id, r.at[id].AtCell())) then 1 else 0
  }

  lemma BlockersByRoom(r: Layout, z: int, e: Edge, p: Pos, q: Pos)
    ensures Blockers(Snapshot(r, z), e, p, q) == Sum(r.order, BlockFn(r, z, e, p, q))
  {
    SnapshotSum(r, z, r.order, (o: Placed) => if Blocks(e, p, q, o) then 1 else 0, BlockFn(r, z, e, p, q));
  }

  /** A swap permutes the cells, so an exit of two other rooms keeps its number of blockers. */
  lemma BlockersSwap(r: Layout, z: int, a: RoomId, b: RoomId, e: Edge, p: Pos, q: Pos)
    requires r.Valid() && r.On(a, z) && r.On(b, z) && a != b
    requires e.from != a && e.from != b && e.to != a && e.to != b
    ensures Blockers(Snapshot(Swapped(r, a, b), z), e, p, q) == Blockers(Snapshot(r, z), e, p, q)
  {
    var r' := Swapped(r, a, b);
    BlockersByRoom(r, z, e, p, q);
    BlockersByRoom(r', z, e, p, q);
    SumSwap(r.order, a, b, BlockFn(r, z, e, p, q), BlockFn(r', z, e, p, q));
  }

  // ---- Incremental scoring of swaps ----

  /** A cardinal exit leads from c to id, or (reverse list) from id to c. */
  ghost predicate Joined(zone: Zone, c: RoomId, id: RoomId) {
    || (exists e :: e in zone.Out(c) && e.to == id)
    || (exists e :: e in zone.In(c) && e.from == id)
  }

  /** A changed room, or one on the floor that shares a cardinal exit with one. */
  ghost predicate Touches(zone: Zone, r: Layout, z: int, changed: seq<RoomId>, id: RoomId) {
    || id in changed
    || (r.On(id, z) && exists c :: c in changed && Joined(zone, c, id))
  }

  function Adjoin(s: seq<RoomId>, id: RoomId): (t: seq<RoomId>)
    ensures NoDup(s) ==> NoDup(t)
    ensures forall x :: x in t <==> x in s || x == id
  {
    if id in s then s else s + [id]
  }

  method AffectedRooms(zone: Zone, r: Layout, z: int, changed: seq<RoomId>) returns (affected: seq<RoomId>)
    requires NoDup(changed)
    ensures NoDup(affected)
    ensures forall id :: id in affected <==> Touches(zone, r, z, changed, id)
  {
    affected := changed;
    for i := 0 to |changed|
      invariant NoDup(affected)
      invariant forall id :: id in affected <==>
        id in changed || (r.On(id, z) && exists c :: c in changed[..i] && Joined(zone, c, id))
    {
      affected := AdjoinNeighbours(zone, r, z, changed[i], affected);
      assert changed[..i + 1] == changed[..i] + [changed[i]];
    }
    assert changed[..|changed|] == changed;
  }

  method AdjoinNeighbours(zone: Zone, r: Layout, z: int, c: RoomId, start: seq<RoomId>) returns (affected: seq<RoomId>)
    requires NoDup(start)
    ensures NoDup(affected)
    ensures forall id :: id in affected <==> id in start || (r.On(id, z) && Joined(zone, c, id))
  {
    hide Zone.Out, Zone.In;
    affected := start;
    var out, back := zone.Out(c), zone.In(c);
    for j := 0 to |out|
      invariant NoDup(affected)
      invariant forall id :: id in affected <==> id in start || (r.On(id, z) && exists e :: e in out[..j] && e.to == id)
    {
      TakeStep(out, j);
      if r.On(out[j].to, z) { affected := Adjoin(affected, out[j].to); }
    }
    TakeAll(out);
    ghost var middle := affected;
    for j := 0 to |back|
      invariant NoDup(affected)
      invariant forall id :: id in affected <==> id in middle || (r.On(id, z) && exists e :: e in back[..j] && e.from == id)
    {
      TakeStep(back, j);
      if r.On(back[j].from, z) { affected := Adjoin(affected, back[j].from); }
    }
    TakeAll(back);
  }

  method SumContributions(zone: Zone, r: Layout, ids: seq<RoomId>, zPositions: seq<Placed>, z: int, fn: ScoreFn)
    returns (total: int)
    ensures total == Total(zone, ids, CostFn(r, zPositions, z, fn))
  {
    total := 0;
    var f := RowFn(zone, CostFn(r, zPositions, z, fn));
    for i := 0 to |ids|
      invariant total == Sum(ids[..i], f)
    {
      total := total + RoomScore(zone, r, zPositions, z, fn, ids[i]);
      assert ids[..i + 1] == ids[..i] + [ids[i]];
      SumAppend(ids[..i], [ids[i]], f);
    }
    assert ids[..|ids|] == ids;
  }

  /** An exit of a room the swap does not affect costs the same before and after. */
  lemma UnaffectedCost(zone: Zone, r: Layout, z: int, fn: ScoreFn, a: RoomId, b: RoomId, e: Edge)
    requires r.Valid() && r.On(a, z) && r.On(b, z) && a != b
    requires e.from in zone.ids && e in zone.Out(e.from) && !Touches(zone, r, z, [a, b], e.from)
    ensures var r' := Swapped(r, a, b);
            ExitCost(r', Snapshot(r', z), z, fn, e) == ExitCost(r, Snapshot(r, z), z, fn, e)
  {
    UntouchedEnds(zone, r, z, a, b, e);
    hide Touches, Blockers, Snapshot, Zone.Out;
    if BothOn(r, z, e) {
      BlockersSwap(r, z, a, b, e, r.at[e.from], r.at[e.to]);
    }
  }

  /** Neither end of an exit of an unaffected room is one of the swapped rooms. */
  lemma UntouchedEnds(zone: Zone, r: Layout, z: int, a: RoomId, b: RoomId, e: Edge)
    requires e.from in zone.ids && e in zone.Out(e.from) && !Touches(zone, r, z, [a, b], e.from)
    ensures BothOn(r, z, e) ==> e.from != a && e.from != b && e.to != a && e.to != b
  {
    zone.InFromMembers(zone.ids, e.to);
    hide Zone.Out;
    assert a in [a, b] && b in [a, b];
    if BothOn(r, z, e) {
      assert e in zone.In(e.to) && Joined(zone, e.to, e.from);
    }
  }

  /** For a swap, the change over the affected rooms is the change of the whole score. */
  lemma SwapDeltaExact(zone: Zone, r: Layout, z: int, fn: ScoreFn, a: RoomId, b: RoomId, affected: seq<RoomId>)
    requires r.Valid() && r.On(a, z) && r.On(b, z) && a != b
    requires forall id :: id in r.order ==> id in zone.ids
    requires NoDup(affected) && forall id :: id in affected <==> Touches(zone, r, z, [a, b], id)
    ensures var r' := Swapped(r, a, b);
            Score(zone, r', z, fn) - Score(zone, r, z, fn)
            == Total(zone, affected, CostFn(r', Snapshot(r', z), z, fn)) - Total(zone, affected, CostFn(r, Snapshot(r, z), z, fn))
  {
    hide ExitCost, Snapshot, Touches;
    var r' := Swapped(r, a, b);
    var f, f' := CostFn(r, Snapshot(r, z), z, fn), CostFn(r', Snapshot(r', z), z, fn);
    var d := (e: Edge) => f'(e) - f(e);
    TotalPlus(zone, r.order, f, d, f');
    TotalPlus(zone, affected, f, d, f');
    forall id | id in r.order && id !in affected ensures RowFn(zone, d)(id) == 0 {
      forall e | e in zone.Out(id) ensures d(e) == 0 {
        OutMembers(id, zone.ExitsOf(id));
        UnaffectedCost(zone, r, z, fn, a, b, e);
      }
      SumZeros(zone.Out(id), d);
    }
    forall id | id in affected && id !in r.order ensures false {
      TouchedIsPlaced(zone, r, z, a, b, id);
    }
    SumSupport(r.order, affected, RowFn(zone, d));
  }

  lemma TouchedIsPlaced(zone: Zone, r: Layout, z: int, a: RoomId, b: RoomId, id: RoomId)
    requires r.Valid() && r.On(a, z) && r.On(b, z) && Touches(zone, r, z, [a, b], id)
    ensures id in r.order
  {
  }
}
