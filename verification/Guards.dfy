/** The guards that accept or refuse a move by counting direction mismatches around the moved
    rooms only, and what their local counts say about the whole floor. */
module Guards {
  import opened Sums
  import opened Zones
  import opened Scores

  /** A room's position for the guard: an override, or its place on the floor. */
  function Where(r: Layout, z: int, overrides: map<RoomId, Cell>, id: RoomId): Option<Pos> {
    if id in overrides then Some(At(overrides[id], z))
    else if r.On(id, z) then Some(r.at[id])
    else None
  }

  function OutFn(r: Layout, z: int, overrides: map<RoomId, Cell>, p: Pos): Edge -> int {
    (e: Edge) =>
      if Known(e.dir) && Where(r, z, overrides, e.to).Some? && Mismatch(Off(e.dir), p, Where(r, z, overrides, e.to).value)
      then 1 else 0
  }

  function InFn(r: Layout, z: int, overrides: map<RoomId, Cell>, p: Pos): Edge -> int {
    (e: Edge) =>
      if Known(e.dir) && Where(r, z, overrides, e.from).Some? && Mismatch(Off(e.dir), Where(r, z, overrides, e.from).value, p)
      then 1 else 0
  }

  /** countMismatchesInvolving: the room's own exits and the exits that lead to it. */
  function LocalMismatches(zone: Zone, r: Layout, z: int, overrides: map<RoomId, Cell>, id: RoomId, c: Cell): int {
    Sum(zone.Out(id), OutFn(r, z, overrides, At(c, z))) + Sum(zone.In(id), InFn(r, z, overrides, At(c, z)))
  }

  predicate MoveWouldIncreaseMismatches(zone: Zone, r: Layout, z: int, id: RoomId, c: Cell) {
    r.On(id, z)
    && LocalMismatches(zone, r, z, map[], id, c) > LocalMismatches(zone, r, z, map[], id, r.at[id].AtCell())
  }

  function SwapDelta(zone: Zone, r: Layout, z: int, a: RoomId, b: RoomId): int
    requires a in r.at && b in r.at
  {
    var posA, posB := r.at[a].AtCell(), r.at[b].AtCell();
    var overrides := map[a := posB, b := posA];
    LocalMismatches(zone, r, z, overrides, a, posB) + LocalMismatches(zone, r, z, overrides, b, posA)
    - LocalMismatches(zone, r, z, map[], a, posA) - LocalMismatches(zone, r, z, map[], b, posB)
  }

  predicate SwapWouldIncreaseMismatches(zone: Zone, r: Layout, z: int, a: RoomId, b: RoomId)
    requires a in r.at && b in r.at
  {
    SwapDelta(zone, r, z, a, b) > 0
  }

  /** An adjacent, aligned pair along the exit's axis that the move would take off its axis. */
  predicate BreaksAlignment(d: Dir, cur: Pos, other: Pos, c: Cell) {
    && Cardinal(d)
    && Stretch(cur, other) == 1
    && ( || (Off(d).dx != 0 && cur.y == other.y && c.y != other.y)
         || (Off(d).dy != 0 && cur.x == other.x && c.x != other.x))
  }

  predicate MoveWouldBreakAlignment(zone: Zone, r: Layout, z: int, id: RoomId, c: Cell) {
    && r.On(id, z)
    && ( || (exists e :: e in zone.Out(id) && r.On(e.to, z) && BreaksAlignment(e.dir, r.at[id], r.at[e.to], c))
         || (exists e :: e in zone.In(id) && r.On(e.from, z) && BreaksAlignment(e.dir, r.at[id], r.at[e.from], c)))
  }

  // ---- What the alignment guard protects ----

  /** The zone has this exit, to the north, south, east or west. */
  predicate HasExit(zone: Zone, e: Edge) {
    (e.dir == North || e.dir == South || e.dir == East || e.dir == West) && e.from in zone.exits && Exit(e.dir, e.to) in zone.exits[e.from]
  }

  /** An exit to the east or west runs along a row, one to the north or south along a column. */
  predicate OnAxis(d: Dir, p: Cell, q: Cell) {
    if d == East || d == West then p.y == q.y else p.x == q.x
  }

  predicate OneStepApart(p: Cell, q: Cell) {
    (p.x == q.x && (p.y == q.y + 1 || q.y == p.y + 1)) || (p.y == q.y && (p.x == q.x + 1 || q.x == p.x + 1))
  }

  /** The cell of a room once one of them has moved. */
  function CellAfter(r: Layout, id: RoomId, c: Cell, room: RoomId): Cell
    requires room in r.at
  {
    if room == id then c else r.at[room].AtCell()
  }

  /** The exit touches the room, is one step long and on its axis. */
  predicate Snug(zone: Zone, r: Layout, z: int, id: RoomId, e: Edge) {
    && HasExit(zone, e) && (e.from == id || e.to == id) && r.On(e.from, z) && r.On(e.to, z)
    && OneStepApart(r.at[e.from].AtCell(), r.at[e.to].AtCell()) && OnAxis(e.dir, r.at[e.from].AtCell(), r.at[e.to].AtCell())
  }

  /** A move passes exactly when every such exit is still on its axis afterwards. */
  lemma AlignmentGuardExact(zone: Zone, r: Layout, z: int, id: RoomId, c: Cell)
    requires zone.Valid() && r.On(id, z)
    ensures !MoveWouldBreakAlignment(zone, r, z, id, c) <==>
            forall e :: Snug(zone, r, z, id, e) ==> OnAxis(e.dir, CellAfter(r, id, c, e.from), CellAfter(r, id, c, e.to))
  {
    GuardReads(zone, id);
    hide Zone.Out, Zone.In, HasExit;
  }

  /** The guard reads exactly the exits that touch the room. */
  lemma GuardReads(zone: Zone, id: RoomId)
    requires zone.Valid()
    ensures forall e :: e in zone.Out(id) <==> e.from == id && HasExit(zone, e)
    ensures forall e :: e in zone.In(id) <==> e.to == id && HasExit(zone, e)
  {
    OutMembers(id, zone.ExitsOf(id));
    zone.InFromMembers(zone.ids, id);
    forall e ensures e in zone.In(id) <==> e.to == id && HasExit(zone, e) {
      OutMembers(e.from, zone.ExitsOf(e.from));
    }
  }

  // ---- Totals of functions that vanish away from a room ----

  ghost predicate Vanishes(f: Edge -> int, rid: RoomId) {
    forall e: Edge :: e.from != rid && e.to != rid ==> f(e) == 0
  }

  function LoopsOf(zone: Zone, id: RoomId): seq<Edge> {
    Into(zone.Out(id), id)
  }

  lemma {:induction false} IntoSum(edges: seq<Edge>, rid: RoomId, f: Edge -> int)
    requires forall e :: e in edges && e.to != rid ==> f(e) == 0
    ensures Sum(Into(edges, rid), f) == Sum(edges, f)
  {
    if edges != [] {
      assert edges[0] in edges;
      IntoSum(edges[1..], rid, f);
      var head := if edges[0].to == rid then [edges[0]] else [];
      SumAppend(head, Into(edges[1..], rid), f);
    }
  }

  function IntoFn(zone: Zone, rid: RoomId, f: Edge -> int): RoomId -> int {
    (id: RoomId) => Sum(Into(zone.Out(id), rid), f)
  }

  lemma {:induction false} InSum(zone: Zone, sources: seq<RoomId>, rid: RoomId, f: Edge -> int)
    ensures Sum(zone.InFrom(sources, rid), f) == Sum(sources, IntoFn(zone, rid, f))
  {
    if sources != [] {
      InSum(zone, sources[1..], rid, f);
      SumAppend(Into(zone.Out(sources[0]), rid), zone.InFrom(sources[1..], rid), f);
    }
  }

  /** What touches one room: its exits, the exits into it, and its loops counted once. */
  lemma TotalAround(zone: Zone, ids: seq<RoomId>, rid: RoomId, f: Edge -> int)
    requires NoDup(ids) && rid in ids && NoDup(zone.ids) && forall id :: id in ids <==> id in zone.ids
    requires Vanishes(f, rid)
    ensures Total(zone, ids, f) == Sum(zone.Out(rid), f) + Sum(zone.In(rid), f) - Sum(LoopsOf(zone, rid), f)
  {
    var rows, into := RowFn(zone, f), IntoFn(zone, rid, f);
    forall id | id in ids && id != rid ensures rows(id) == into(id) {
      OutMembers(id, zone.ExitsOf(id));
      IntoSum(zone.Out(id), rid, f);
    }
    SumPoint(ids, rid, rows, into);
    SumSupport(zone.ids, ids, into);
    InSum(zone, zone.ids, rid, f);
  }

  // ---- Single moves ----

  /** What the self-loops of a moved room add to the guard's count: each loop whose axis
      coordinate changes looks repaired while it is not. */
  function LoopSlackFn(r: Layout, z: int, id: RoomId, c: Cell): Edge -> int
    requires id in r.at
  {
    (e: Edge) =>
      if !Known(e.dir) then 0
      else 2 - (if Mismatch(Off(e.dir), At(c, z), r.at[id]) then 1 else 0) - (if Mismatch(Off(e.dir), r.at[id], At(c, z)) then 1 else 0)
  }

  function LoopSlack(zone: Zone, r: Layout, z: int, id: RoomId, c: Cell): int
    requires id in r.at
  {
    Sum(LoopsOf(zone, id), LoopSlackFn(r, z, id, c))
  }

  function LocalDelta(zone: Zone, r: Layout, z: int, id: RoomId, c: Cell): int
    requires id in r.at
  {
    LocalMismatches(zone, r, z, map[], id, c) - LocalMismatches(zone, r, z, map[], id, r.at[id].AtCell())
  }

  ghost predicate Whole(zone: Zone, r: Layout) {
    zone.Valid() && r.Valid() && forall id :: id in r.order <==> id in zone.ids
  }

  function Diff(f: Edge -> int, g: Edge -> int): Edge -> int {
    (e: Edge) => f(e) - g(e)
  }

  lemma {:induction false} SumDiff(edges: seq<Edge>, f: Edge -> int, g: Edge -> int)
    ensures Sum(edges, Diff(f, g)) == Sum(edges, f) - Sum(edges, g)
  {
    SumPlus(edges, Diff(f, g), g, f);
  }

  lemma TotalDiff(zone: Zone, ids: seq<RoomId>, f: Edge -> int, g: Edge -> int)
    ensures Total(zone, ids, Diff(f, g)) == Total(zone, ids, f) - Total(zone, ids, g)
  {
    TotalPlus(zone, ids, Diff(f, g), g, f);
  }

  /** Two local sums that agree with a function off the room's loops, and fall short of it by
      `slack` on them, fall short of the function's total by the slack. */
  lemma AroundWithSlack(zone: Zone, ids: seq<RoomId>, rid: RoomId, g: Edge -> int, o: Edge -> int, i: Edge -> int, slack: Edge -> int)
    requires zone.Valid() && NoDup(ids) && rid in ids && forall id :: id in ids <==> id in zone.ids
    requires Vanishes(g, rid)
    requires forall e: Edge :: e.from == rid && e.to != rid ==> o(e) == g(e)
    requires forall e: Edge :: e.to == rid && e.from != rid ==> i(e) == g(e)
    requires forall e: Edge :: e.from == rid && e.to == rid && Cardinal(e.dir) ==> g(e) == 0 && slack(e) >= 0 && o(e) + i(e) == -slack(e)
    ensures Total(zone, ids, g) == Sum(zone.Out(rid), o) + Sum(zone.In(rid), i) + Sum(LoopsOf(zone, rid), slack)
    ensures Sum(LoopsOf(zone, rid), slack) >= 0
  {
    TotalAround(zone, ids, rid, g);
    var oSlack, iSlack := Diff(g, o), Diff(g, i);
    SumDiff(zone.Out(rid), g, o);
    SumDiff(zone.In(rid), g, i);
    LoopsOut(zone, rid, oSlack);
    LoopsIn(zone, rid, iSlack);
    forall e | e in LoopsOf(zone, rid) ensures g(e) == 0 && slack(e) >= 0 && slack(e) == oSlack(e) + iSlack(e) {
      OutMembers(rid, zone.ExitsOf(rid));
      IntoMembers(zone.Out(rid), rid);
    }
    hide LoopsOf, Zone.Out, Zone.In, Total;
    SumZeros(LoopsOf(zone, rid), g);
    SumPlus(LoopsOf(zone, rid), oSlack, iSlack, slack);
    SumZero(LoopsOf(zone, rid), slack);
  }

  lemma LoopsOut(zone: Zone, id: RoomId, f: Edge -> int)
    requires forall e: Edge :: e.from == id && e.to != id ==> f(e) == 0
    ensures Sum(zone.Out(id), f) == Sum(LoopsOf(zone, id), f)
  {
    OutMembers(id, zone.ExitsOf(id));
    IntoSum(zone.Out(id), id, f);
  }

  /** The guard's local difference is the floor's difference less the slack of self-loops. */
  lemma MoveGuardExact(zone: Zone, r: Layout, z: int, id: RoomId, c: Cell)
    requires Whole(zone, r) && r.On(id, z)
    ensures LocalDelta(zone, r, z, id, c)
            == Mismatches(zone, Moved(r, id, c, z), z) - Mismatches(zone, r, z) - LoopSlack(zone, r, z, id, c)
    ensures LoopSlack(zone, r, z, id, c) >= 0
  {
    var r' := Moved(r, id, c, z);
    var cur := r.at[id].AtCell();
    var g := Diff(MismatchFn(r', z), MismatchFn(r, z));
    var o := Diff(OutFn(r, z, map[], At(c, z)), OutFn(r, z, map[], At(cur, z)));
    var i := Diff(InFn(r, z, map[], At(c, z)), InFn(r, z, map[], At(cur, z)));
    MovePointwise(r, z, id, c, g, o, i);
    TotalDiff(zone, r.order, MismatchFn(r', z), MismatchFn(r, z));
    SumDiff(zone.Out(id), OutFn(r, z, map[], At(c, z)), OutFn(r, z, map[], At(cur, z)));
    SumDiff(zone.In(id), InFn(r, z, map[], At(c, z)), InFn(r, z, map[], At(cur, z)));
    hide OutFn, InFn, MismatchFn, LoopSlackFn, Moved, Zone.Out, Zone.In, LoopsOf, Total, Sum, Diff;
    AroundWithSlack(zone, r.order, id, g, o, i, LoopSlackFn(r, z, id, c));
  }

  lemma MovePointwise(r: Layout, z: int, id: RoomId, c: Cell, g: Edge -> int, o: Edge -> int, i: Edge -> int)
    requires r.Valid() && r.On(id, z)
    requires var r' := Moved(r, id, c, z); var cur := r.at[id].AtCell();
             && g == Diff(MismatchFn(r', z), MismatchFn(r, z))
             && o == Diff(OutFn(r, z, map[], At(c, z)), OutFn(r, z, map[], At(cur, z)))
             && i == Diff(InFn(r, z, map[], At(c, z)), InFn(r, z, map[], At(cur, z)))
    ensures Vanishes(g, id)
    ensures forall e: Edge :: e.from == id && e.to != id ==> o(e) == g(e)
    ensures forall e: Edge :: e.to == id && e.from != id ==> i(e) == g(e)
    ensures var slack := LoopSlackFn(r, z, id, c);
            forall e: Edge :: e.from == id && e.to == id && Cardinal(e.dir) ==> g(e) == 0 && slack(e) >= 0 && o(e) + i(e) == -slack(e)
  {
  }

  /** A function that vanishes off a room's loops sums alike over the exits into the room. */
  lemma LoopsIn(zone: Zone, id: RoomId, f: Edge -> int)
    requires zone.Valid() && id in zone.ids
    requires forall e: Edge :: e.to == id && e.from != id ==> f(e) == 0
    ensures Sum(zone.In(id), f) == Sum(LoopsOf(zone, id), f)
  {
    InSum(zone, zone.ids, id, f);
    var into := IntoFn(zone, id, f);
    forall s | s in zone.ids && s != id ensures into(s) == 0 {
      OutMembers(s, zone.ExitsOf(s));
      IntoMembers(zone.Out(s), id);
      zone.InFromMembers(zone.ids, id);
      SumZeros(Into(zone.Out(s), id), f);
    }
    SumSupport(zone.ids, [id], into);
  }

  // ---- Swaps ----

  /** The exits between the two swapped rooms. */
  function BetweenDelta(zone: Zone, r: Layout, z: int, a: RoomId, b: RoomId): int
    requires a in r.at && b in r.at
  {
    var d := Diff(MismatchFn(Swapped(r, a, b), z), MismatchFn(r, z));
    Sum(Into(zone.Out(a), b), d) + Sum(Into(zone.Out(b), a), d)
  }

  function Only(f: Edge -> int, a: RoomId): Edge -> int {
    (e: Edge) => if e.from == a || e.to == a then f(e) else 0
  }

  function SwapFn(r: Layout, z: int, a: RoomId, b: RoomId): Edge -> int
    requires a in r.at && b in r.at
  {
    Diff(MismatchFn(Swapped(r, a, b), z), MismatchFn(r, z))
  }

  /** One side of the swap guard counts the changes of the exits that touch that room. */
  lemma SideOfSwap(zone: Zone, r: Layout, z: int, a: RoomId, b: RoomId, s: RoomId)
    requires Whole(zone, r) && r.On(a, z) && r.On(b, z) && a != b && (s == a || s == b)
    ensures var overrides := map[a := r.at[b].AtCell(), b := r.at[a].AtCell()];
            LocalMismatches(zone, r, z, overrides, s, overrides[s]) - LocalMismatches(zone, r, z, map[], s, r.at[s].AtCell())
            == Total(zone, r.order, Only(SwapFn(r, z, a, b), s))
  {
    var overrides := map[a := r.at[b].AtCell(), b := r.at[a].AtCell()];
    var was, now := r.at[s], At(overrides[s], z);
    var g := Only(SwapFn(r, z, a, b), s);
    var o := Diff(OutFn(r, z, overrides, now), OutFn(r, z, map[], was));
    var i := Diff(InFn(r, z, overrides, now), InFn(r, z, map[], was));
    var none := (e: Edge) => 0;
    SwapPointwise(r, z, a, b, s, g, o, i);
    SumDiff(zone.Out(s), OutFn(r, z, overrides, now), OutFn(r, z, map[], was));
    SumDiff(zone.In(s), InFn(r, z, overrides, now), InFn(r, z, map[], was));
    SumZeros(LoopsOf(zone, s), none);
    hide OutFn, InFn, SwapFn, Only, Zone.Out, Zone.In, LoopsOf, Total, Sum, Diff;
    AroundWithSlack(zone, r.order, s, g, o, i, none);
  }

  lemma SwapPointwise(r: Layout, z: int, a: RoomId, b: RoomId, s: RoomId, g: Edge -> int, o: Edge -> int, i: Edge -> int)
    requires r.Valid() && r.On(a, z) && r.On(b, z) && a != b && (s == a || s == b)
    requires var overrides := map[a := r.at[b].AtCell(), b := r.at[a].AtCell()];
             var was, now := r.at[s], At(overrides[s], z);
             && g == Only(SwapFn(r, z, a, b), s)
             && o == Diff(OutFn(r, z, overrides, now), OutFn(r, z, map[], was))
             && i == Diff(InFn(r, z, overrides, now), InFn(r, z, map[], was))
    ensures Vanishes(g, s)
    ensures forall e: Edge :: e.from == s && e.to != s ==> o(e) == g(e)
    ensures forall e: Edge :: e.to == s && e.from != s ==> i(e) == g(e)
    ensures forall e: Edge :: e.from == s && e.to == s ==> g(e) == 0 && o(e) + i(e) == 0
  {
    var overrides := map[a := r.at[b].AtCell(), b := r.at[a].AtCell()];
    var r' := Swapped(r, a, b);
    forall e: Edge
      ensures r'.On(e.to, z) == r.On(e.to, z) && Where(r, z, overrides, e.to) == (if r'.On(e.to, z) then Some(r'.at[e.to]) else None)
      ensures r'.On(e.from, z) == r.On(e.from, z) && Where(r, z, overrides, e.from) == (if r'.On(e.from, z) then Some(r'.at[e.from]) else None)
    {
    }
  }

  /** The swap guard's difference is the floor's difference plus that of the exits between the
      two rooms, which it counts twice. */
  lemma SwapGuardExact(zone: Zone, r: Layout, z: int, a: RoomId, b: RoomId)
    requires Whole(zone, r) && r.On(a, z) && r.On(b, z) && a != b
    ensures SwapDelta(zone, r, z, a, b)
            == Mismatches(zone, Swapped(r, a, b), z) - Mismatches(zone, r, z) + BetweenDelta(zone, r, z, a, b)
  {
    var d := SwapFn(r, z, a, b);
    SideOfSwap(zone, r, z, a, b, a);
    SideOfSwap(zone, r, z, a, b, b);
    TotalDiff(zone, r.order, MismatchFn(Swapped(r, a, b), z), MismatchFn(r, z));
    BetweenIs(zone, r, z, a, b);
    hide MismatchFn, Zone.Out, Zone.In, Total, LocalMismatches, SwapFn, BetweenDelta, Diff;
    InclusionExclusion(zone, r.order, a, b, d);
  }

  lemma InclusionExclusion(zone: Zone, ids: seq<RoomId>, a: RoomId, b: RoomId, d: Edge -> int)
    requires forall e: Edge :: e.from != a && e.to != a && e.from != b && e.to != b ==> d(e) == 0
    ensures Total(zone, ids, d) + Total(zone, ids, Only(Only(d, a), b)) == Total(zone, ids, Only(d, a)) + Total(zone, ids, Only(d, b))
  {
    var both := Only(Only(d, a), b);
    var sum := (e: Edge) => Only(d, a)(e) + Only(d, b)(e);
    TotalPlus(zone, ids, Only(d, a), Only(d, b), sum);
    TotalPlus(zone, ids, d, both, sum);
  }

  lemma BetweenIs(zone: Zone, r: Layout, z: int, a: RoomId, b: RoomId)
    requires Whole(zone, r) && r.On(a, z) && r.On(b, z) && a != b
    ensures var d := SwapFn(r, z, a, b);
            && Total(zone, r.order, Only(Only(d, a), b)) == BetweenDelta(zone, r, z, a, b)
            && (forall e: Edge :: e.from != a && e.to != a && e.from != b && e.to != b ==> d(e) == 0)
  {
    var d := SwapFn(r, z, a, b);
    var r' := Swapped(r, a, b);
    forall e: Edge
      ensures e.from == e.to ==> d(e) == 0
      ensures e.from != a && e.to != a && e.from != b && e.to != b ==> d(e) == 0
    {
    }
    BetweenTotal(zone, r.order, a, b, d);
  }

  lemma BetweenTotal(zone: Zone, ids: seq<RoomId>, a: RoomId, b: RoomId, d: Edge -> int)
    requires zone.Valid() && NoDup(ids) && a in ids && b in ids && a != b && forall id :: id in ids <==> id in zone.ids
    requires forall e: Edge :: e.from == e.to ==> d(e) == 0
    ensures Total(zone, ids, Only(Only(d, a), b)) == Sum(Into(zone.Out(a), b), d) + Sum(Into(zone.Out(b), a), d)
  {
    var both := Only(Only(d, a), b);
    forall e: Edge
      ensures e.from != a && e.to != a ==> both(e) == 0
      ensures e.from == a && e.to != b ==> both(e) == 0
      ensures e.to == a && e.from != b ==> both(e) == 0
      ensures (e.from == a && e.to == b) || (e.from == b && e.to == a) ==> both(e) == d(e)
    {
    }
    hide Only, Zone.Out, Zone.In, Total;
    TotalAround(zone, ids, a, both);
    assert Sum(LoopsOf(zone, a), both) == 0 by {
      OutMembers(a, zone.ExitsOf(a));
      IntoMembers(zone.Out(a), a);
      SumZeros(LoopsOf(zone, a), both);
    }
    ExitsBetween(zone, a, b, both, d);
    EntriesBetween(zone, a, b, both, d);
  }

  lemma ExitsBetween(zone: Zone, a: RoomId, b: RoomId, both: Edge -> int, d: Edge -> int)
    requires forall e: Edge :: e.from == a && e.to != b ==> both(e) == 0
    requires forall e: Edge :: e.from == a && e.to == b ==> both(e) == d(e)
    ensures Sum(zone.Out(a), both) == Sum(Into(zone.Out(a), b), d)
  {
    OutMembers(a, zone.ExitsOf(a));
    IntoMembers(zone.Out(a), b);
    IntoSum(zone.Out(a), b, both);
    SumEq(Into(zone.Out(a), b), both, d);
  }

  lemma EntriesBetween(zone: Zone, a: RoomId, b: RoomId, both: Edge -> int, d: Edge -> int)
    requires zone.Valid() && b in zone.ids
    requires forall e: Edge :: e.to == a && e.from != b ==> both(e) == 0
    requires forall e: Edge :: e.to == a && e.from == b ==> both(e) == d(e)
    ensures Sum(zone.In(a), both) == Sum(Into(zone.Out(b), a), d)
  {
    InSum(zone, zone.ids, a, both);
    var into := IntoFn(zone, a, both);
    forall s | s in zone.ids && s != b ensures into(s) == 0 {
      OutMembers(s, zone.ExitsOf(s));
      IntoMembers(zone.Out(s), a);
      SumZeros(Into(zone.Out(s), a), both);
    }
    SumSupport(zone.ids, [b], into);
    OutMembers(b, zone.ExitsOf(b));
    IntoMembers(zone.Out(b), a);
    SumEq(Into(zone.Out(b), a), both, d);
  }

  /** With no exit between the rooms an accepted swap never raises the floor's mismatches. */
  lemma SwapGuardSound(zone: Zone, r: Layout, z: int, a: RoomId, b: RoomId)
    requires Whole(zone, r) && r.On(a, z) && r.On(b, z) && a != b
    requires forall e :: e in zone.Out(a) ==> e.to != b
    requires forall e :: e in zone.Out(b) ==> e.to != a
    ensures SwapWouldIncreaseMismatches(zone, r, z, a, b) <==> Mismatches(zone, Swapped(r, a, b), z) > Mismatches(zone, r, z)
  {
    SwapGuardExact(zone, r, z, a, b);
    IntoMembers(zone.Out(a), b);
    IntoMembers(zone.Out(b), a);
    SumZeros(Into(zone.Out(a), b), SwapFn(r, z, a, b));
    SumZeros(Into(zone.Out(b), a), SwapFn(r, z, a, b));
  }

  // ---- Where the guards err ----

  /** The move guard's verdict is right if and only if its own difference is positive, or not even the
      slack makes it so. */
  lemma MoveVerdictRight(zone: Zone, r: Layout, z: int, id: RoomId, c: Cell)
    requires Whole(zone, r) && r.On(id, z)
    ensures (MoveWouldIncreaseMismatches(zone, r, z, id, c) <==> Mismatches(zone, Moved(r, id, c, z), z) > Mismatches(zone, r, z))
            <==> LocalDelta(zone, r, z, id, c) > 0 || LocalDelta(zone, r, z, id, c) + LoopSlack(zone, r, z, id, c) <= 0
  {
    MoveGuardExact(zone, r, z, id, c);
    hide Mismatches, LocalMismatches, LoopSlack, Moved;
  }

  /** The swap guard's verdict is right if and only if its difference is positive exactly when it
      exceeds that of the exits between the two rooms. */
  lemma SwapVerdictRight(zone: Zone, r: Layout, z: int, a: RoomId, b: RoomId)
    requires Whole(zone, r) && r.On(a, z) && r.On(b, z) && a != b
    ensures (SwapWouldIncreaseMismatches(zone, r, z, a, b) <==> Mismatches(zone, Swapped(r, a, b), z) > Mismatches(zone, r, z))
            <==> (SwapDelta(zone, r, z, a, b) > 0 <==> SwapDelta(zone, r, z, a, b) > BetweenDelta(zone, r, z, a, b))
  {
    SwapGuardExact(zone, r, z, a, b);
    hide Mismatches, SwapDelta, BetweenDelta, Swapped;
  }

  lemma SumCons<T>(x: T, s: seq<T>, f: T -> int)
    ensures Sum([x] + s, f) == f(x) + Sum(s, f)
  {
    assert ([x] + s)[1..] == s;
  }

  lemma SumTwo<T>(x: T, y: T, f: T -> int)
    ensures Sum([x, y], f) == f(x) + f(y) && Sum([x], f) == f(x)
  {
    assert [x, y][1..] == [y] && [y][1..] == [] && [x][1..] == [];
    assert Sum([y], f) == f(y) + Sum([], f);
  }

  lemma SumThree<T>(x: T, y: T, w: T, f: T -> int)
    ensures Sum([x, y, w], f) == f(x) + f(y) + f(w)
  {
    SumTwo(y, w, f);
    SumCons(x, [y, w], f);
    assert [x] + [y, w] == [x, y, w];
  }

  lemma OutCons(id: RoomId, x: Exit, exits: seq<Exit>)
    requires Cardinal(x.dir)
    ensures OutOf(id, [x] + exits) == [Edge(id, x.dir, x.target)] + OutOf(id, exits)
  {
    assert ([x] + exits)[1..] == exits;
  }

  lemma IntoCons(e: Edge, edges: seq<Edge>, id: RoomId)
    ensures Into([e] + edges, id) == (if e.to == id then [e] else []) + Into(edges, id)
  {
    assert ([e] + edges)[1..] == edges;
  }

  /** Two exits as edges, and those of them that lead to a room. */
  lemma TwoExits(id: RoomId, x: Exit, y: Exit, to: RoomId)
    requires Cardinal(x.dir) && Cardinal(y.dir)
    ensures OutOf(id, [x, y]) == [Edge(id, x.dir, x.target), Edge(id, y.dir, y.target)] && OutOf(id, [x]) == [Edge(id, x.dir, x.target)]
    ensures Into(OutOf(id, [x, y]), to)
            == (if x.target == to then [Edge(id, x.dir, x.target)] else []) + (if y.target == to then [Edge(id, y.dir, y.target)] else [])
    ensures Into(OutOf(id, [x]), to) == if x.target == to then [Edge(id, x.dir, x.target)] else []
  {
    var e, d := Edge(id, x.dir, x.target), Edge(id, y.dir, y.target);
    assert [x, y] == [x] + ([y] + []) && [x] == [x] + [];
    OutCons(id, x, [y] + []);
    OutCons(id, y, []);
    OutCons(id, x, []);
    assert OutOf(id, []) == [] && Into([], to) == [];
    IntoCons(e, [d] + [], to);
    IntoCons(d, [], to);
    IntoCons(e, [], to);
    hide OutOf, Into;
    assert [e] + ([d] + []) == [e, d] && [e] + [] == [e];
  }

  /** Room a has b to its east and c to its west, b has c to its east. */
  function Triangle(a: RoomId, b: RoomId, c: RoomId): Zone {
    Zone([a, b, c], map[a := [Exit(East, b), Exit(West, c)], b := [Exit(East, c)], c := []])
  }

  lemma {:induction false} TriangleExits(a: RoomId, b: RoomId, c: RoomId)
    requires a != b && a != c && b != c
    ensures var zone := Triangle(a, b, c);
            && zone.Out(a) == [Edge(a, East, b), Edge(a, West, c)] && zone.Out(b) == [Edge(b, East, c)] && zone.Out(c) == []
            && Into(zone.Out(a), b) == [Edge(a, East, b)] && Into(zone.Out(b), a) == []
  {
    var zone := Triangle(a, b, c);
    assert zone.ExitsOf(a) == [Exit(East, b), Exit(West, c)] && zone.ExitsOf(b) == [Exit(East, c)] && zone.ExitsOf(c) == [];
    TwoExits(a, Exit(East, b), Exit(West, c), b);
    TwoExits(b, Exit(East, c), Exit(East, c), a);
    assert OutOf(c, []) == [];
    hide OutOf, Into;
  }

  lemma {:induction false} TriangleTotal(a: RoomId, b: RoomId, c: RoomId, f: Edge -> int)
    requires a != b && a != c && b != c
    ensures Total(Triangle(a, b, c), [a, b, c], f) == f(Edge(a, East, b)) + f(Edge(a, West, c)) + f(Edge(b, East, c))
  {
    var zone := Triangle(a, b, c);
    TriangleExits(a, b, c);
    hide Zone.Out, Triangle, Sum;
    SumThree(a, b, c, RowFn(zone, f));
    SumTwo(Edge(a, East, b), Edge(a, West, c), f);
    SumTwo(Edge(b, East, c), Edge(b, East, c), f);
    SumNone(f);
  }

  lemma SumNone<T>(f: T -> int)
    ensures Sum([], f) == 0
  {
  }

  /** Rooms b, c and a in a row from the west to the east. */
  function InARow(a: RoomId, b: RoomId, c: RoomId): Layout {
    Layout([a, b, c], map[a := Pos(2, 0, 0), b := Pos(0, 0, 0), c := Pos(1, 0, 0)])
  }

  /** The swap guard accepts a swap that leaves one mismatch more: it counts the exit between the two
      rooms, which the swap repairs, twice. */
  lemma {:induction false} SwapGuardErrs(a: RoomId, b: RoomId, c: RoomId)
    requires a != b && a != c && b != c
    ensures var zone, r := Triangle(a, b, c), InARow(a, b, c);
            && Whole(zone, r) && r.On(a, 0) && r.On(b, 0)
            && !SwapWouldIncreaseMismatches(zone, r, 0, a, b) && Mismatches(zone, Swapped(r, a, b), 0) == Mismatches(zone, r, 0) + 1
  {
    var zone, r := Triangle(a, b, c), InARow(a, b, c);
    RowWhole(a, b, c);
    RowMismatches(a, b, c);
    TriangleExits(a, b, c);
    SwapGuardExact(zone, r, 0, a, b);
    hide Zone.Out, Triangle, InARow, Whole, Mismatches, SwapDelta, Mismatch;
    var d := SwapFn(r, 0, a, b);
    SumTwo(Edge(a, East, b), Edge(a, East, b), d);
    SumNone(d);
  }

  lemma {:induction false} RowWhole(a: RoomId, b: RoomId, c: RoomId)
    requires a != b && a != c && b != c
    ensures var zone, r := Triangle(a, b, c), InARow(a, b, c); Whole(zone, r) && r.On(a, 0) && r.On(b, 0)
  {
  }

  lemma {:induction false} RowMismatches(a: RoomId, b: RoomId, c: RoomId)
    requires a != b && a != c && b != c
    ensures var zone, r := Triangle(a, b, c), InARow(a, b, c);
            && Mismatches(zone, r, 0) == 1 && Mismatches(zone, Swapped(r, a, b), 0) == 2
            && SwapFn(r, 0, a, b)(Edge(a, East, b)) == -1
  {
    var r := InARow(a, b, c);
    var r' := Swapped(r, a, b);
    RowPlaces(a, b, c);
    hide Total, Triangle, InARow, Swapped;
    TriangleTotal(a, b, c, MismatchFn(r, 0));
    TriangleTotal(a, b, c, MismatchFn(r', 0));
  }

  lemma {:induction false} RowPlaces(a: RoomId, b: RoomId, c: RoomId)
    requires a != b && a != c && b != c
    ensures var r := InARow(a, b, c);
            && r.order == [a, b, c] && r.On(a, 0) && r.On(b, 0) && r.On(c, 0)
            && r.at[a] == Pos(2, 0, 0) && r.at[b] == Pos(0, 0, 0) && r.at[c] == Pos(1, 0, 0)
            && var r' := Swapped(r, a, b);
            && r'.order == [a, b, c] && r'.On(a, 0) && r'.On(b, 0) && r'.On(c, 0)
            && r'.at[a] == Pos(0, 0, 0) && r'.at[b] == Pos(2, 0, 0) && r'.at[c] == Pos(1, 0, 0)
  {
  }

  /** Room a has itself and b to its east. */
  function Loop(a: RoomId, b: RoomId): Zone {
    Zone([a, b], map[a := [Exit(East, a), Exit(East, b)], b := []])
  }

  /** Room a, and b to its east. */
  function LoopPlaces(a: RoomId, b: RoomId): Layout {
    Layout([a, b], map[a := Pos(0, 0, 0), b := Pos(1, 0, 0)])
  }

  lemma {:induction false} LoopTotal(a: RoomId, b: RoomId, f: Edge -> int)
    requires a != b
    ensures Total(Loop(a, b), [a, b], f) == f(Edge(a, East, a)) + f(Edge(a, East, b))
    ensures LoopsOf(Loop(a, b), a) == [Edge(a, East, a)]
  {
    var zone := Loop(a, b);
    assert zone.ExitsOf(a) == [Exit(East, a), Exit(East, b)] && zone.ExitsOf(b) == [];
    TwoExits(a, Exit(East, a), Exit(East, b), a);
    assert OutOf(b, []) == [];
    hide OutOf, Into, Sum, Loop;
    SumTwo(a, b, RowFn(zone, f));
    SumTwo(Edge(a, East, a), Edge(a, East, b), f);
    SumNone(f);
  }

  /** The move guard accepts a move that leaves one mismatch more: the loop looks half repaired. */
  lemma {:induction false} MoveGuardErrs(a: RoomId, b: RoomId)
    requires a != b
    ensures var zone, r, c := Loop(a, b), LoopPlaces(a, b), Cell(2, 0);
            && Whole(zone, r) && r.On(a, 0) && !MoveWouldIncreaseMismatches(zone, r, 0, a, c)
            && Mismatches(zone, Moved(r, a, c, 0), 0) == Mismatches(zone, r, 0) + 1
  {
    var zone, r, c := Loop(a, b), LoopPlaces(a, b), Cell(2, 0);
    LoopMismatches(a, b);
    MoveGuardExact(zone, r, 0, a, c);
    hide Loop, Mismatches, LocalMismatches, Moved;
    var slack := LoopSlackFn(r, 0, a, c);
    SumTwo(Edge(a, East, a), Edge(a, East, a), slack);
  }

  lemma {:induction false} LoopMismatches(a: RoomId, b: RoomId)
    requires a != b
    ensures var zone, r := Loop(a, b), LoopPlaces(a, b);
            && Whole(zone, r) && r.On(a, 0) && LoopsOf(zone, a) == [Edge(a, East, a)]
            && Mismatches(zone, r, 0) == 1 && Mismatches(zone, Moved(r, a, Cell(2, 0), 0), 0) == 2
  {
    var r := LoopPlaces(a, b);
    var r' := Moved(r, a, Cell(2, 0), 0);
    LoopTotal(a, b, MismatchFn(r, 0));
    LoopTotal(a, b, MismatchFn(r', 0));
    hide Total, LoopsOf;
  }
}
