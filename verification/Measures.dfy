/** What the numbers the phases compare count, said of exits, rooms and cells alone. */
module Measures {
  import opened Sums
  import opened Zones
  import opened Scores
  import opened Segments

  // ---- Exits on the map ----

  /** The cardinal exits of the placed rooms, one after the other. */
  function Exits(zone: Zone, r: Layout): seq<Edge> { AllOut(zone, r.order) }

  /** Both ends stand on the floor. */
  predicate OnFloor(r: Layout, z: int, e: Edge) {
    Cardinal(e.dir) && e.from in r.at && e.to in r.at && r.at[e.from].z == z && r.at[e.to].z == z
  }

  /** The target does not stand on the side its direction names. */
  predicate WrongSide(d: Dir, p: Pos, q: Pos) {
    match d
    case North => q.y >= p.y
    case South => q.y <= p.y
    case East => q.x <= p.x
    case West => q.x >= p.x
    case _ => false
  }

  predicate Slanted(p: Pos, q: Pos) { p.x != q.x && p.y != q.y }

  function Gap(a: int, b: int): int { if a < b then b - a else a - b }

  function Walk(p: Pos, q: Pos): int { Gap(p.x, q.x) + Gap(p.y, q.y) }

  /** The cell lies on the straight line between the two, at neither end. */
  predicate StandsBetween(p: Pos, q: Pos, c: Cell) {
    || (p.x == q.x == c.x && (p.y < c.y < q.y || q.y < c.y < p.y))
    || (p.y == q.y == c.y && (p.x < c.x < q.x || q.x < c.x < p.x))
  }

  /** The room stands between the ends of the exit. */
  predicate InTheWay(r: Layout, z: int, e: Edge, id: RoomId) {
    OnFloor(r, z, e) && r.On(id, z) && StandsBetween(r.at[e.from], r.at[e.to], r.at[id].AtCell())
  }

  // ---- Counting ----

  lemma {:induction false} TotalIsSum(zone: Zone, ids: seq<RoomId>, f: Edge -> int)
    ensures Total(zone, ids, f) == Sum(AllOut(zone, ids), f)
  {
    if ids != [] {
      TotalIsSum(zone, ids[1..], f);
      SumAppend(zone.Out(ids[0]), AllOut(zone, ids[1..]), f);
    }
  }

  /** A sum of zeros and ones is the number of indices with a one. */
  lemma {:induction false} SumIsCard<T(!new)>(s: seq<T>, f: T -> int, ones: set<nat>)
    requires forall x :: x in s ==> f(x) == 0 || f(x) == 1
    requires forall i: nat :: i in ones <==> i < |s| && f(s[i]) == 1
    ensures Sum(s, f) == |ones|
  {
    if s == [] {
      assert ones == {};
    } else {
      var n := |s| - 1;
      var front, last := s[..n], s[n];
      assert s == front + [last];
      SumLast(front, last, f);
      SumIsCard(front, f, ones - {n});
      assert f(last) == 1 ==> n in ones;
      assert f(last) == 0 ==> ones - {n} == ones;
    }
  }

  lemma {:induction false} SumScale<T(!new)>(s: seq<T>, k: int, f: T -> int, g: T -> int)
    requires forall x :: x in s ==> g(x) == k * f(x)
    ensures Sum(s, g) == k * Sum(s, f)
  {
    if s != [] {
      assert s[0] in s;
      SumScale(s[1..], k, f, g);
      assert k * f(s[0]) + k * Sum(s[1..], f) == k * (f(s[0]) + Sum(s[1..], f));
    }
  }

  lemma {:induction false} ExitIs(zone: Zone, r: Layout, i: nat)
    requires i < |Exits(zone, r)|
    ensures var e := Exits(zone, r)[i]; Cardinal(e.dir) && e.from in r.order
  {
    var e := Exits(zone, r)[i];
    assert e in Exits(zone, r);
    AllOutMembers(zone, r.order);
    OutMembers(e.from, zone.ExitsOf(e.from));
  }

  /** The mismatches are the exits whose target stands on the wrong side. */
  lemma {:induction false} MismatchesCount(zone: Zone, r: Layout, z: int)
    ensures Mismatches(zone, r, z)
            == |set i: nat | i < |Exits(zone, r)| && OnFloor(r, z, Exits(zone, r)[i])
                             && WrongSide(Exits(zone, r)[i].dir, r.at[Exits(zone, r)[i].from], r.at[Exits(zone, r)[i].to])|
  {
    var exits := Exits(zone, r);
    TotalIsSum(zone, r.order, MismatchFn(r, z));
    forall i: nat | i < |exits|
      ensures MismatchFn(r, z)(exits[i]) == 1 <==> OnFloor(r, z, exits[i]) && WrongSide(exits[i].dir, r.at[exits[i].from], r.at[exits[i].to])
    {
      ExitIs(zone, r, i);
    }
    hide Exits, MismatchFn, OnFloor, WrongSide;
    SumIsCard(exits, MismatchFn(r, z), set i: nat | i < |exits| && OnFloor(r, z, exits[i]) && WrongSide(exits[i].dir, r.at[exits[i].from], r.at[exits[i].to]));
  }

  /** The diagonals are the exits that run neither along a row nor along a column. */
  lemma {:induction false} DiagonalsCount(zone: Zone, r: Layout, z: int)
    ensures Diagonals(zone, r, z)
            == |set i: nat | i < |Exits(zone, r)| && OnFloor(r, z, Exits(zone, r)[i])
                             && Slanted(r.at[Exits(zone, r)[i].from], r.at[Exits(zone, r)[i].to])|
  {
    var exits := Exits(zone, r);
    TotalIsSum(zone, r.order, DiagonalFn(r, z));
    forall i: nat | i < |exits|
      ensures DiagonalFn(r, z)(exits[i]) == 1 <==> OnFloor(r, z, exits[i]) && Slanted(r.at[exits[i].from], r.at[exits[i].to])
    {
      ExitIs(zone, r, i);
    }
    hide Exits, DiagonalFn, OnFloor, Slanted;
    SumIsCard(exits, DiagonalFn(r, z), set i: nat | i < |exits| && OnFloor(r, z, exits[i]) && Slanted(r.at[exits[i].from], r.at[exits[i].to]));
  }

  /** A sum of zeros and ones over distinct elements is the number of those with a one. */
  lemma {:induction false} SumIsMembers<T(!new)>(s: seq<T>, f: T -> int, ones: set<T>)
    requires NoDup(s) && forall x :: x in s ==> f(x) == 0 || f(x) == 1
    requires forall x :: x in ones <==> x in s && f(x) == 1
    ensures Sum(s, f) == |ones|
  {
    if s == [] {
      assert ones == {};
    } else {
      NoDupTail(s);
      SumIsMembers(s[1..], f, ones - {s[0]});
      assert f(s[0]) == 0 ==> ones - {s[0]} == ones;
    }
  }

  /** A sum of set sizes is the number of pairs of an index and a member. */
  lemma {:induction false} SumIsPairs<T(!new), U(!new)>(s: seq<T>, f: T -> int, members: T -> set<U>, pairs: set<(nat, U)>)
    requires forall x :: x in s ==> f(x) == |members(x)|
    requires forall p: (nat, U) :: p in pairs <==> p.0 < |s| && p.1 in members(s[p.0])
    ensures Sum(s, f) == |pairs|
  {
    if s == [] {
      assert pairs == {};
    } else {
      var front, last := s[..|s| - 1], s[|s| - 1];
      assert s == front + [last] && last in s;
      var here: set<(nat, U)> := set u | u in members(last) :: (|front|, u);
      forall p: (nat, U) ensures p in here <==> p.0 == |front| && p.1 in members(last) {
        if p.0 == |front| && p.1 in members(last) { assert p == (|front|, p.1); }
      }
      PairsAt(front, last, members, pairs, here);
      SumIsPairs(front, f, members, pairs - here);
      SumLast(front, last, f);
      ImageCard(members(last), |front|, here);
      CardRest(pairs, here);
    }
  }

  lemma SumLast<T(!new)>(front: seq<T>, last: T, f: T -> int)
    ensures Sum(front + [last], f) == Sum(front, f) + f(last)
  {
    SumAppend(front, [last], f);
    assert [last][1..] == [] && Sum([last], f) == f(last) + Sum([], f);
  }

  lemma CardRest<T(!new)>(s: set<T>, t: set<T>)
    requires t <= s
    ensures |s| == |s - t| + |t|
  {
    assert s == (s - t) + t;
  }

  lemma PairsAt<T(!new), U(!new)>(front: seq<T>, last: T, members: T -> set<U>, pairs: set<(nat, U)>, here: set<(nat, U)>)
    requires forall p: (nat, U) :: p in here <==> p.0 == |front| && p.1 in members(last)
    requires forall p: (nat, U) :: p in pairs <==> p.0 < |front + [last]| && p.1 in members((front + [last])[p.0])
    ensures here <= pairs && forall p: (nat, U) :: p in pairs - here <==> p.0 < |front| && p.1 in members(front[p.0])
  {
  }

  lemma {:induction false} ImageCard<U(!new)>(s: set<U>, n: nat, image: set<(nat, U)>)
    requires image == set u | u in s :: (n, u)
    ensures |image| == |s|
  {
    if s == {} {
      assert image == {};
    } else {
      var u :| u in s;
      assert (n, u) in image;
      forall p ensures p in image - {(n, u)} <==> p in set v | v in s - {u} :: (n, v) { }
      ImageCard(s - {u}, n, image - {(n, u)});
    }
  }

  /** Who stands between the ends of an exit. */
  function Between(r: Layout, z: int, e: Edge): set<RoomId> {
    set id | id in r.at && InTheWay(r, z, e, id)
  }

  lemma {:induction false} OcclusionsOf(r: Layout, z: int, e: Edge)
    requires r.Valid() && Cardinal(e.dir)
    ensures OcclusionFn(r, z)(e) == |Between(r, z, e)|
  {
    if Straight(r, z, 2, e) {
      var p, q := r.at[e.from], r.at[e.to];
      BlockersByRoom(r, z, e, p, q);
      SumIsMembers(r.order, BlockFn(r, z, e, p, q), Between(r, z, e));
    } else {
      assert Between(r, z, e) == {};
    }
  }

  /** The occlusions are the pairs of an exit and a room that stands between its ends. */
  lemma {:induction false} OcclusionsCount(zone: Zone, r: Layout, z: int)
    requires r.Valid()
    ensures CountOcclusions(zone, r, z)
            == |set i: nat, id | i < |Exits(zone, r)| && id in r.at && InTheWay(r, z, Exits(zone, r)[i], id) :: (i, id)|
  {
    var exits := Exits(zone, r);
    TotalIsSum(zone, r.order, OcclusionFn(r, z));
    forall e | e in exits ensures OcclusionFn(r, z)(e) == |Between(r, z, e)| {
      AllOutMembers(zone, r.order);
      OutMembers(e.from, zone.ExitsOf(e.from));
      OcclusionsOf(r, z, e);
    }
    var pairs := set i: nat, id | i < |exits| && id in r.at && InTheWay(r, z, exits[i], id) :: (i, id);
    forall p: (nat, RoomId) ensures p in pairs <==> p.0 < |exits| && p.1 in Between(r, z, exits[p.0]) { }
    hide OcclusionFn, Between, InTheWay, Exits;
    SumIsPairs(exits, OcclusionFn(r, z), e => Between(r, z, e), pairs);
  }

  // ---- The scores ----

  /** The steps of an exit beyond the first. */
  function ExtraFn(r: Layout, z: int): Edge -> int {
    (e: Edge) => if OnFloor(r, z, e) && Walk(r.at[e.from], r.at[e.to]) > 1 then Walk(r.at[e.from], r.at[e.to]) - 1 else 0
  }

  /** How far off its axis a diagonal exit ends. */
  function DriftFn(r: Layout, z: int): Edge -> int {
    (e: Edge) =>
      if !OnFloor(r, z, e) || !Slanted(r.at[e.from], r.at[e.to]) then 0
      else if e.dir == East || e.dir == West then Gap(r.at[e.from].y, r.at[e.to].y)
      else Gap(r.at[e.from].x, r.at[e.to].x)
  }

  /** The four parts of a score, and their sum. */
  lemma {:induction false} FourParts(edges: seq<Edge>, f: Edge -> int, extra: Edge -> int, slant: Edge -> int, wrong: Edge -> int, blocked: Edge -> int, w: int)
    requires forall e :: e in edges ==> f(e) == extra(e) + 20 * slant(e) + 50 * wrong(e) + w * blocked(e)
    ensures Sum(edges, f) == Sum(edges, extra) + 20 * Sum(edges, slant) + 50 * Sum(edges, wrong) + w * Sum(edges, blocked)
  {
    var a, b, c := (e: Edge) => 20 * slant(e), (e: Edge) => 50 * wrong(e), (e: Edge) => w * blocked(e);
    var ea, eab := (e: Edge) => extra(e) + a(e), (e: Edge) => extra(e) + a(e) + b(e);
    SumScale(edges, 20, slant, a);
    SumScale(edges, 50, wrong, b);
    SumScale(edges, w, blocked, c);
    SumPlus(edges, extra, a, ea);
    SumPlus(edges, ea, b, eab);
    SumPlus(edges, eab, c, f);
  }

  lemma {:induction false} CostParts(r: Layout, z: int, w: nat, e: Edge)
    requires Cardinal(e.dir)
    ensures CostFn(r, Snapshot(r, z), z, LayoutScore(w))(e)
            == ExtraFn(r, z)(e) + 20 * DiagonalFn(r, z)(e) + 50 * MismatchFn(r, z)(e) + w * OcclusionFn(r, z)(e)
  {
    hide Blockers, Snapshot;
  }

  lemma {:induction false} RelaxationParts(r: Layout, z: int, e: Edge)
    requires Cardinal(e.dir)
    ensures CostFn(r, Snapshot(r, z), z, RelaxationScore)(e)
            == ExtraFn(r, z)(e) + 20 * DriftFn(r, z)(e) + 50 * MismatchFn(r, z)(e) + 3 * OcclusionFn(r, z)(e)
  {
    hide Blockers, Snapshot;
  }

  /** The layout score: the steps beyond the first, 20 for each diagonal, 50 for each mismatch and the
      weight for each occlusion. */
  lemma {:induction false} ScoreIsWeighted(zone: Zone, r: Layout, z: int, w: nat)
    ensures Score(zone, r, z, LayoutScore(w))
            == Sum(Exits(zone, r), ExtraFn(r, z)) + 20 * Diagonals(zone, r, z) + 50 * Mismatches(zone, r, z) + w * CountOcclusions(zone, r, z)
  {
    var f := CostFn(r, Snapshot(r, z), z, LayoutScore(w));
    AllCardinal(zone, r);
    forall e | e in Exits(zone, r)
      ensures f(e) == ExtraFn(r, z)(e) + 20 * DiagonalFn(r, z)(e) + 50 * MismatchFn(r, z)(e) + w * OcclusionFn(r, z)(e)
    {
      CostParts(r, z, w, e);
    }
    hide CostFn, ExtraFn, DiagonalFn, MismatchFn, OcclusionFn, Total;
    TotalIsSum(zone, r.order, f);
    TotalIsSum(zone, r.order, DiagonalFn(r, z));
    TotalIsSum(zone, r.order, MismatchFn(r, z));
    TotalIsSum(zone, r.order, OcclusionFn(r, z));
    FourParts(Exits(zone, r), f, ExtraFn(r, z), DiagonalFn(r, z), MismatchFn(r, z), OcclusionFn(r, z), w);
  }

  lemma {:induction false} AllCardinal(zone: Zone, r: Layout)
    ensures forall e :: e in Exits(zone, r) ==> Cardinal(e.dir)
  {
    forall e | e in Exits(zone, r) ensures Cardinal(e.dir) {
      AllOutMembers(zone, r.order);
      OutMembers(e.from, zone.ExitsOf(e.from));
    }
  }

  /** The two weights in use. */
  lemma {:induction false} TwoWeights(zone: Zone, r: Layout, z: int)
    ensures Score(zone, r, z, HEAVY) == Score(zone, r, z, LIGHT) + 12 * CountOcclusions(zone, r, z)
    ensures Score(zone, r, z, LIGHT)
            == Sum(Exits(zone, r), ExtraFn(r, z)) + 20 * Diagonals(zone, r, z) + 50 * Mismatches(zone, r, z) + 3 * CountOcclusions(zone, r, z)
  {
    ScoreIsWeighted(zone, r, z, 3);
    ScoreIsWeighted(zone, r, z, 15);
    hide Score, CountOcclusions, Diagonals, Mismatches;
  }

  /** The relaxation score weighs each diagonal by its drift. */
  lemma {:induction false} RelaxationIsWeighted(zone: Zone, r: Layout, z: int)
    ensures Score(zone, r, z, RelaxationScore)
            == Sum(Exits(zone, r), ExtraFn(r, z)) + 20 * Sum(Exits(zone, r), DriftFn(r, z)) + 50 * Mismatches(zone, r, z) + 3 * CountOcclusions(zone, r, z)
  {
    var f := CostFn(r, Snapshot(r, z), z, RelaxationScore);
    AllCardinal(zone, r);
    forall e | e in Exits(zone, r)
      ensures f(e) == ExtraFn(r, z)(e) + 20 * DriftFn(r, z)(e) + 50 * MismatchFn(r, z)(e) + 3 * OcclusionFn(r, z)(e)
    {
      RelaxationParts(r, z, e);
    }
    hide CostFn, ExtraFn, DriftFn, MismatchFn, OcclusionFn, Total;
    TotalIsSum(zone, r.order, f);
    TotalIsSum(zone, r.order, MismatchFn(r, z));
    TotalIsSum(zone, r.order, OcclusionFn(r, z));
    FourParts(Exits(zone, r), f, ExtraFn(r, z), DriftFn(r, z), MismatchFn(r, z), OcclusionFn(r, z), 3);
  }

  // ---- Crossings ----

  /** The cell lies strictly inside the segment. */
  predicate Inside(s: Segment, c: Cell) {
    StandsBetween(Pos(s.x1, s.y1, 0), Pos(s.x2, s.y2, 0), c)
  }

  /** Two segments cross if one runs along a row, the other along a column, and some cell lies strictly
      inside both; so it does not matter which comes first. */
  lemma CrossIffMeet(a: Segment, b: Segment)
    requires Upright(a) && Upright(b)
    ensures SegmentsCross(a, b) <==> a.horizontal != b.horizontal && exists c :: Inside(a, c) && Inside(b, c)
    ensures SegmentsCross(a, b) <==> SegmentsCross(b, a)
  {
    if SegmentsCross(a, b) {
      var c := if a.horizontal then Cell(b.x1, a.y1) else Cell(a.x1, b.y1);
      assert Inside(a, c) && Inside(b, c);
    }
  }

  /** A pair of rooms with a straight exit of at least two steps between them, one way or the other. */
  ghost predicate Linked(zone: Zone, r: Layout, z: int, k: set<RoomId>) {
    exists e :: e in AllOut(zone, zone.ids) && OnFloor(r, z, e) && !Slanted(r.at[e.from], r.at[e.to]) && Walk(r.at[e.from], r.at[e.to]) >= 2
      && k == {e.from, e.to}
  }

  /** The line between two rooms runs along a row, the other one along a column, and some cell lies
      strictly inside both. */
  ghost predicate Meet(r: Layout, k: set<RoomId>, l: set<RoomId>) {
    exists a, b, c, d :: MeetAt(r, k, l, a, b, c, d)
  }

  ghost predicate MeetAt(r: Layout, k: set<RoomId>, l: set<RoomId>, a: RoomId, b: RoomId, c: RoomId, d: RoomId) {
    && k == {a, b} && l == {c, d} && a in r.at && b in r.at && c in r.at && d in r.at
    && LinesMeet(r.at[a], r.at[b], r.at[c], r.at[d])
  }

  ghost predicate LinesMeet(p: Pos, q: Pos, s: Pos, t: Pos) {
    p.y == q.y && s.x == t.x && exists o :: StandsBetween(p, q, o) && StandsBetween(s, t, o)
  }

  /** Two linked pairs whose lines cross. */
  ghost predicate CrossingPair(zone: Zone, r: Layout, z: int, p: set<set<RoomId>>) {
    exists k, l :: p == {k, l} && Linked(zone, r, z, k) && Linked(zone, r, z, l) && Meet(r, k, l)
  }

  function Key(s: Segment): set<RoomId> { {s.edge.from, s.edge.to} }

  /** The segment is that of its exit. */
  ghost predicate Drawn(r: Layout, z: int, s: Segment) {
    Straight(r, z, 2, s.edge) && s == SegmentOf(r, z, s.edge)
  }

  /** Every segment is that of a listed exit between a new pair. */
  lemma {:induction false} SegmentsDrawn(r: Layout, z: int, edges: seq<Edge>, seen: set<set<RoomId>>)
    ensures forall s :: s in SegmentsFrom(r, z, 2, edges, seen) ==> Drawn(r, z, s) && s.edge in edges && Key(s) !in seen
  {
    if edges != [] {
      var e, key := edges[0], {edges[0].from, edges[0].to};
      SegmentsDrawn(r, z, edges[1..], if Straight(r, z, 2, e) && key !in seen then seen + {key} else seen);
      if Straight(r, z, 2, e) {
        StraightIsDrawn(r, z, e);
      }
      hide Straight, Drawn;
    }
  }

  /** No pair of rooms has two segments. */
  lemma {:induction false} SegmentsKeyed(r: Layout, z: int, edges: seq<Edge>, seen: set<set<RoomId>>)
    ensures Keyed(SegmentsFrom(r, z, 2, edges, seen))
  {
    if edges != [] {
      var e, key := edges[0], {edges[0].from, edges[0].to};
      if Straight(r, z, 2, e) && key !in seen {
        var a, rest := SegmentOf(r, z, e), SegmentsFrom(r, z, 2, edges[1..], seen + {key});
        hide Straight, Drawn;
        SegmentsKeyed(r, z, edges[1..], seen + {key});
        SegmentsDrawn(r, z, edges[1..], seen + {key});
        KeyedMore(a, rest);
      } else {
        SegmentsKeyed(r, z, edges[1..], seen);
      }
    }
  }

  lemma KeyedMore(a: Segment, rest: seq<Segment>)
    requires Keyed(rest) && forall s :: s in rest ==> Key(s) != Key(a)
    ensures Keyed([a] + rest)
  {
    var all := [a] + rest;
    forall i, j | 0 <= i < j < |all| ensures Key(all[i]) != Key(all[j]) {
      if i == 0 { assert all[j] in rest; } else { assert all[i] == rest[i - 1] && all[j] == rest[j - 1]; }
    }
  }

  /** Every listed exit that qualifies has the segment of its pair. */
  lemma {:induction false} SegmentOfPair(r: Layout, z: int, edges: seq<Edge>, seen: set<set<RoomId>>, e: Edge)
    requires e in edges && Straight(r, z, 2, e) && {e.from, e.to} !in seen
    ensures exists s :: s in SegmentsFrom(r, z, 2, edges, seen) && Key(s) == {e.from, e.to}
  {
    var d, key := edges[0], {edges[0].from, edges[0].to};
    hide Straight;
    var segs := SegmentsFrom(r, z, 2, edges, seen);
    if Straight(r, z, 2, d) && key !in seen {
      StraightIsDrawn(r, z, d);
      var rest := SegmentsFrom(r, z, 2, edges[1..], seen + {key});
      assert segs == [SegmentOf(r, z, d)] + rest;
      if key == {e.from, e.to} {
        assert segs[0] in segs;
      } else {
        SegmentOfPair(r, z, edges[1..], seen + {key}, e);
        var s :| s in rest && Key(s) == {e.from, e.to};
        assert s in segs;
      }
    } else {
      SegmentOfPair(r, z, edges[1..], seen, e);
    }
  }

  lemma StraightIsDrawn(r: Layout, z: int, e: Edge)
    requires Straight(r, z, 2, e)
    ensures Drawn(r, z, SegmentOf(r, z, e)) && Key(SegmentOf(r, z, e)) == {e.from, e.to}
  {
  }

  /** The crossings that one segment has with those after it. */
  function Hits(a: Segment, rest: seq<Segment>): set<set<set<RoomId>>> {
    set i | 0 <= i < |rest| && SegmentsCross(a, rest[i]) :: {Key(a), Key(rest[i])}
  }

  function AllHits(segs: seq<Segment>): set<set<set<RoomId>>> {
    if segs == [] then {} else Hits(segs[0], segs[1..]) + AllHits(segs[1..])
  }

  ghost predicate IsHit(segs: seq<Segment>, h: set<set<RoomId>>) {
    exists i, j :: 0 <= i < j < |segs| && SegmentsCross(segs[i], segs[j]) && h == {Key(segs[i]), Key(segs[j])}
  }

  ghost predicate Keyed(segs: seq<Segment>) {
    forall i, j :: 0 <= i < j < |segs| ==> Key(segs[i]) != Key(segs[j])
  }

  lemma {:induction false} HitsCard(a: Segment, rest: seq<Segment>)
    requires Keyed([a] + rest)
    ensures Sum(rest, CrossFn(a)) == |Hits(a, rest)|
  {
    if rest == [] {
      assert Hits(a, rest) == {};
    } else {
      var b, tail := rest[0], rest[1..];
      assert rest == [b] + tail;
      KeyedLess(a, b, tail);
      HitsCard(a, tail);
      HitsStep(a, b, tail);
      HitOnce(a, b, tail);
      assert CrossFn(a)(b) == if SegmentsCross(a, b) then 1 else 0;
      hide Hits, SegmentsCross, CrossFn, Keyed, Key;
      if SegmentsCross(a, b) {
        CardMore({Key(a), Key(b)}, Hits(a, tail));
      } else {
        assert {} + Hits(a, tail) == Hits(a, tail);
      }
    }
  }

  lemma CardMore<T(!new)>(x: T, s: set<T>)
    requires x !in s
    ensures |{x} + s| == 1 + |s|
  {
  }

  lemma HitOnce(a: Segment, b: Segment, tail: seq<Segment>)
    requires forall i :: 0 <= i < |tail| ==> Key(tail[i]) != Key(a) && Key(tail[i]) != Key(b)
    ensures {Key(a), Key(b)} !in Hits(a, tail)
  {
    hide SegmentsCross;
    forall i | 0 <= i < |tail| ensures {Key(a), Key(tail[i])} != {Key(a), Key(b)} {
      OtherOfTwo(Key(a), Key(tail[i]), Key(b));
    }
  }

  lemma KeyedLess(a: Segment, b: Segment, tail: seq<Segment>)
    requires Keyed([a] + ([b] + tail))
    ensures Keyed([a] + tail) && forall i :: 0 <= i < |tail| ==> Key(tail[i]) != Key(a) && Key(tail[i]) != Key(b)
  {
    var all, less := [a] + ([b] + tail), [a] + tail;
    assert all[0] == a && all[1] == b && forall i :: 0 <= i < |tail| ==> all[i + 2] == tail[i];
    forall i | 0 <= i < |tail| ensures Key(tail[i]) != Key(a) && Key(tail[i]) != Key(b) {
      assert Key(all[0]) != Key(all[i + 2]) && Key(all[1]) != Key(all[i + 2]);
    }
    forall i, j | 0 <= i < j < |less| ensures Key(less[i]) != Key(less[j]) {
      assert less[i] == all[if i == 0 then 0 else i + 1] && less[j] == all[j + 1];
    }
  }

  lemma OtherOfTwo<T(!new)>(a: T, b: T, c: T)
    requires b != c && a != b
    ensures {a, b} != {a, c}
  {
    assert b in {a, b} && b !in {a, c};
  }

  lemma HitsStep(a: Segment, b: Segment, tail: seq<Segment>)
    ensures Hits(a, [b] + tail) == (if SegmentsCross(a, b) then {{Key(a), Key(b)}} else {}) + Hits(a, tail)
  {
    hide SegmentsCross;
    var rest := [b] + tail;
    assert rest[0] == b && forall i :: 0 <= i < |tail| ==> rest[i + 1] == tail[i];
    forall h | h in Hits(a, rest) ensures h in (if SegmentsCross(a, b) then {{Key(a), Key(b)}} else {}) + Hits(a, tail) {
      var i :| 0 <= i < |rest| && SegmentsCross(a, rest[i]) && h == {Key(a), Key(rest[i])};
      if i > 0 { assert rest[i] == tail[i - 1]; }
    }
    forall h | h in Hits(a, tail) ensures h in Hits(a, rest) {
      var i :| 0 <= i < |tail| && SegmentsCross(a, tail[i]) && h == {Key(a), Key(tail[i])};
      assert rest[i + 1] == tail[i];
    }
  }

  lemma KeyedTail(segs: seq<Segment>)
    requires segs != [] && Keyed(segs)
    ensures Keyed(segs[1..]) && Keyed([segs[0]] + segs[1..])
  {
    var rest := segs[1..];
    assert segs == [segs[0]] + rest;
    forall i, j | 0 <= i < j < |rest| ensures Key(rest[i]) != Key(rest[j]) { assert rest[i] == segs[i + 1] && rest[j] == segs[j + 1]; }
  }

  lemma {:induction false} HitsAre(segs: seq<Segment>)
    ensures forall h :: h in AllHits(segs) <==> IsHit(segs, h)
  {
    if segs != [] {
      hide IsHit, AllHits;
      HitsAre(segs[1..]);
      forall h ensures h in AllHits(segs) <==> IsHit(segs, h) {
        HitAt(segs, h);
      }
    }
  }

  lemma {:induction false} CrossingsCard(segs: seq<Segment>)
    requires Keyed(segs)
    ensures Crossings(segs) == |AllHits(segs)|
  {
    if segs != [] {
      var a, rest := segs[0], segs[1..];
      KeyedTail(segs);
      HitsAre(rest);
      hide SegmentsCross, Keyed, Key, Hits, IsHit, CrossFn;
      CrossingsCard(rest);
      HitsCard(a, rest);
      forall h | h in Hits(a, rest) ensures h !in AllHits(rest) { HitIsNew(segs, h); }
      assert Hits(a, rest) !! AllHits(rest);
    }
  }

  lemma HitIsNew(segs: seq<Segment>, h: set<set<RoomId>>)
    requires segs != [] && Keyed(segs) && h in Hits(segs[0], segs[1..])
    requires forall g :: g in AllHits(segs[1..]) <==> IsHit(segs[1..], g)
    ensures h !in AllHits(segs[1..])
  {
    hide SegmentsCross;
    var rest := segs[1..];
    assert Key(segs[0]) in h;
    forall i, j | 0 <= i < j < |rest| ensures h != {Key(rest[i]), Key(rest[j])} {
      assert rest[i] == segs[i + 1] && rest[j] == segs[j + 1];
      assert Key(segs[0]) != Key(segs[i + 1]) && Key(segs[0]) != Key(segs[j + 1]);
      assert Key(segs[0]) !in {Key(rest[i]), Key(rest[j])};
    }
  }

  lemma HitAt(segs: seq<Segment>, h: set<set<RoomId>>)
    requires segs != []
    requires forall g :: g in AllHits(segs[1..]) <==> IsHit(segs[1..], g)
    ensures h in AllHits(segs) <==> IsHit(segs, h)
  {
    hide SegmentsCross;
    var rest := segs[1..];
    if h in Hits(segs[0], rest) {
      var i :| 0 <= i < |rest| && SegmentsCross(segs[0], rest[i]) && h == {Key(segs[0]), Key(rest[i])};
      assert rest[i] == segs[i + 1];
    }
    if h in AllHits(rest) {
      var i, j :| 0 <= i < j < |rest| && SegmentsCross(rest[i], rest[j]) && h == {Key(rest[i]), Key(rest[j])};
      assert rest[i] == segs[i + 1] && rest[j] == segs[j + 1];
    }
    if i, j :| 0 <= i < j < |segs| && SegmentsCross(segs[i], segs[j]) && h == {Key(segs[i]), Key(segs[j])} {
      if i == 0 { assert segs[j] == rest[j - 1]; } else { assert segs[i] == rest[i - 1] && segs[j] == rest[j - 1]; }
    }
  }

  /** A drawn segment runs between the positions of its exit, at least two cells apart on one line. */
  predicate RunsFrom(s: Segment, p: Pos, q: Pos) {
    s == Segment(s.edge, p.x, p.y, q.x, q.y, p.y == q.y) && p != q && !Slanted(p, q)
  }

  predicate EndsStand(r: Layout, s: Segment) {
    s.edge.from in r.at && s.edge.to in r.at && RunsFrom(s, r.at[s.edge.from], r.at[s.edge.to])
  }

  lemma DrawnHasEnds(r: Layout, z: int, s: Segment)
    requires Drawn(r, z, s)
    ensures EndsStand(r, s)
  {
  }

  lemma CrossIsLinesMeet(s: Segment, t: Segment, p: Pos, q: Pos, u: Pos, v: Pos)
    requires RunsFrom(s, p, q) && RunsFrom(t, u, v)
    ensures SegmentsCross(s, t) <==> LinesMeet(p, q, u, v) || LinesMeet(u, v, p, q)
  {
    CrossIffMeet(s, t);
    forall o ensures Inside(s, o) <==> StandsBetween(p, q, o) { }
    forall o ensures Inside(t, o) <==> StandsBetween(u, v, o) { }
    hide SegmentsCross, Inside;
    if o :| StandsBetween(p, q, o) && StandsBetween(u, v, o) {
      assert StandsBetween(u, v, o) && StandsBetween(p, q, o);
    }
  }

  /** Which end is named first does not matter, and no pair meets itself. */
  lemma LinesMeetTurned(p: Pos, q: Pos, u: Pos, v: Pos)
    requires LinesMeet(p, q, u, v)
    ensures LinesMeet(q, p, u, v) && LinesMeet(p, q, v, u) && LinesMeet(q, p, v, u)
    ensures !(p == u && q == v) && !(p == v && q == u)
  {
    var o :| StandsBetween(p, q, o) && StandsBetween(u, v, o);
    assert StandsBetween(q, p, o) && StandsBetween(v, u, o);
  }

  /** Two drawn segments that cross belong to pairs whose lines meet. */
  lemma CrossMeets(r: Layout, s: Segment, t: Segment)
    requires EndsStand(r, s) && EndsStand(r, t) && SegmentsCross(s, t)
    ensures Meet(r, Key(s), Key(t)) || Meet(r, Key(t), Key(s))
  {
    var a, b, c, d := s.edge.from, s.edge.to, t.edge.from, t.edge.to;
    CrossIsLinesMeet(s, t, r.at[a], r.at[b], r.at[c], r.at[d]);
    hide SegmentsCross, RunsFrom, LinesMeet, Meet;
    if LinesMeet(r.at[a], r.at[b], r.at[c], r.at[d]) {
      MeetOf(r, a, b, c, d);
    } else {
      MeetOf(r, c, d, a, b);
    }
  }

  lemma MeetOf(r: Layout, a: RoomId, b: RoomId, c: RoomId, d: RoomId)
    requires a in r.at && b in r.at && c in r.at && d in r.at && LinesMeet(r.at[a], r.at[b], r.at[c], r.at[d])
    ensures Meet(r, {a, b}, {c, d})
  {
    hide LinesMeet;
    assert MeetAt(r, {a, b}, {c, d}, a, b, c, d);
  }

  /** Lines that meet do so whichever way their pairs are written. */
  lemma MeetByKey(r: Layout, a: RoomId, b: RoomId, c: RoomId, d: RoomId, s: Edge, t: Edge)
    requires a in r.at && b in r.at && c in r.at && d in r.at && LinesMeet(r.at[a], r.at[b], r.at[c], r.at[d])
    requires {s.from, s.to} == {a, b} && {t.from, t.to} == {c, d}
    ensures LinesMeet(r.at[s.from], r.at[s.to], r.at[t.from], r.at[t.to]) && {a, b} != {c, d}
  {
    LinesMeetTurned(r.at[a], r.at[b], r.at[c], r.at[d]);
    hide LinesMeet;
    SamePair(a, b, s.from, s.to);
    SamePair(c, d, t.from, t.to);
    if {a, b} == {c, d} {
      SamePair(a, b, c, d);
    }
  }

  lemma MeetOfEdges(r: Layout, k: set<RoomId>, l: set<RoomId>, s: Edge, t: Edge)
    requires s.from in r.at && s.to in r.at && t.from in r.at && t.to in r.at && k == {s.from, s.to} && l == {t.from, t.to} && Meet(r, k, l)
    ensures LinesMeet(r.at[s.from], r.at[s.to], r.at[t.from], r.at[t.to]) && k != l
  {
    var a, b, c, d :| MeetAt(r, k, l, a, b, c, d);
    hide Meet, LinesMeet;
    MeetByKey(r, a, b, c, d, s, t);
  }

  /** Two drawn segments of pairs whose lines meet cross. */
  lemma MeetCrosses(r: Layout, s: Segment, t: Segment)
    requires EndsStand(r, s) && EndsStand(r, t) && Meet(r, Key(s), Key(t))
    ensures SegmentsCross(s, t) && Key(s) != Key(t)
  {
    hide SegmentsCross, RunsFrom, LinesMeet, Meet;
    MeetOfEdges(r, Key(s), Key(t), s.edge, t.edge);
    CrossIsLinesMeet(s, t, r.at[s.edge.from], r.at[s.edge.to], r.at[t.edge.from], r.at[t.edge.to]);
  }

  lemma SamePair<T(!new)>(a: T, b: T, c: T, d: T)
    requires {a, b} == {c, d}
    ensures (a == c && b == d) || (a == d && b == c)
  {
    assert a in {c, d} && b in {c, d} && c in {a, b} && d in {a, b};
  }

  lemma LinkOf(zone: Zone, r: Layout, z: int, s: Segment)
    requires Drawn(r, z, s) && s.edge in AllOut(zone, zone.ids)
    ensures Linked(zone, r, z, Key(s))
  {
    AllOutMembers(zone, zone.ids);
    OutMembers(s.edge.from, zone.ExitsOf(s.edge.from));
    assert OnFloor(r, z, s.edge);
  }

  lemma PairIsCrossing(zone: Zone, r: Layout, z: int, k: set<RoomId>, l: set<RoomId>)
    requires Linked(zone, r, z, k) && Linked(zone, r, z, l) && (Meet(r, k, l) || Meet(r, l, k))
    ensures CrossingPair(zone, r, z, {k, l})
  {
    hide Linked, Meet;
    var p := {k, l};
    assert p == {l, k};
    if Meet(r, k, l) {
      assert p == {k, l} && Linked(zone, r, z, k) && Linked(zone, r, z, l) && Meet(r, k, l);
    } else {
      assert p == {l, k} && Linked(zone, r, z, l) && Linked(zone, r, z, k) && Meet(r, l, k);
    }
  }

  lemma HitIsPair(zone: Zone, r: Layout, z: int, s: Segment, t: Segment)
    requires Drawn(r, z, s) && Drawn(r, z, t) && s.edge in AllOut(zone, zone.ids) && t.edge in AllOut(zone, zone.ids) && SegmentsCross(s, t)
    ensures CrossingPair(zone, r, z, {Key(s), Key(t)})
  {
    LinkOf(zone, r, z, s);
    LinkOf(zone, r, z, t);
    DrawnHasEnds(r, z, s);
    DrawnHasEnds(r, z, t);
    CrossMeets(r, s, t);
    PairIsCrossing(zone, r, z, Key(s), Key(t));
  }

  lemma SegmentAt(zone: Zone, r: Layout, z: int, k: set<RoomId>) returns (i: nat)
    requires Linked(zone, r, z, k)
    ensures i < |BuildEdgeSegments(zone, r, z)| && Key(BuildEdgeSegments(zone, r, z)[i]) == k && EndsStand(r, BuildEdgeSegments(zone, r, z)[i])
  {
    var edges, segs := AllOut(zone, zone.ids), BuildEdgeSegments(zone, r, z);
    var e :| e in edges && OnFloor(r, z, e) && !Slanted(r.at[e.from], r.at[e.to]) && Walk(r.at[e.from], r.at[e.to]) >= 2 && k == {e.from, e.to};
    assert Straight(r, z, 2, e);
    SegmentOfPair(r, z, edges, {}, e);
    SegmentsDrawn(r, z, edges, {});
    var s :| s in segs && Key(s) == k;
    DrawnHasEnds(r, z, s);
    i :| 0 <= i < |segs| && segs[i] == s;
  }

  lemma SymmetricCross(a: Segment, b: Segment)
    ensures SegmentsCross(a, b) == SegmentsCross(b, a)
  {
  }

  /** Two segments that cross are hit, in whatever order they are listed. */
  lemma CrossIsHit(segs: seq<Segment>, i: nat, j: nat)
    requires i < |segs| && j < |segs| && SegmentsCross(segs[i], segs[j]) && Key(segs[i]) != Key(segs[j])
    ensures IsHit(segs, {Key(segs[i]), Key(segs[j])})
  {
    SymmetricCross(segs[i], segs[j]);
    hide SegmentsCross, Key;
    var h := {Key(segs[i]), Key(segs[j])};
    if i < j {
      assert SegmentsCross(segs[i], segs[j]) && h == {Key(segs[i]), Key(segs[j])};
    } else {
      assert SegmentsCross(segs[j], segs[i]) && h == {Key(segs[j]), Key(segs[i])};
    }
  }

  lemma PairIsHit(zone: Zone, r: Layout, z: int, p: set<set<RoomId>>)
    requires CrossingPair(zone, r, z, p)
    ensures IsHit(BuildEdgeSegments(zone, r, z), p)
  {
    hide Meet, Linked, EndsStand, IsHit, BuildEdgeSegments;
    var k, l :| p == {k, l} && Linked(zone, r, z, k) && Linked(zone, r, z, l) && Meet(r, k, l);
    var segs := BuildEdgeSegments(zone, r, z);
    var i := SegmentAt(zone, r, z, k);
    var j := SegmentAt(zone, r, z, l);
    MeetCrosses(r, segs[i], segs[j]);
    CrossIsHit(segs, i, j);
  }

  lemma HitIsCrossing(zone: Zone, r: Layout, z: int, p: set<set<RoomId>>)
    requires IsHit(BuildEdgeSegments(zone, r, z), p)
    ensures CrossingPair(zone, r, z, p)
  {
    var edges, segs := AllOut(zone, zone.ids), BuildEdgeSegments(zone, r, z);
    SegmentsDrawn(r, z, edges, {});
    hide SegmentsCross, CrossingPair, Drawn;
    var i, j :| 0 <= i < j < |segs| && SegmentsCross(segs[i], segs[j]) && p == {Key(segs[i]), Key(segs[j])};
    HitIsPair(zone, r, z, segs[i], segs[j]);
  }

  /** The crossings of a floor are the unordered pairs of linked pairs of rooms whose lines meet, so their
      number depends neither on the order of the rooms nor on that of the exits. */
  lemma CrossingsAreMeetings(zone: Zone, r: Layout, z: int) returns (pairs: set<set<set<RoomId>>>)
    ensures forall p :: p in pairs <==> CrossingPair(zone, r, z, p)
    ensures CountCrossings(zone, r, z) == |pairs|
  {
    var edges, segs := AllOut(zone, zone.ids), BuildEdgeSegments(zone, r, z);
    SegmentsKeyed(r, z, edges, {});
    CrossingsCard(segs);
    HitsAre(segs);
    pairs := AllHits(segs);
    hide CrossingPair, BuildEdgeSegments, AllHits, Keyed, IsHit;
    forall p ensures p in pairs <==> CrossingPair(zone, r, z, p) {
      if p in pairs {
        HitIsCrossing(zone, r, z, p);
      }
      if CrossingPair(zone, r, z, p) {
        PairIsHit(zone, r, z, p);
      }
    }
  }
}
