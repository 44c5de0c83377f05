/** The two mutable structures of the engine, `result` and `occupied`, and the elementary
    updates every phase makes to both. */
module Boards {
  import opened Sums
  import opened Zones
  import opened Scores
  import Isomorphism

  type Occupancy = map<int, set<Cell>>

  // ---- Agreement of the two structures ----

  ghost predicate Taken(r: Layout, z: int, c: Cell) {
    exists id :: id in r.at && r.at[id] == At(c, z)
  }

  /** Each floor's occupied set is exactly the set of cells of the rooms on that floor. */
  ghost predicate Exact(r: Layout, occ: Occupancy) {
    && (forall id :: id in r.at ==> r.at[id].z in occ)
    && (forall z, c :: z in occ ==> (c in occ[z] <==> Taken(r, z, c)))
  }

  ghost predicate NoOverlap(r: Layout) {
    forall a, b :: a in r.at && b in r.at && a != b ==> r.at[a] != r.at[b]
  }

  ghost predicate Agrees(r: Layout, occ: Occupancy) {
    Exact(r, occ) && NoOverlap(r)
  }

  /** No room is added, dropped or moved to another floor. */
  ghost predicate SameFloors(r: Layout, r': Layout) {
    && r'.order == r.order && r'.at.Keys == r.at.Keys
    && forall id :: id in r.at ==> r'.at[id].z == r.at[id].z
  }

  /** What a step on floor z keeps even when it may break agreement. */
  ghost predicate Contained(z: int, r: Layout, occ: Occupancy, r': Layout, occ': Occupancy) {
    && SameFloors(r, r')
    && (forall id :: id in r.at && r.at[id].z != z ==> r'.at[id] == r.at[id])
    && occ'.Keys == occ.Keys
    && (forall y :: y in occ && y != z ==> occ'[y] == occ[y])
  }

  lemma ContainedTrans(z: int, r: Layout, occ: Occupancy, r1: Layout, occ1: Occupancy, r2: Layout, occ2: Occupancy)
    requires Contained(z, r, occ, r1, occ1) && Contained(z, r1, occ1, r2, occ2)
    ensures Contained(z, r, occ, r2, occ2)
    ensures forall id, y :: r.On(id, y) <==> r1.On(id, y)
  {
  }

  /** What a step on floor z keeps: rooms and floors, the other floors, and agreement. */
  ghost predicate FloorStep(z: int, r: Layout, occ: Occupancy, r': Layout, occ': Occupancy) {
    Contained(z, r, occ, r', occ') && (Agrees(r, occ) ==> Agrees(r', occ'))
  }

  lemma FloorStepRefl(z: int, r: Layout, occ: Occupancy)
    ensures FloorStep(z, r, occ, r, occ)
  {
  }

  lemma FloorStepTrans(z: int, r: Layout, occ: Occupancy, r1: Layout, occ1: Occupancy, r2: Layout, occ2: Occupancy)
    requires FloorStep(z, r, occ, r1, occ1) && FloorStep(z, r1, occ1, r2, occ2)
    ensures FloorStep(z, r, occ, r2, occ2)
  {
    hide Agrees;
  }

  /** What a whole phase keeps. */
  ghost predicate Kept(r: Layout, occ: Occupancy, r': Layout, occ': Occupancy) {
    SameFloors(r, r') && occ'.Keys == occ.Keys && (Agrees(r, occ) ==> Agrees(r', occ'))
  }

  lemma KeptStep(z: int, r: Layout, occ: Occupancy, r1: Layout, occ1: Occupancy, r2: Layout, occ2: Occupancy)
    requires Kept(r, occ, r1, occ1) && FloorStep(z, r1, occ1, r2, occ2)
    ensures Kept(r, occ, r2, occ2)
  {
    hide Agrees;
  }

  lemma KeptRefl(r: Layout, occ: Occupancy)
    ensures Kept(r, occ, r, occ)
  {
  }

  /** The other floors keep their rooms, so also their scores. */
  lemma OtherFloors(z: int, y: int, r: Layout, occ: Occupancy, r': Layout, occ': Occupancy)
    requires FloorStep(z, r, occ, r', occ') && y != z
    ensures SameFloor(r, r', y)
  {
    hide Agrees;
  }

  /** The rooms determine the occupied cells: a step that moves none leaves an agreeing board alone. */
  lemma SameBoard(z: int, r: Layout, occ: Occupancy, occ': Occupancy)
    requires Agrees(r, occ) && FloorStep(z, r, occ, r, occ')
    ensures occ' == occ
  {
    forall y | y in occ ensures occ'[y] == occ[y] {
      forall c ensures c in occ'[y] <==> c in occ[y] {
        assert c in occ[y] <==> Taken(r, y, c);
        assert c in occ'[y] <==> Taken(r, y, c);
      }
    }
  }

  /** On an agreeing board every room is found on its cell, which no other room has. */
  ghost predicate Alone(r: Layout, cells: set<Cell>, z: int) {
    forall other :: r.On(other, z) ==>
      && r.at[other].AtCell() in cells && Taken(r, z, r.at[other].AtCell())
      && forall id :: id in r.at && r.at[id] == At(r.at[other].AtCell(), z) ==> id == other
  }

  lemma AgreeingAlone(r: Layout, occ: Occupancy, z: int)
    requires Agrees(r, occ) && z in occ
    ensures Alone(r, occ[z], z)
  {
    forall other | r.On(other, z) ensures Taken(r, z, r.at[other].AtCell()) { }
  }

  // ---- Runs over the floors ----

  datatype State = State(r: Layout, occ: Occupancy)

  /** A phase goes from floor to floor; a run lists the states in between. */
  ghost predicate Run(run: seq<State>, n: nat, first: State, last: State) {
    |run| == n + 1 && run[0] == first && run[n] == last
  }

  // ---- Searches ----

  ghost predicate InSome(reaches: seq<iset<Layout>>, x: Layout) {
    exists i :: 0 <= i < |reaches| && x in reaches[i]
  }

  ghost function Union(reaches: seq<iset<Layout>>): iset<Layout> {
    iset x: Layout | InSome(reaches, x)
  }

  /** A search among the layouts of reach: it found one with a score below the bound and is there,
      or it is back where it was and, if the board agreed, there is none. */
  ghost predicate Searched(zone: Zone, z: int, fn: ScoreFn, bound: int, reach: iset<Layout>, r: Layout, occ: Occupancy, r': Layout, occ': Occupancy, found: bool) {
    if found then
      Score(zone, r', z, fn) < bound && (Agrees(r, occ) ==> r' in reach)
    else
      r' == r && (Agrees(r, occ) ==> occ' == occ && forall x :: x in reach ==> bound <= Score(zone, x, z, fn))
  }

  lemma SearchedStart(zone: Zone, z: int, fn: ScoreFn, bound: int, reaches: seq<iset<Layout>>, r: Layout, occ: Occupancy)
    ensures Searched(zone, z, fn, bound, Union(reaches[..0]), r, occ, r, occ, false)
  {
  }

  /** Searching one part after another searches the whole. */
  lemma SearchedStep(zone: Zone, z: int, fn: ScoreFn, bound: int, reaches: seq<iset<Layout>>, i: nat, here: iset<Layout>,
                     r: Layout, occ: Occupancy, occ1: Occupancy, r': Layout, occ': Occupancy, found: bool)
    requires i < |reaches| && Searched(zone, z, fn, bound, Union(reaches[..i]), r, occ, r, occ1, false)
    requires Agrees(r, occ) && occ1 == occ ==> here == reaches[i]
    requires Searched(zone, z, fn, bound, here, r, occ1, r', occ', found)
    ensures Searched(zone, z, fn, bound, if found then Union(reaches) else Union(reaches[..i + 1]), r, occ, r', occ', found)
  {
    hide Agrees, Score;
    forall x | x in Union(reaches[..i + 1]) ensures x in Union(reaches[..i]) || x in reaches[i] {
      var j :| 0 <= j < i + 1 && x in reaches[..i + 1][j];
      if j < i { assert x in reaches[..i][j]; }
    }
  }

  lemma SearchedAll(zone: Zone, z: int, fn: ScoreFn, bound: int, reaches: seq<iset<Layout>>, r: Layout, occ: Occupancy, occ': Occupancy)
    requires Searched(zone, z, fn, bound, Union(reaches[..|reaches|]), r, occ, r, occ', false)
    ensures Searched(zone, z, fn, bound, Union(reaches), r, occ, r, occ', false)
  {
    TakeAll(reaches);
  }

  lemma SearchedOr(zone: Zone, z: int, fn: ScoreFn, bound: int, first: iset<Layout>, here: iset<Layout>, second: iset<Layout>,
                   r: Layout, occ: Occupancy, occ1: Occupancy, r': Layout, occ': Occupancy, found: bool)
    requires Searched(zone, z, fn, bound, first, r, occ, r, occ1, false)
    requires Agrees(r, occ) && occ1 == occ ==> here == second
    requires Searched(zone, z, fn, bound, here, r, occ1, r', occ', found)
    ensures Searched(zone, z, fn, bound, first + second, r, occ, r', occ', found)
  {
    hide Agrees, Score;
  }

  lemma SearchedPart(zone: Zone, z: int, fn: ScoreFn, bound: int, first: iset<Layout>, whole: iset<Layout>, r: Layout, occ: Occupancy, r': Layout, occ': Occupancy)
    requires Searched(zone, z, fn, bound, first, r, occ, r', occ', true) && first <= whole
    ensures Searched(zone, z, fn, bound, whole, r, occ, r', occ', true)
  {
    hide Agrees, Score;
  }

  lemma SearchedNone(zone: Zone, z: int, fn: ScoreFn, bound: int, reach: iset<Layout>, r: Layout, occ: Occupancy)
    requires forall x :: x !in reach
    ensures Searched(zone, z, fn, bound, reach, r, occ, r, occ, false)
  {
  }

  /** What callers of a search need of it. */
  lemma NotFound(zone: Zone, z: int, fn: ScoreFn, bound: int, reach: iset<Layout>, r: Layout, occ: Occupancy, r': Layout, occ': Occupancy)
    requires Searched(zone, z, fn, bound, reach, r, occ, r', occ', false)
    ensures r' == r
  {
    hide Agrees, Score;
  }

  /** A trial of one layout. */
  lemma SearchedOne(zone: Zone, z: int, fn: ScoreFn, bound: int, x: Layout, r: Layout, occ: Occupancy, r': Layout, occ': Occupancy, found: bool)
    requires FloorStep(z, r, occ, r', occ') && r' == (if found then x else r) && (found <==> Score(zone, x, z, fn) < bound)
    ensures Searched(zone, z, fn, bound, iset{x}, r, occ, r', occ', found)
  {
    if !found && Agrees(r, occ) { SameBoard(z, r, occ, occ'); }
  }

  // ---- Steps that lower a score ----

  /** A step on floor z after which the score is lower, or nothing has moved. */
  ghost predicate Improves(zone: Zone, z: int, fn: ScoreFn, r: Layout, occ: Occupancy, r': Layout, occ': Occupancy) {
    && FloorStep(z, r, occ, r', occ')
    && (r' == r || Score(zone, r', z, fn) < Score(zone, r, z, fn))
  }

  lemma ImprovesRefl(zone: Zone, z: int, fn: ScoreFn, r: Layout, occ: Occupancy)
    ensures Improves(zone, z, fn, r, occ, r, occ)
  {
    FloorStepRefl(z, r, occ);
  }

  lemma ImprovesTrans(zone: Zone, z: int, fn: ScoreFn, r: Layout, occ: Occupancy, r1: Layout, occ1: Occupancy, r2: Layout, occ2: Occupancy)
    requires Improves(zone, z, fn, r, occ, r1, occ1) && Improves(zone, z, fn, r1, occ1, r2, occ2)
    ensures Improves(zone, z, fn, r, occ, r2, occ2)
    ensures occ1.Keys == occ.Keys && forall id, y :: r.On(id, y) <==> r1.On(id, y)
  {
    FloorStepTrans(z, r, occ, r1, occ1, r2, occ2);
    hide Agrees, Score;
  }

  lemma ImprovesParts(zone: Zone, z: int, fn: ScoreFn, r: Layout, occ: Occupancy, r': Layout, occ': Occupancy)
    requires Improves(zone, z, fn, r, occ, r', occ')
    ensures Score(zone, r', z, fn) <= Score(zone, r, z, fn)
    ensures occ'.Keys == occ.Keys && r'.order == r.order && forall id, y :: r.On(id, y) <==> r'.On(id, y)
  {
    hide Agrees, Score;
  }

  lemma ImprovesStep(zone: Zone, z: int, fn: ScoreFn, r: Layout, occ: Occupancy, r': Layout, occ': Occupancy)
    requires Improves(zone, z, fn, r, occ, r', occ')
    ensures FloorStep(z, r, occ, r', occ')
  {
    hide FloorStep;
  }

  lemma ImprovedOr(zone: Zone, z: int, fn: ScoreFn, r: Layout, occ: Occupancy, r': Layout, occ': Occupancy)
    requires Improves(zone, z, fn, r, occ, r', occ')
    ensures r' == r || Score(zone, r', z, fn) < Score(zone, r, z, fn)
  {
    hide FloorStep, Score;
  }

  lemma StepImproves(zone: Zone, z: int, fn: ScoreFn, r: Layout, occ: Occupancy, r': Layout, occ': Occupancy, moved: bool)
    requires FloorStep(z, r, occ, r', occ')
    requires moved ==> Score(zone, r', z, fn) < Score(zone, r, z, fn)
    requires !moved ==> r' == r
    ensures Improves(zone, z, fn, r, occ, r', occ')
  {
    hide FloorStep, Score;
  }

  // ---- Placing rooms ----

  lemma OpenExact(r: Layout, occ: Occupancy, z: int)
    requires Exact(r, occ) && z !in occ
    ensures Exact(r, occ[z := {}])
  {
    forall c ensures !Taken(r, z, c) { }
  }

  lemma PlaceExact(r: Layout, occ: Occupancy, z: int, id: RoomId, c: Cell)
    requires Exact(r, occ) && z in occ && id !in r.at
    ensures Exact(r.Put(id, At(c, z)), occ[z := occ[z] + {c}])
    ensures NoOverlap(r) && c !in occ[z] ==> NoOverlap(r.Put(id, At(c, z)))
  {
    var r' := r.Put(id, At(c, z));
    forall y, d | y in occ ensures d in occ[z := occ[z] + {c}][y] <==> Taken(r', y, d) {
      if Taken(r, y, d) {
        var m :| m in r.at && r.at[m] == At(d, y);
        assert r'.at[m] == At(d, y);
      }
      assert r'.at[id] == At(c, z);
    }
    if NoOverlap(r) && c !in occ[z] {
      assert !Taken(r, z, c);
    }
  }

  // ---- Moving a set of rooms of one floor ----

  /** The rooms in `to` move there, the others stay. */
  function Applied(r: Layout, z: int, to: map<RoomId, Cell>): Layout {
    Layout(r.order, map id | id in r.at :: if id in to then At(to[id], z) else r.at[id])
  }

  ghost predicate OnFloor(r: Layout, z: int, to: map<RoomId, Cell>) {
    forall id :: id in to ==> r.On(id, z)
  }

  /** The cell a shift along one axis takes a room to. */
  function MovedCell(p: Pos, onX: bool, shift: int): Cell {
    if onX then Cell(p.x + shift, p.y) else Cell(p.x, p.y + shift)
  }

  /** Where the moving rooms are now. */
  function Home(r: Layout, to: map<RoomId, Cell>): map<RoomId, Cell> {
    map id | id in to && id in r.at :: r.at[id].AtCell()
  }

  function Cells(to: map<RoomId, Cell>): set<Cell> {
    set id | id in to :: to[id]
  }

  /** The moved rooms get distinct cells that are free or given up by the move. */
  predicate Fits(r: Layout, cells: set<Cell>, to: map<RoomId, Cell>) {
    && (forall a, b :: a in to && b in to && a != b ==> to[a] != to[b])
    && (forall id :: id in to ==> to[id] !in cells || to[id] in Cells(Home(r, to)))
  }

  function CellsOf(to: map<RoomId, Cell>, ids: seq<RoomId>): set<Cell> {
    set id | id in ids && id in to :: to[id]
  }

  lemma CellsOfStep(to: map<RoomId, Cell>, ids: seq<RoomId>, i: nat)
    requires i < |ids| && ids[i] in to
    ensures CellsOf(to, ids[..i + 1]) == CellsOf(to, ids[..i]) + {to[ids[i]]}
    ensures CellsOf(to, ids[..0]) == {}
  {
    assert ids[..i + 1] == ids[..i] + [ids[i]];
    assert forall id :: id in ids[..i + 1] <==> id in ids[..i] || id == ids[i];
  }

  lemma AllCellsOf(to: map<RoomId, Cell>, ids: seq<RoomId>)
    requires forall id :: id in ids <==> id in to
    ensures CellsOf(to, ids) == Cells(to)
  {
  }

  lemma SameOccupancy(occ: Occupancy, occ': Occupancy, z: int, cells: set<Cell>)
    requires z in occ && occ'.Keys == occ.Keys && occ'[z] == cells && forall y :: y in occ && y != z ==> occ'[y] == occ[y]
    ensures occ' == occ[z := cells]
  {
    var after := occ[z := cells];
    assert after.Keys == occ'.Keys;
    forall y | y in after ensures after[y] == occ'[y] { }
  }

  function Vacated(occ: Occupancy, z: int, leave: set<Cell>, enter: set<Cell>): Occupancy
    requires z in occ
  {
    occ[z := (occ[z] - leave) + enter]
  }

  lemma AppliedAgrees(r: Layout, occ: Occupancy, z: int, to: map<RoomId, Cell>)
    requires Agrees(r, occ) && z in occ && OnFloor(r, z, to) && Fits(r, occ[z], to)
    ensures Agrees(Applied(r, z, to), Vacated(occ, z, Cells(Home(r, to)), Cells(to)))
  {
    AppliedDistinct(r, occ, z, to);
    var r', home := Applied(r, z, to), Home(r, to);
    var occ' := Vacated(occ, z, Cells(home), Cells(to));
    forall y, c | y in occ' ensures c in occ'[y] <==> Taken(r', y, c) {
      hide NoOverlap, Fits;
      if Taken(r', y, c) {
        var id :| id in r'.at && r'.at[id] == At(c, y);
        if id !in to {
          assert Taken(r, y, c);
          if y == z && c in Cells(home) { HomeIsLeft(r, occ, z, to, id); }
        }
      }
      if c in occ'[y] {
        if y == z && c in Cells(to) {
          var id :| id in to && to[id] == c;
          assert r'.at[id] == At(c, y);
        } else {
          assert Taken(r, y, c);
          var id :| id in r.at && r.at[id] == At(c, y);
          InHome(r, to, id);
          assert r'.at[id] == At(c, y);
        }
      }
    }
  }

  lemma InHome(r: Layout, to: map<RoomId, Cell>, id: RoomId)
    ensures id in to && id in r.at ==> r.at[id].AtCell() in Cells(Home(r, to))
  {
    if id in to && id in r.at { assert Home(r, to)[id] == r.at[id].AtCell(); }
  }

  /** No room that stays is on a cell of one that moves. */
  lemma HomeIsLeft(r: Layout, occ: Occupancy, z: int, to: map<RoomId, Cell>, stays: RoomId)
    requires Agrees(r, occ) && OnFloor(r, z, to) && stays !in to && r.On(stays, z)
    ensures r.at[stays].AtCell() !in Cells(Home(r, to))
  {
  }

  lemma AppliedDistinct(r: Layout, occ: Occupancy, z: int, to: map<RoomId, Cell>)
    requires Agrees(r, occ) && z in occ && OnFloor(r, z, to) && Fits(r, occ[z], to)
    ensures NoOverlap(Applied(r, z, to))
  {
    var r' := Applied(r, z, to);
    forall a, b | a in r'.at && b in r'.at && a != b ensures r'.at[a] != r'.at[b] {
      if a in to && b !in to && r.at[b].z == z { StayingIsClear(r, occ, z, to, a, b); }
      if b in to && a !in to && r.at[a].z == z { StayingIsClear(r, occ, z, to, b, a); }
    }
  }

  lemma StayingIsClear(r: Layout, occ: Occupancy, z: int, to: map<RoomId, Cell>, mover: RoomId, stays: RoomId)
    requires Agrees(r, occ) && z in occ && OnFloor(r, z, to) && Fits(r, occ[z], to)
    requires mover in to && stays !in to && r.On(stays, z)
    ensures r.at[stays].AtCell() != to[mover]
  {
    HomeIsLeft(r, occ, z, to, stays);
    assert Taken(r, z, r.at[stays].AtCell());
  }

  /** Moving back restores the layout, and the occupied cells too when the move was a fit. */
  lemma AppliedBack(r: Layout, occ: Occupancy, z: int, to: map<RoomId, Cell>)
    requires r.Valid() && z in occ && OnFloor(r, z, to)
    ensures Applied(Applied(r, z, to), z, Home(r, to)) == r
    ensures Home(Applied(r, z, to), Home(r, to)) == to
    ensures Agrees(r, occ) && Fits(r, occ[z], to) ==>
      Vacated(Vacated(occ, z, Cells(Home(r, to)), Cells(to)), z, Cells(to), Cells(Home(r, to))) == occ
  {
    hide Agrees, Fits;
    assert Applied(Applied(r, z, to), z, Home(r, to)).at == r.at;
    if Agrees(r, occ) && Fits(r, occ[z], to) {
      UnfoldExact(r, occ);
      HomeIsTaken(r, occ, z, to);
      FitsApart(r, occ[z], to);
      assert ((occ[z] - Cells(Home(r, to))) + Cells(to)) - Cells(to) + Cells(Home(r, to)) == occ[z];
    }
  }

  lemma HomeIsTaken(r: Layout, occ: Occupancy, z: int, to: map<RoomId, Cell>)
    requires Exact(r, occ) && z in occ && OnFloor(r, z, to)
    ensures Cells(Home(r, to)) <= occ[z]
  {
    forall c | c in Cells(Home(r, to)) ensures c in occ[z] {
      var m :| m in Home(r, to) && Home(r, to)[m] == c;
      assert r.at[m] == At(c, z);
      assert Taken(r, z, c);
    }
  }

  lemma FitsApart(r: Layout, cells: set<Cell>, to: map<RoomId, Cell>)
    requires Fits(r, cells, to)
    ensures forall c :: c in Cells(to) && c in cells ==> c in Cells(Home(r, to))
  {
  }

  /** A swap exchanges two cells of one floor, so the occupied set need not change. */
  lemma SwappedAgrees(r: Layout, occ: Occupancy, z: int, a: RoomId, b: RoomId)
    requires r.Valid() && r.On(a, z) && r.On(b, z) && a != b && z in occ
    ensures FloorStep(z, r, occ, Swapped(r, a, b), occ)
    ensures Swapped(Swapped(r, a, b), a, b) == r
  {
    hide Agrees;
    var r' := Swapped(r, a, b);
    assert Swapped(r', a, b).at == r.at;
    if Agrees(r, occ) { SwapKeepsAgreement(r, occ, z, a, b); }
  }

  lemma SwapKeepsAgreement(r: Layout, occ: Occupancy, z: int, a: RoomId, b: RoomId)
    requires r.Valid() && r.On(a, z) && r.On(b, z) && a != b && z in occ && Agrees(r, occ)
    ensures Agrees(Swapped(r, a, b), occ)
  {
    var to := map[a := r.at[b].AtCell(), b := r.at[a].AtCell()];
    hide Agrees, Exact, Fits, Cells, Home, Applied, Swapped;
    SwapIsApplied(r, z, a, b);
    SwapFits(r, occ, z, a, b);
    UnfoldExact(r, occ);
    AppliedAgrees(r, occ, z, to);
    HomeIsTaken(r, occ, z, to);
    SameCells(occ, z, Cells(to));
  }

  lemma SwapIsApplied(r: Layout, z: int, a: RoomId, b: RoomId)
    requires r.Valid() && r.On(a, z) && r.On(b, z) && a != b
    ensures Swapped(r, a, b) == Applied(r, z, map[a := r.at[b].AtCell(), b := r.at[a].AtCell()])
  {
    assert Swapped(r, a, b).at == Applied(r, z, map[a := r.at[b].AtCell(), b := r.at[a].AtCell()]).at;
  }

  lemma SameCells(occ: Occupancy, z: int, cells: set<Cell>)
    requires z in occ && cells <= occ[z]
    ensures Vacated(occ, z, cells, cells) == occ
  {
    assert (occ[z] - cells) + cells == occ[z];
  }

  lemma UnfoldExact(r: Layout, occ: Occupancy)
    requires Agrees(r, occ)
    ensures Exact(r, occ)
  {
  }

  lemma SwapFits(r: Layout, occ: Occupancy, z: int, a: RoomId, b: RoomId)
    requires Agrees(r, occ) && r.On(a, z) && r.On(b, z) && a != b && z in occ
    ensures var to := map[a := r.at[b].AtCell(), b := r.at[a].AtCell()];
            Fits(r, occ[z], to) && Cells(Home(r, to)) == Cells(to)
  {
    var to := map[a := r.at[b].AtCell(), b := r.at[a].AtCell()];
    var home := Home(r, to);
    assert home[a] == to[b] && home[b] == to[a];
    assert home[a] in Cells(home) && home[b] in Cells(home) && to[a] in Cells(to) && to[b] in Cells(to);
  }

  function ShiftedCells(cells: set<Cell>, s: Isomorphism.Insertion): set<Cell> {
    set c | c in cells :: s.ApplyCell(c)
  }

  /** Inserting a row or column keeps agreement and leaves the gap empty. */
  lemma ShiftedAgrees(r: Layout, occ: Occupancy, z: int, s: Isomorphism.Insertion)
    requires r.Valid() && Agrees(r, occ) && z in occ
    ensures Agrees(Isomorphism.Shifted(r, z, s), occ[z := ShiftedCells(occ[z], s)])
  {
    var r' := Isomorphism.Shifted(r, z, s);
    var occ' := occ[z := ShiftedCells(occ[z], s)];
    forall y, c | y in occ' ensures c in occ'[y] <==> Taken(r', y, c) {
      hide NoOverlap;
      if Taken(r', y, c) {
        var id :| id in r'.at && r'.at[id] == At(c, y);
        assert Taken(r, y, r.at[id].AtCell());
      }
      if c in occ'[y] {
        var c0 :| c0 in occ[y] && c == if y == z then s.ApplyCell(c0) else c0;
        assert Taken(r, y, c0);
        var id :| id in r.at && r.at[id] == At(c0, y);
        assert r'.at[id] == At(c, y);
      }
    }
    forall a, b | a in r'.at && b in r'.at && a != b ensures r'.at[a] != r'.at[b] {
      hide Exact;
      assert r.at[a] != r.at[b];
      s.Monotone(r.at[a].x, r.at[b].x);
      s.Monotone(r.at[a].y, r.at[b].y);
      s.Monotone(r.at[b].x, r.at[a].x);
      s.Monotone(r.at[b].y, r.at[a].y);
    }
  }

  lemma ShiftedClears(r: Layout, z: int, s: Isomorphism.Insertion)
    requires r.Valid()
    ensures SameFloors(r, Isomorphism.Shifted(r, z, s))
    ensures forall id :: Isomorphism.Shifted(r, z, s).On(id, z) ==>
      (if s.onX then Isomorphism.Shifted(r, z, s).at[id].x else Isomorphism.Shifted(r, z, s).at[id].y) != s.Gap()
  {
  }

  // ---- The mutable state ----

  function FloorRooms(r: Layout, z: int): seq<RoomId> {
    FloorRoomsOf(r, z, r.order)
  }

  function FloorRoomsOf(r: Layout, z: int, ids: seq<RoomId>): (s: seq<RoomId>)
    ensures forall id :: id in s <==> id in ids && r.On(id, z)
  {
    if ids == [] then []
    else
      var rest := FloorRoomsOf(r, z, ids[1..]);
      assert forall id :: id in ids <==> id == ids[0] || id in ids[1..];
      (if r.On(ids[0], z) then [ids[0]] else []) + rest
  }

  /** Every room of the zone is placed, on a floor that has an occupied set. */
  ghost predicate ReadyState(zone: Zone, r: Layout, floors: seq<int>, occ: Occupancy) {
    && zone.Valid() && r.Valid()
    && (forall id :: id in r.order <==> id in zone.ids)
    && (forall z :: z in floors <==> z in occ)
    && (forall id :: id in r.at ==> r.at[id].z in occ)
  }

  /** Steps that keep the rooms, their floors and the set of floors keep a board ready. */
  lemma StillReady(zone: Zone, r: Layout, floors: seq<int>, occ: Occupancy, r': Layout, occ': Occupancy)
    requires ReadyState(zone, r, floors, occ) && SameFloors(r, r') && occ'.Keys == occ.Keys
    ensures ReadyState(zone, r', floors, occ')
  {
  }

  lemma ReadyParts(zone: Zone, r: Layout, floors: seq<int>, occ: Occupancy)
    requires ReadyState(zone, r, floors, occ)
    ensures zone.Valid() && r.Valid() && forall id :: id in r.order <==> id in zone.ids
  {
  }

  lemma FloorIsOpen(zone: Zone, r: Layout, floors: seq<int>, occ: Occupancy, i: nat)
    requires ReadyState(zone, r, floors, occ) && i < |floors|
    ensures floors[i] in occ
  {
    var z := floors[i];
    assert z in floors;
  }

  /** The listed rooms are on their new cells, the others where they were. */
  ghost predicate PlacedSoFar(start: Layout, before: Occupancy, z: int, to: map<RoomId, Cell>, ids: seq<RoomId>, r: Layout, occ: Occupancy) {
    && z in before && r.order == start.order && r.at.Keys == start.at.Keys && occ.Keys == before.Keys
    && (forall id :: id in ids ==> id in to)
    && (forall id :: id in start.at ==> r.at[id] == if id in ids then At(to[id], z) else start.at[id])
    && occ[z] == before[z] + CellsOf(to, ids)
    && (forall y :: y in before && y != z ==> occ[y] == before[y])
  }

  lemma PlacedNone(start: Layout, before: Occupancy, z: int, to: map<RoomId, Cell>)
    requires z in before
    ensures PlacedSoFar(start, before, z, to, [], start, before)
  {
    assert CellsOf(to, []) == {};
  }

  lemma PlacedStep(start: Layout, before: Occupancy, z: int, to: map<RoomId, Cell>, ids: seq<RoomId>, id: RoomId, r: Layout, occ: Occupancy)
    requires PlacedSoFar(start, before, z, to, ids, r, occ) && id in to && id in start.at
    ensures z in occ && PlacedSoFar(start, before, z, to, ids + [id], r.Put(id, At(to[id], z)), occ[z := occ[z] + {to[id]}])
  {
    assert CellsOf(to, ids + [id]) == CellsOf(to, ids) + {to[id]};
  }

  lemma PlacedAll(start: Layout, before: Occupancy, z: int, to: map<RoomId, Cell>, ids: seq<RoomId>, r: Layout, occ: Occupancy)
    requires PlacedSoFar(start, before, z, to, ids, r, occ) && forall id :: id in ids <==> id in to
    ensures r == Applied(start, z, to) && occ == before[z := before[z] + Cells(to)]
  {
    assert r.at == Applied(start, z, to).at;
    AllCellsOf(to, ids);
    SameOccupancy(before, occ, z, before[z] + Cells(to));
  }

  class Board {
    const zone: Zone
    const R: nat  // the search radius of the placement searches
    var result: Layout
    var floors: seq<int>  // the floors in the order their occupied sets were made
    var occupied: Occupancy

    constructor (zone: Zone, R: nat)
      ensures this.zone == zone && this.R == R
      ensures result == EmptyLayout && floors == [] && occupied == map[]
    {
      this.zone := zone;
      this.R := R;
      result := EmptyLayout;
      floors := [];
      occupied := map[];
    }

    ghost predicate Ready()
      reads this
    {
      ReadyState(zone, result, floors, occupied)
    }

    /** The occupied set of a floor, made when first asked for. */
    method OpenFloor(z: int)
      requires forall y :: y in floors <==> y in occupied
      modifies this`floors, this`occupied
      ensures forall y :: y in floors <==> y in occupied
      ensures z in occupied && occupied == if z in old(occupied) then old(occupied) else old(occupied)[z := {}]
    {
      if z !in occupied {
        occupied := occupied[z := {}];
        floors := floors + [z];
      }
    }

    /** Put a new room on a cell. */
    method Place(id: RoomId, c: Cell, z: int)
      requires z in occupied
      modifies this`result, this`occupied
      ensures result == old(result).Put(id, At(c, z))
      ensures occupied == old(occupied)[z := old(occupied)[z] + {c}]
    {
      result := result.Put(id, At(c, z));
      occupied := occupied[z := occupied[z] + {c}];
    }

    method MoveRoom(id: RoomId, c: Cell, z: int)
      requires Ready() && result.On(id, z)
      modifies this`result, this`occupied
      ensures Ready()
      ensures result == Moved(old(result), id, c, z)
      ensures occupied == Vacated(old(occupied), z, {old(result).at[id].AtCell()}, {c})
    {
      var cells := occupied[z] - {result.at[id].AtCell()};
      occupied := occupied[z := cells + {c}];
      result := result.Put(id, At(c, z));
    }

    /** Exchange two rooms; the occupied cells stay as they are. */
    method SwapRooms(a: RoomId, b: RoomId, ghost z: int)
      requires Ready() && result.On(a, z) && result.On(b, z) && a != b
      modifies this`result
      ensures Ready() && result == Swapped(old(result), a, b)
    {
      var posA, posB := result.at[a], result.at[b];
      result := result.Put(a, posB);
      result := result.Put(b, posA);
    }

    method VacateAll(z: int, ids: seq<RoomId>, ghost to: map<RoomId, Cell>)
      requires z in occupied && forall id :: id in ids <==> id in to
      requires forall id :: id in to ==> id in result.at
      modifies this`occupied
      ensures occupied == old(occupied)[z := old(occupied)[z] - Cells(Home(result, to))]
    {
      ghost var before := occupied;
      ghost var home := Home(result, to);
      assert CellsOf(home, ids[..0]) == {};
      hide CellsOf, Cells;
      for i := 0 to |ids|
        invariant occupied.Keys == before.Keys && occupied[z] == before[z] - CellsOf(home, ids[..i])
        invariant forall y :: y in before && y != z ==> occupied[y] == before[y]
      {
        assert ids[i] in ids;
        CellsOfStep(home, ids, i);
        occupied := occupied[z := occupied[z] - {result.at[ids[i]].AtCell()}];
      }
      TakeAll(ids);
      AllCellsOf(home, ids);
      SameOccupancy(before, occupied, z, before[z] - Cells(home));
    }

    method PlaceAll(z: int, ids: seq<RoomId>, to: map<RoomId, Cell>)
      requires result.Valid() && z in occupied && forall id :: id in ids <==> id in to
      requires forall id :: id in to ==> id in result.at
      modifies this`occupied, this`result
      ensures occupied == old(occupied)[z := old(occupied)[z] + Cells(to)]
      ensures result == Applied(old(result), z, to)
    {
      hide PlacedSoFar, CellsOf, Cells, Applied;
      ghost var start, before := result, occupied;
      PlacedNone(start, before, z, to);
      for i := 0 to |ids|
        invariant PlacedSoFar(start, before, z, to, ids[..i], result, occupied)
        invariant z in occupied
      {
        assert ids[i] in ids;
        TakeStep(ids, i);
        PlacedStep(start, before, z, to, ids[..i], ids[i], result, occupied);
        occupied := occupied[z := occupied[z] + {to[ids[i]]}];
        result := result.Put(ids[i], At(to[ids[i]], z));
      }
      TakeAll(ids);
      PlacedAll(start, before, z, to, ids, result, occupied);
    }

    /** Take several rooms off their cells, then put each on its new one. */
    method Relocate(z: int, ids: seq<RoomId>, to: map<RoomId, Cell>)
      requires Ready() && z in occupied && OnFloor(result, z, to)
      requires forall id :: id in ids <==> id in to
      modifies this`result, this`occupied
      ensures Ready()
      ensures result == Applied(old(result), z, to)
      ensures occupied == Vacated(old(occupied), z, Cells(Home(old(result), to)), Cells(to))
    {
      VacateAll(z, ids, to);
      PlaceAll(z, ids, to);
    }

    /** Apply a move of several rooms; keep it only if it brings the score below the bound. */
    method TryRelocate(z: int, ids: seq<RoomId>, to: map<RoomId, Cell>, fn: ScoreFn, bound: int) returns (accepted: bool)
      requires Ready() && z in occupied && OnFloor(result, z, to)
      requires forall id :: id in ids <==> id in to
      requires Agrees(result, occupied) ==> Fits(result, occupied[z], to)
      modifies this`result, this`occupied
      ensures Ready() && FloorStep(z, old(result), old(occupied), result, occupied)
      ensures accepted <==> Score(zone, Applied(old(result), z, to), z, fn) < bound
      ensures result == if accepted then Applied(old(result), z, to) else old(result)
    {
      hide Agrees, Fits, Score, SameFloors;
      var home := Home(result, to);
      ghost var r, occ := result, occupied;
      AppliedStep(r, occ, z, to);
      Relocate(z, ids, to);
      if Score(zone, result, z, fn) < bound {
        return true;
      }
      AppliedBack(r, occ, z, to);
      Relocate(z, ids, home);
      FloorStepRefl(z, r, occ);
      UndoneStep(z, r, occ, result, occupied);
      accepted := false;
    }

    /** As TryRelocate, for one room and a free cell. */
    method TryMove(z: int, id: RoomId, c: Cell, fn: ScoreFn, bound: int) returns (accepted: bool)
      requires Ready() && z in occupied && result.On(id, z) && c !in occupied[z]
      modifies this`result, this`occupied
      ensures Ready() && FloorStep(z, old(result), old(occupied), result, occupied)
      ensures accepted <==> Score(zone, Moved(old(result), id, c, z), z, fn) < bound
      ensures result == if accepted then Moved(old(result), id, c, z) else old(result)
    {
      hide Agrees, Fits, Score, SameFloors;
      var home := result.at[id].AtCell();
      ghost var r, occ := result, occupied;
      MovedStep(r, occ, z, id, c);
      MoveRoom(id, c, z);
      if Score(zone, result, z, fn) < bound {
        return true;
      }
      MovedBack(r, occ, z, id, c);
      MoveRoom(id, home, z);
      UndoneStep(z, r, occ, result, occupied);
      accepted := false;
    }

    /** As TryRelocate, for exchanging two rooms. */
    method TrySwap(z: int, a: RoomId, b: RoomId, fn: ScoreFn, bound: int) returns (accepted: bool)
      requires Ready() && z in occupied && result.On(a, z) && result.On(b, z) && a != b
      modifies this`result
      ensures Ready() && FloorStep(z, old(result), occupied, result, occupied)
      ensures accepted <==> Score(zone, Swapped(old(result), a, b), z, fn) < bound
      ensures result == if accepted then Swapped(old(result), a, b) else old(result)
    {
      hide Agrees, Score, SameFloors;
      SwappedAgrees(result, occupied, z, a, b);
      SwapRooms(a, b, z);
      if Score(zone, result, z, fn) < bound {
        return true;
      }
      SwapRooms(a, b, z);
      FloorStepRefl(z, result, occupied);
      accepted := false;
    }
  }

  lemma AppliedStep(r: Layout, occ: Occupancy, z: int, to: map<RoomId, Cell>)
    requires r.Valid() && z in occ && OnFloor(r, z, to)
    requires Agrees(r, occ) ==> Fits(r, occ[z], to)
    ensures FloorStep(z, r, occ, Applied(r, z, to), Vacated(occ, z, Cells(Home(r, to)), Cells(to)))
  {
    hide Agrees;
    if Agrees(r, occ) { AppliedAgrees(r, occ, z, to); }
  }

  /** An undone trial: the layout is back, and the cells are if they agreed with it. */
  lemma UndoneStep(z: int, r: Layout, occ: Occupancy, r': Layout, occ': Occupancy)
    requires r' == r && occ'.Keys == occ.Keys
    requires forall y :: y in occ && y != z ==> occ'[y] == occ[y]
    requires Agrees(r, occ) ==> occ' == occ
    ensures FloorStep(z, r, occ, r', occ')
  {
    hide Agrees;
  }

  lemma MovedIsApplied(r: Layout, z: int, id: RoomId, c: Cell)
    requires r.Valid() && r.On(id, z)
    ensures Moved(r, id, c, z) == Applied(r, z, map[id := c])
    ensures Cells(Home(r, map[id := c])) == {r.at[id].AtCell()} && Cells(map[id := c]) == {c}
  {
    assert Moved(r, id, c, z).at == Applied(r, z, map[id := c]).at;
    assert Home(r, map[id := c])[id] == r.at[id].AtCell() && map[id := c][id] == c;
    assert r.at[id].AtCell() in Cells(Home(r, map[id := c])) && c in Cells(map[id := c]);
  }

  lemma MovedStep(r: Layout, occ: Occupancy, z: int, id: RoomId, c: Cell)
    requires r.Valid() && z in occ && r.On(id, z) && c !in occ[z]
    ensures FloorStep(z, r, occ, Moved(r, id, c, z), Vacated(occ, z, {r.at[id].AtCell()}, {c}))
  {
    hide Agrees;
    MovedIsApplied(r, z, id, c);
    AppliedStep(r, occ, z, map[id := c]);
  }

  lemma MovedBack(r: Layout, occ: Occupancy, z: int, id: RoomId, c: Cell)
    requires r.Valid() && z in occ && r.On(id, z) && c !in occ[z]
    ensures var r' := Moved(r, id, c, z); var home := r.at[id].AtCell();
            && Moved(r', id, home, z) == r
            && (Agrees(r, occ) ==> Vacated(Vacated(occ, z, {home}, {c}), z, {c}, {home}) == occ)
  {
    var r', home := Moved(r, id, c, z), r.at[id].AtCell();
    assert Moved(r', id, home, z).at == r.at;
    if Agrees(r, occ) {
      assert r.at[id] == At(home, z);
      assert Taken(r, z, home);
      assert ((occ[z] - {home}) + {c}) - {c} + {home} == occ[z];
    }
  }
}
