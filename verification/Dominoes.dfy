/** Domino pushes: moving a room to a cell and whoever is found there one step on. */
module Dominoes {
  import opened Sums
  import opened Zones
  import opened AxisGroups

  function Step(c: Cell, axis: Axis, sign: int): Cell {
    if axis.EastWest? then Cell(c.x, c.y + sign) else Cell(c.x + sign, c.y)
  }

  function Nth(c: Cell, axis: Axis, sign: int, k: nat): Cell {
    if axis.EastWest? then Cell(c.x, c.y + sign * k) else Cell(c.x + sign * k, c.y)
  }

  /** How far along the push direction a cell lies. */
  function Along(axis: Axis, sign: int, c: Cell): int {
    sign * (if axis.EastWest? then c.y else c.x)
  }

  lemma NthNext(c: Cell, axis: Axis, sign: int, k: nat)
    ensures Nth(Step(c, axis, sign), axis, sign, k) == Nth(c, axis, sign, k + 1)
    ensures Nth(c, axis, sign, 0) == c
    ensures k > 0 && (sign == 1 || sign == -1) ==> Nth(c, axis, sign, k) != c
    ensures sign == 1 || sign == -1 ==> Along(axis, sign, Nth(c, axis, sign, k)) == Along(axis, sign, c) + k
  {
    assert sign * (k + 1) == sign * k + sign;
  }

  // ---- One push ----

  /** A floor in between: the rooms, the occupied cells, and the rooms whose old cells are recorded. */
  datatype Half = Half(r: Layout, cells: set<Cell>, met: set<RoomId>)

  /** The first of the listed rooms on the cell, other than rid. */
  function FirstOf(r: Layout, z: int, c: Cell, rid: RoomId, ids: seq<RoomId>): (found: Option<RoomId>)
    ensures found.Some? ==> found.value in ids && found.value in r.at && found.value != rid && r.at[found.value] == At(c, z)
    ensures found.None? ==> forall id :: id in ids && id in r.at && id != rid ==> r.at[id] != At(c, z)
  {
    if ids == [] then None
    else if ids[0] != rid && ids[0] in r.at && r.at[ids[0]] == At(c, z) then Some(ids[0])
    else FirstOf(r, z, c, rid, ids[1..])
  }

  lemma FirstOfStep(r: Layout, z: int, c: Cell, rid: RoomId, ids: seq<RoomId>, i: nat)
    requires i < |ids|
    ensures FirstOf(r, z, c, rid, ids[i..]) ==
            if ids[i] != rid && ids[i] in r.at && r.at[ids[i]] == At(c, z) then Some(ids[i]) else FirstOf(r, z, c, rid, ids[i + 1..])
    ensures FirstOf(r, z, c, rid, []) == None && ids[0..] == ids && ids[|ids|..] == []
  {
    assert ids[i..] == [ids[i]] + ids[i + 1..];
  }

  function FirstAt(r: Layout, z: int, c: Cell, rid: RoomId): Option<RoomId> {
    FirstOf(r, z, c, rid, r.order)
  }

  /** Somebody is in the way: the cell is occupied, and a room is found on it. */
  predicate Blocked(s: Half, z: int, rid: RoomId, c: Cell) {
    c in s.cells && FirstAt(s.r, z, c, rid).Some?
  }

  /** The floor while the room found makes way. */
  function Lifted(s: Half, c: Cell, found: RoomId): Half {
    s.(cells := s.cells - {c}, met := s.met + {found})
  }

  /** chainPush as a function of the floor. */
  function Push(s: Half, z: int, axis: Axis, sign: int, rid: RoomId, c: Cell): (h: Half)
    decreases |s.cells|
  {
    var h := if Blocked(s, z, rid, c) then
               var found := FirstAt(s.r, z, c, rid).value;
               Push(Lifted(s, c, found), z, axis, sign, found, Step(c, axis, sign))
             else s;
    Half(h.r.Put(rid, At(c, z)), h.cells + {c}, h.met)
  }

  /** How many rooms are found in the way, one after the other. */
  function RunLength(s: Half, z: int, axis: Axis, sign: int, rid: RoomId, c: Cell): nat
    decreases |s.cells|
  {
    if !Blocked(s, z, rid, c) then 0
    else var found := FirstAt(s.r, z, c, rid).value; 1 + RunLength(Lifted(s, c, found), z, axis, sign, found, Step(c, axis, sign))
  }

  /** How many of them are off the board, though they stand there in the layout. */
  function Strays(s: Half, z: int, axis: Axis, sign: int, off: set<RoomId>, rid: RoomId, c: Cell): nat
    decreases |s.cells|
  {
    if !Blocked(s, z, rid, c) then 0
    else
      var found := FirstAt(s.r, z, c, rid).value;
      (if found in off then 1 else 0) + Strays(Lifted(s, c, found), z, axis, sign, off + {found}, found, Step(c, axis, sign))
  }

  /** One turn of a push. */
  lemma PushTurn(s: Half, z: int, axis: Axis, sign: int, off: set<RoomId>, rid: RoomId, c: Cell)
    ensures !Blocked(s, z, rid, c) ==>
      && Push(s, z, axis, sign, rid, c) == Half(s.r.Put(rid, At(c, z)), s.cells + {c}, s.met)
      && RunLength(s, z, axis, sign, rid, c) == 0 && Strays(s, z, axis, sign, off, rid, c) == 0
    ensures Blocked(s, z, rid, c) ==>
      var found, c1 := FirstAt(s.r, z, c, rid).value, Step(c, axis, sign);
      var s1 := Lifted(s, c, found); var h := Push(s1, z, axis, sign, found, c1);
      && c in s.cells && found in s.r.at && found in s.r.order && found != rid && s.r.at[found] == At(c, z) && |s1.cells| < |s.cells|
      && Push(s, z, axis, sign, rid, c) == Half(h.r.Put(rid, At(c, z)), h.cells + {c}, h.met)
      && RunLength(s, z, axis, sign, rid, c) == 1 + RunLength(s1, z, axis, sign, found, c1)
      && Strays(s, z, axis, sign, off, rid, c) == (if found in off then 1 else 0) + Strays(s1, z, axis, sign, off + {found}, found, c1)
  {
  }

  /** The cell at the end of the run becomes occupied, and no other. */
  lemma {:induction false} PushCells(s: Half, z: int, axis: Axis, sign: int, rid: RoomId, c: Cell)
    requires sign == 1 || sign == -1
    ensures Push(s, z, axis, sign, rid, c).cells == s.cells + {Nth(c, axis, sign, RunLength(s, z, axis, sign, rid, c))}
    ensures s.met <= Push(s, z, axis, sign, rid, c).met
    decreases |s.cells|
  {
    hide Push, RunLength, Strays, FirstAt;
    PushTurn(s, z, axis, sign, {}, rid, c);
    var n := RunLength(s, z, axis, sign, rid, c);
    NthNext(c, axis, sign, n);
    if Blocked(s, z, rid, c) {
      var found := FirstAt(s.r, z, c, rid).value;
      PushCells(Lifted(s, c, found), z, axis, sign, found, Step(c, axis, sign));
      NthNext(c, axis, sign, n - 1);
    }
  }

  /** No room is lost, and only rooms of the floor move. */
  lemma {:induction false} PushRooms(s: Half, z: int, axis: Axis, sign: int, rid: RoomId, c: Cell)
    requires s.r.On(rid, z)
    ensures var h := Push(s, z, axis, sign, rid, c);
            && h.r.order == s.r.order && h.r.at.Keys == s.r.at.Keys && h.r.at[rid] == At(c, z)
            && forall id, y :: h.r.On(id, y) <==> s.r.On(id, y)
    decreases |s.cells|
  {
    hide Push, RunLength, Strays, FirstAt;
    PushTurn(s, z, axis, sign, {}, rid, c);
    if Blocked(s, z, rid, c) {
      var found := FirstAt(s.r, z, c, rid).value;
      PushRooms(Lifted(s, c, found), z, axis, sign, found, Step(c, axis, sign));
    }
  }

  // ---- With all rooms found on the board ----

  /** Leaving out the rooms in `off`, the floor's rooms are on distinct cells, and those are the
      occupied ones. */
  ghost predicate BoardExact(r: Layout, cells: set<Cell>, z: int, off: set<RoomId>) {
    && (forall a, b :: a in r.at && b in r.at && a != b && a !in off && b !in off && r.at[a].z == z ==> r.at[a] != r.at[b])
    && (forall c :: c in cells <==> exists id :: id in r.at && id !in off && r.at[id] == At(c, z))
  }

  /** The rooms in `off` are off the board, and none of them stands on an occupied cell. */
  ghost predicate Loose(r: Layout, cells: set<Cell>, z: int, off: set<RoomId>) {
    && BoardExact(r, cells, z, off)
    && forall id :: id in r.at && id in off && r.at[id].z == z ==> r.at[id].AtCell() !in cells
  }

  /** Where a room on the board goes when the run of n cells from c is pushed. */
  ghost function Pushed(p: Pos, z: int, c: Cell, axis: Axis, sign: int, n: nat): Pos {
    if exists k :: 0 <= k < n && p == At(Nth(c, axis, sign, k), z) then At(Step(p.AtCell(), axis, sign), z) else p
  }

  /** The contiguous run of n occupied cells from c on has moved one step, and rid is on c; the other
      rooms off the board have stayed. */
  ghost predicate Domino(r: Layout, cells: set<Cell>, z: int, off: set<RoomId>, rid: RoomId, c: Cell, axis: Axis, sign: int, n: nat,
                         r': Layout, cells': set<Cell>) {
    && (forall k :: 0 <= k < n ==> Nth(c, axis, sign, k) in cells) && Nth(c, axis, sign, n) !in cells
    && cells' == cells + {Nth(c, axis, sign, n)}
    && r'.order == r.order && r'.at.Keys == r.at.Keys && rid in r.at && r'.at[rid] == At(c, z)
    && (forall id :: id in r.at && id != rid ==> r'.at[id] == if id in off then r.at[id] else Pushed(r.at[id], z, c, axis, sign, n))
  }

  /** Whoever stands on an occupied cell is found if nobody off the board is found there first. */
  lemma FoundOnBoard(s: Half, z: int, off: set<RoomId>, rid: RoomId, c: Cell)
    requires BoardExact(s.r, s.cells, z, off) && rid in off && s.r.Valid()
    ensures c in s.cells ==> Blocked(s, z, rid, c)
  {
    if c in s.cells {
      var id :| id in s.r.at && id !in off && s.r.at[id] == At(c, z);
      assert id in s.r.order && id != rid;
    }
  }

  /** Taking a room off the board. */
  lemma BoardWithout(r: Layout, cells: set<Cell>, z: int, off: set<RoomId>, c: Cell, id: RoomId)
    requires BoardExact(r, cells, z, off) && id in r.at && id !in off && r.at[id] == At(c, z)
    ensures c in cells && BoardExact(r, cells - {c}, z, off + {id})
  {
    forall d ensures d in cells - {c} <==> exists x :: x in r.at && x !in off + {id} && r.at[x] == At(d, z) {
      if d in cells - {c} {
        var x :| x in r.at && x !in off && r.at[x] == At(d, z);
        assert x !in off + {id};
      }
      if x :| x in r.at && x !in off + {id} && r.at[x] == At(d, z) {
        assert x !in off && d in cells && d != c;
      }
    }
  }

  /** Putting an off-board room on a free cell. */
  lemma BoardPut(r: Layout, cells: set<Cell>, z: int, off: set<RoomId>, rid: RoomId, c: Cell)
    requires BoardExact(r, cells, z, off) && rid in off && rid in r.at && c !in cells
    ensures BoardExact(r.Put(rid, At(c, z)), cells + {c}, z, off - {rid})
  {
    var r' := r.Put(rid, At(c, z));
    forall d ensures d in cells + {c} <==> exists id :: id in r'.at && id !in off - {rid} && r'.at[id] == At(d, z) {
      if d in cells {
        var id :| id in r.at && id !in off && r.at[id] == At(d, z);
        assert r'.at[id] == At(d, z);
      }
      assert r'.at[rid] == At(c, z);
    }
    forall a, b | a in r'.at && b in r'.at && a != b && a !in off - {rid} && b !in off - {rid} && r'.at[a].z == z
      ensures r'.at[a] != r'.at[b]
    {
      if a == rid { StandsElsewhere(r, cells, z, off, b, c); }
      if b == rid { StandsElsewhere(r, cells, z, off, a, c); }
    }
  }

  lemma StandsElsewhere(r: Layout, cells: set<Cell>, z: int, off: set<RoomId>, id: RoomId, c: Cell)
    requires BoardExact(r, cells, z, off) && id in r.at && id !in off && c !in cells
    ensures r.at[id] != At(c, z)
  {
  }

  lemma PushedNext(p: Pos, z: int, c: Cell, axis: Axis, sign: int, n: nat)
    ensures p != At(c, z) ==> Pushed(p, z, c, axis, sign, n + 1) == Pushed(p, z, Step(c, axis, sign), axis, sign, n)
    ensures p == At(c, z) ==> Pushed(p, z, c, axis, sign, n + 1) == At(Step(c, axis, sign), z)
  {
    NthNext(c, axis, sign, 0);
    if p == At(c, z) {
      assert p == At(Nth(c, axis, sign, 0), z);
    } else {
      var c1 := Step(c, axis, sign);
      if k :| 0 <= k < n + 1 && p == At(Nth(c, axis, sign, k), z) {
        NthNext(c, axis, sign, k - 1);
        assert p == At(Nth(c1, axis, sign, k - 1), z);
      }
      if k :| 0 <= k < n && p == At(Nth(c1, axis, sign, k), z) {
        NthNext(c, axis, sign, k);
        assert p == At(Nth(c, axis, sign, k + 1), z);
      }
    }
  }

  /** Prepending the first domino to the run. */
  lemma DominoNext(r: Layout, cells: set<Cell>, z: int, off: set<RoomId>, rid: RoomId, found: RoomId, c: Cell, axis: Axis, sign: int, n: nat,
                   r1: Layout, cells1: set<Cell>)
    requires BoardExact(r, cells, z, off) && rid in off && rid in r.at && found in r.at && found !in off && r.at[found] == At(c, z) && c in cells
    requires Domino(r, cells - {c}, z, off + {found}, found, Step(c, axis, sign), axis, sign, n, r1, cells1) && (sign == 1 || sign == -1)
    ensures Domino(r, cells, z, off, rid, c, axis, sign, n + 1, r1.Put(rid, At(c, z)), cells1 + {c})
    ensures c !in cells1
  {
    var c1, r' := Step(c, axis, sign), r1.Put(rid, At(c, z));
    forall k: nat ensures Nth(c1, axis, sign, k) == Nth(c, axis, sign, k + 1) { NthNext(c, axis, sign, k); }
    NthNext(c, axis, sign, n + 1);
    assert Nth(c, axis, sign, n + 1) == Nth(c1, axis, sign, n);
    forall k | 0 <= k < n + 1 ensures Nth(c, axis, sign, k) in cells {
      if k > 0 { assert Nth(c1, axis, sign, k - 1) in cells - {c}; } else { NthNext(c, axis, sign, 0); }
    }
    assert Nth(c, axis, sign, n + 1) !in cells;
    forall id | id in r.at && id != rid ensures r'.at[id] == if id in off then r.at[id] else Pushed(r.at[id], z, c, axis, sign, n + 1) {
      PushedNext(r.at[id], z, c, axis, sign, n);
    }
  }

  /** When nobody found is off the board, a push moves exactly the contiguous run of rooms from its
      cell one step each, loses no room and keeps the occupied cells exact. */
  lemma {:induction false} PushIsDomino(s: Half, z: int, axis: Axis, sign: int, off: set<RoomId>, rid: RoomId, c: Cell)
    requires (sign == 1 || sign == -1) && s.r.Valid() && s.r.On(rid, z) && rid in off
    requires BoardExact(s.r, s.cells, z, off) && Strays(s, z, axis, sign, off, rid, c) == 0
    ensures var h := Push(s, z, axis, sign, rid, c);
            && Domino(s.r, s.cells, z, off, rid, c, axis, sign, RunLength(s, z, axis, sign, rid, c), h.r, h.cells)
            && BoardExact(h.r, h.cells, z, off - {rid})
    decreases |s.cells|
  {
    hide Push, RunLength, Strays, FirstAt, BoardExact, Domino;
    FoundOnBoard(s, z, off, rid, c);
    PushTurn(s, z, axis, sign, off, rid, c);
    var h := Push(s, z, axis, sign, rid, c);
    if Blocked(s, z, rid, c) {
      var found, c1 := FirstAt(s.r, z, c, rid).value, Step(c, axis, sign);
      var s1 := Lifted(s, c, found);
      BoardWithout(s.r, s.cells, z, off, c, found);
      PushIsDomino(s1, z, axis, sign, off + {found}, found, c1);
      DominoOn(s, z, axis, sign, off, rid, found, c, Push(s1, z, axis, sign, found, c1), RunLength(s1, z, axis, sign, found, c1));
    } else {
      DominoEnd(s.r, s.cells, z, off, rid, c, axis, sign);
      BoardPut(s.r, s.cells, z, off, rid, c);
    }
  }

  lemma DominoOn(s: Half, z: int, axis: Axis, sign: int, off: set<RoomId>, rid: RoomId, found: RoomId, c: Cell, h: Half, n: nat)
    requires (sign == 1 || sign == -1) && rid in s.r.at && rid in off && found in s.r.at && found !in off && s.r.at[found] == At(c, z) && c in s.cells
    requires BoardExact(s.r, s.cells, z, off)
    requires Domino(s.r, s.cells - {c}, z, off + {found}, found, Step(c, axis, sign), axis, sign, n, h.r, h.cells)
    requires BoardExact(h.r, h.cells, z, off + {found} - {found})
    ensures Domino(s.r, s.cells, z, off, rid, c, axis, sign, n + 1, h.r.Put(rid, At(c, z)), h.cells + {c})
    ensures BoardExact(h.r.Put(rid, At(c, z)), h.cells + {c}, z, off - {rid})
  {
    hide BoardExact, Domino;
    assert off + {found} - {found} == off;
    DominoNext(s.r, s.cells, z, off, rid, found, c, axis, sign, n, h.r, h.cells);
    SameKeys(s.r, s.cells - {c}, z, off + {found}, found, Step(c, axis, sign), axis, sign, n, h.r, h.cells);
    BoardPut(h.r, h.cells, z, off, rid, c);
  }

  lemma SameKeys(r: Layout, cells: set<Cell>, z: int, off: set<RoomId>, rid: RoomId, c: Cell, axis: Axis, sign: int, n: nat, r': Layout, cells': set<Cell>)
    requires Domino(r, cells, z, off, rid, c, axis, sign, n, r', cells')
    ensures r'.at.Keys == r.at.Keys
  {
  }

  lemma DominoEnd(r: Layout, cells: set<Cell>, z: int, off: set<RoomId>, rid: RoomId, c: Cell, axis: Axis, sign: int)
    requires rid in r.at && c !in cells
    ensures Domino(r, cells, z, off, rid, c, axis, sign, 0, r.Put(rid, At(c, z)), cells + {c})
  {
    assert Nth(c, axis, sign, 0) == c;
    forall id | id in r.at && id != rid ensures r.Put(rid, At(c, z)).at[id] == Pushed(r.at[id], z, c, axis, sign, 0) { }
  }

  /** With nobody off the board standing on an occupied cell, only rooms on the board are found; so it
      is when the pushed room is the only one off the board. */
  lemma {:induction false} LooseIsClear(s: Half, z: int, axis: Axis, sign: int, off: set<RoomId>, rid: RoomId, c: Cell)
    requires Loose(s.r, s.cells, z, off) && rid in off && s.r.Valid()
    ensures Strays(s, z, axis, sign, off, rid, c) == 0
    decreases |s.cells|
  {
    hide Push, RunLength, Strays, FirstAt;
    PushTurn(s, z, axis, sign, off, rid, c);
    if Blocked(s, z, rid, c) {
      var found := FirstAt(s.r, z, c, rid).value;
      assert found !in off;
      BoardWithout(s.r, s.cells, z, off, c, found);
      LooseIsClear(Lifted(s, c, found), z, axis, sign, off + {found}, found, Step(c, axis, sign));
    }
  }

  // ---- What a push does in any case: two sums ----

  /** The rooms of the floor that are not in `off`. */
  ghost function OnBoard(r: Layout, z: int, off: set<RoomId>): set<RoomId> {
    set id | id in r.at && r.On(id, z) && id !in off
  }

  ghost function RoomAlong(r: Layout, axis: Axis, sign: int): RoomId -> int {
    (id: RoomId) => if id in r.at then Along(axis, sign, r.at[id].AtCell()) else 0
  }

  ghost function CellAlong(axis: Axis, sign: int): Cell -> int {
    (c: Cell) => Along(axis, sign, c)
  }

  /** A push takes the rooms on the board as many steps further as it finds of them in its way. */
  lemma {:induction false} PushSum(s: Half, z: int, axis: Axis, sign: int, off: set<RoomId>, rid: RoomId, c: Cell)
    requires (sign == 1 || sign == -1) && s.r.On(rid, z) && rid in off
    ensures var h := Push(s, z, axis, sign, rid, c);
            SetSum(OnBoard(s.r, z, off), RoomAlong(h.r, axis, sign))
            == SetSum(OnBoard(s.r, z, off), RoomAlong(s.r, axis, sign)) + RunLength(s, z, axis, sign, rid, c) - Strays(s, z, axis, sign, off, rid, c)
    decreases |s.cells|
  {
    var on, h := OnBoard(s.r, z, off), Push(s, z, axis, sign, rid, c);
    hide Push, RunLength, Strays, FirstAt, SetSum;
    PushTurn(s, z, axis, sign, off, rid, c);
    if Blocked(s, z, rid, c) {
      var found, c1 := FirstAt(s.r, z, c, rid).value, Step(c, axis, sign);
      var s1 := Lifted(s, c, found);
      var h1 := Push(s1, z, axis, sign, found, c1);
      PushRooms(s1, z, axis, sign, found, c1);
      PushSum(s1, z, axis, sign, off + {found}, found, c1);
      SetSumEq(on, RoomAlong(h.r, axis, sign), RoomAlong(h1.r, axis, sign));
      if found in off {
        assert off + {found} == off;
      } else {
        assert OnBoard(s.r, z, off + {found}) == on - {found};
        SetSumRemove(on, found, RoomAlong(h1.r, axis, sign));
        SetSumRemove(on, found, RoomAlong(s.r, axis, sign));
        NthNext(c, axis, sign, 1);
        assert c1 == Nth(c, axis, sign, 1);
      }
    } else {
      SetSumEq(on, RoomAlong(h.r, axis, sign), RoomAlong(s.r, axis, sign));
    }
  }

  lemma Someone(r: Layout, cells: set<Cell>, z: int, off: set<RoomId>) returns (c: Cell, id: RoomId)
    requires BoardExact(r, cells, z, off) && cells != {}
    ensures c in cells && id in r.at && id !in off && r.at[id] == At(c, z)
  {
    c :| c in cells;
    id :| id in r.at && id !in off && r.at[id] == At(c, z);
  }

  lemma NobodyOn(r: Layout, z: int, off: set<RoomId>)
    requires BoardExact(r, {}, z, off)
    ensures OnBoard(r, z, off) == {}
  {
    forall id | id in r.at && r.On(id, z) ensures id in off { assert r.at[id] == At(r.at[id].AtCell(), z); }
  }

  /** On an exact board the rooms and the occupied cells are as many, and add up to the same. */
  lemma {:induction false} BoardSums(r: Layout, cells: set<Cell>, z: int, axis: Axis, sign: int, off: set<RoomId>)
    requires BoardExact(r, cells, z, off)
    ensures |OnBoard(r, z, off)| == |cells| && SetSum(OnBoard(r, z, off), RoomAlong(r, axis, sign)) == SetSum(cells, CellAlong(axis, sign))
    decreases |cells|
  {
    var on := OnBoard(r, z, off);
    if cells == {} {
      NobodyOn(r, z, off);
    } else {
      var c, id := Someone(r, cells, z, off);
      hide BoardExact, SetSum;
      BoardWithout(r, cells, z, off, c, id);
      BoardSums(r, cells - {c}, z, axis, sign, off + {id});
      assert OnBoard(r, z, off + {id}) == on - {id};
      SetSumRemove(on, id, RoomAlong(r, axis, sign));
      SetSumRemove(cells, c, CellAlong(axis, sign));
    }
  }

  // ---- A batch of pushes ----

  function Members(ids: seq<RoomId>): set<RoomId> {
    set id | id in ids
  }

  /** The rooms are put back on the board one after the other. */
  function PushAll(s: Half, z: int, axis: Axis, sign: int, sorted: seq<RoomId>, to: map<RoomId, Cell>): Half
    decreases |sorted|
  {
    if sorted == [] then s
    else PushAll(if sorted[0] in to then Push(s, z, axis, sign, sorted[0], to[sorted[0]]) else s, z, axis, sign, sorted[1..], to)
  }

  lemma PushAllStep(s: Half, z: int, axis: Axis, sign: int, sorted: seq<RoomId>, i: nat, to: map<RoomId, Cell>)
    requires i < |sorted| && sorted[i] in to
    ensures PushAll(s, z, axis, sign, sorted[i..], to) == PushAll(Push(s, z, axis, sign, sorted[i], to[sorted[i]]), z, axis, sign, sorted[i + 1..], to)
  {
    hide Push;
    assert sorted[i..][0] == sorted[i] && sorted[i..][1..] == sorted[i + 1..];
  }

  lemma PushAllEnds(s: Half, z: int, axis: Axis, sign: int, sorted: seq<RoomId>, to: map<RoomId, Cell>)
    ensures PushAll(s, z, axis, sign, sorted[0..], to) == PushAll(s, z, axis, sign, sorted, to)
    ensures PushAll(s, z, axis, sign, sorted[|sorted|..], to) == s
  {
    assert sorted[0..] == sorted && sorted[|sorted|..] == [];
  }

  /** How often a room that is yet to be put back is found in the way. */
  function StraysAll(s: Half, z: int, axis: Axis, sign: int, sorted: seq<RoomId>, to: map<RoomId, Cell>): nat
    decreases |sorted|
  {
    if sorted == [] || sorted[0] !in to then 0
    else
      Strays(s, z, axis, sign, Members(sorted), sorted[0], to[sorted[0]])
      + StraysAll(Push(s, z, axis, sign, sorted[0], to[sorted[0]]), z, axis, sign, sorted[1..], to)
  }

  lemma MembersTail(s: seq<RoomId>)
    requires s != [] && NoDup(s)
    ensures s[0] in Members(s) && Members(s) - {s[0]} == Members(s[1..]) && NoDup(s[1..]) && s[0] !in s[1..]
  {
    NoDupTail(s);
    assert s == [s[0]] + s[1..];
    assert forall id :: id in s <==> id == s[0] || id in s[1..];
  }

  /** Without such finds the board is exact again in the end. */
  lemma {:induction false} CleanIsExact(s: Half, z: int, axis: Axis, sign: int, sorted: seq<RoomId>, to: map<RoomId, Cell>)
    requires (sign == 1 || sign == -1) && s.r.Valid() && NoDup(sorted) && forall id :: id in sorted ==> s.r.On(id, z) && id in to
    requires BoardExact(s.r, s.cells, z, Members(sorted)) && StraysAll(s, z, axis, sign, sorted, to) == 0
    ensures var h := PushAll(s, z, axis, sign, sorted, to); BoardExact(h.r, h.cells, z, {})
    decreases |sorted|
  {
    if sorted == [] {
      assert Members(sorted) == {};
    } else {
      hide BoardExact, Domino, Push, Strays;
      MembersTail(sorted);
      PushIsDomino(s, z, axis, sign, Members(sorted), sorted[0], to[sorted[0]]);
      PushRooms(s, z, axis, sign, sorted[0], to[sorted[0]]);
      CleanIsExact(Push(s, z, axis, sign, sorted[0], to[sorted[0]]), z, axis, sign, sorted[1..], to);
    }
  }

  /** How many more rooms are on the board than cells are occupied. */
  ghost function Surplus(s: Half, z: int, off: set<RoomId>): int {
    |OnBoard(s.r, z, off)| - |s.cells|
  }

  /** How much further along the rooms are than the occupied cells, in sum. */
  ghost function Lead(s: Half, z: int, axis: Axis, sign: int, off: set<RoomId>): int {
    SetSum(OnBoard(s.r, z, off), RoomAlong(s.r, axis, sign)) - SetSum(s.cells, CellAlong(axis, sign))
  }

  lemma CellAdded(cells: set<Cell>, c: Cell, axis: Axis, sign: int)
    ensures |cells + {c}| == |cells| + (if c in cells then 0 else 1)
    ensures SetSum(cells + {c}, CellAlong(axis, sign)) == SetSum(cells, CellAlong(axis, sign)) + (if c in cells then 0 else Along(axis, sign, c))
  {
    if c !in cells {
      assert cells + {c} - {c} == cells;
      SetSumRemove(cells + {c}, c, CellAlong(axis, sign));
    } else {
      assert cells + {c} == cells;
    }
  }

  lemma BackOnBoard(r: Layout, r': Layout, z: int, off: set<RoomId>, rid: RoomId)
    requires r'.at.Keys == r.at.Keys && r.On(rid, z) && rid in off && forall id, y :: r'.On(id, y) <==> r.On(id, y)
    ensures OnBoard(r', z, off - {rid}) == OnBoard(r, z, off) + {rid} && rid !in OnBoard(r, z, off)
  {
    forall id ensures id in OnBoard(r', z, off - {rid}) <==> id in OnBoard(r, z, off) + {rid} { assert r'.On(id, z) <==> r.On(id, z); }
  }

  /** Putting one room back never lowers the surplus, and if it keeps it the lead falls by the number
      of rooms found that were off the board. */
  lemma {:induction false} PushBalance(s: Half, z: int, axis: Axis, sign: int, off: set<RoomId>, rid: RoomId, c: Cell)
    requires (sign == 1 || sign == -1) && s.r.On(rid, z) && rid in off
    ensures var h := Push(s, z, axis, sign, rid, c);
            && Surplus(h, z, off - {rid}) >= Surplus(s, z, off)
            && (Surplus(h, z, off - {rid}) == Surplus(s, z, off) ==>
                 Lead(h, z, axis, sign, off - {rid}) == Lead(s, z, axis, sign, off) - Strays(s, z, axis, sign, off, rid, c))
  {
    var h, on := Push(s, z, axis, sign, rid, c), OnBoard(s.r, z, off);
    PushRooms(s, z, axis, sign, rid, c);
    PushCells(s, z, axis, sign, rid, c);
    PushSum(s, z, axis, sign, off, rid, c);
    BackOnBoard(s.r, h.r, z, off, rid);
    hide Push, Strays, RunLength, OnBoard, SetSum, Nth;
    assert on + {rid} - {rid} == on;
    SetSumRemove(on + {rid}, rid, RoomAlong(h.r, axis, sign));
    var n := RunLength(s, z, axis, sign, rid, c);
    NthNext(c, axis, sign, n);
    CellAdded(s.cells, Nth(c, axis, sign, n), axis, sign);
  }

  lemma {:induction false} BatchBalance(s: Half, z: int, axis: Axis, sign: int, sorted: seq<RoomId>, to: map<RoomId, Cell>)
    requires (sign == 1 || sign == -1) && NoDup(sorted) && forall id :: id in sorted ==> s.r.On(id, z) && id in to
    ensures var h := PushAll(s, z, axis, sign, sorted, to);
            && Surplus(h, z, {}) >= Surplus(s, z, Members(sorted))
            && (Surplus(h, z, {}) == Surplus(s, z, Members(sorted)) ==>
                 Lead(h, z, axis, sign, {}) == Lead(s, z, axis, sign, Members(sorted)) - StraysAll(s, z, axis, sign, sorted, to))
    decreases |sorted|
  {
    if sorted == [] {
      assert Members(sorted) == {};
    } else {
      hide Surplus, Lead, Push, Strays;
      MembersTail(sorted);
      PushRooms(s, z, axis, sign, sorted[0], to[sorted[0]]);
      PushBalance(s, z, axis, sign, Members(sorted), sorted[0], to[sorted[0]]);
      BatchBalance(Push(s, z, axis, sign, sorted[0], to[sorted[0]]), z, axis, sign, sorted[1..], to);
    }
  }

  /** The board is exact again in the end exactly when no push finds a room that is yet to be put back. */
  lemma ExactIffClean(s: Half, z: int, axis: Axis, sign: int, sorted: seq<RoomId>, to: map<RoomId, Cell>)
    requires (sign == 1 || sign == -1) && s.r.Valid() && NoDup(sorted) && forall id :: id in sorted ==> s.r.On(id, z) && id in to
    requires BoardExact(s.r, s.cells, z, Members(sorted))
    ensures var h := PushAll(s, z, axis, sign, sorted, to); BoardExact(h.r, h.cells, z, {}) <==> StraysAll(s, z, axis, sign, sorted, to) == 0
  {
    var h := PushAll(s, z, axis, sign, sorted, to);
    if StraysAll(s, z, axis, sign, sorted, to) == 0 {
      CleanIsExact(s, z, axis, sign, sorted, to);
    }
    if BoardExact(h.r, h.cells, z, {}) {
      hide BoardExact, PushAll, StraysAll;
      BoardSums(s.r, s.cells, z, axis, sign, Members(sorted));
      BoardSums(h.r, h.cells, z, axis, sign, {});
      BatchBalance(s, z, axis, sign, sorted, to);
    }
  }

  /** The occupied cells only grow in number, and the record too. */
  lemma {:induction false} PushAllGrows(s: Half, z: int, axis: Axis, sign: int, sorted: seq<RoomId>, to: map<RoomId, Cell>)
    requires sign == 1 || sign == -1
    ensures s.cells <= PushAll(s, z, axis, sign, sorted, to).cells && s.met <= PushAll(s, z, axis, sign, sorted, to).met
    decreases |sorted|
  {
    if sorted != [] {
      hide Push;
      if sorted[0] in to {
        PushCells(s, z, axis, sign, sorted[0], to[sorted[0]]);
        PushAllGrows(Push(s, z, axis, sign, sorted[0], to[sorted[0]]), z, axis, sign, sorted[1..], to);
      } else {
        PushAllGrows(s, z, axis, sign, sorted[1..], to);
      }
    }
  }
}
