/** Diamond-ordered candidate cells and the two nearest-free-cell searches. */
module Diamond {
  import opened Sums
  import opened Zones

  function Dist(c: Cell, d: Cell): nat {
    Abs(d.x - c.x) + Abs(d.y - c.y)
  }

  // ---- The candidate order as a sequence ----

  function Column(c: Cell, r: nat, k: int): seq<Cell>
    requires 0 - r <= k <= r
  {
    var rem := r - Abs(k);
    if rem == 0 then [Cell(c.x + k, c.y)] else [Cell(c.x + k, c.y - rem), Cell(c.x + k, c.y + rem)]
  }

  /** Columns -r up to but excluding k of the ring at distance r. */
  function Columns(c: Cell, r: nat, k: int): seq<Cell>
    requires 0 - r <= k <= r + 1
    decreases k + r
  {
    if k == 0 - r then [] else Columns(c, r, k - 1) + Column(c, r, k - 1)
  }

  function Ring(c: Cell, r: nat): seq<Cell> {
    Columns(c, r, r + 1)
  }

  /** Rings lo to hi, nearest first. */
  function Rings(c: Cell, lo: nat, hi: int): seq<Cell>
    decreases hi
  {
    if hi < lo then [] else Rings(c, lo, hi - 1) + Ring(c, hi)
  }

  lemma {:induction false} ColumnsMembers(c: Cell, r: nat, k: int)
    requires 0 - r <= k <= r + 1
    ensures forall d :: d in Columns(c, r, k) <==> Dist(c, d) == r && d.x - c.x < k
    decreases k + r
  {
    if k != 0 - r {
      ColumnsMembers(c, r, k - 1);
      forall d ensures d in Column(c, r, k - 1) <==> Dist(c, d) == r && d.x - c.x == k - 1 {
        if Dist(c, d) == r && d.x - c.x == k - 1 {
          var rem := r - Abs(k - 1);
          assert d.y == c.y - rem || d.y == c.y + rem;
          assert d == Cell(c.x + k - 1, c.y - rem) || d == Cell(c.x + k - 1, c.y + rem);
        }
      }
    }
  }

  lemma {:induction false} ColumnsDistinct(c: Cell, r: nat, k: int)
    requires 0 - r <= k <= r + 1
    ensures NoDup(Columns(c, r, k))
    ensures |Columns(c, r, k)| == if k == 0 - r then 0 else if k == r + 1 && r > 0 then 4 * r else 2 * (k + r) - 1
    decreases k + r
  {
    if k != 0 - r {
      ColumnsDistinct(c, r, k - 1);
      ColumnsMembers(c, r, k - 1);
    }
  }

  /** The ring at distance r holds exactly the cells r steps away, each once. */
  lemma {:induction false} RingMembers(c: Cell, r: nat)
    ensures forall d :: d in Ring(c, r) <==> Dist(c, d) == r
    ensures NoDup(Ring(c, r)) && |Ring(c, r)| == if r == 0 then 1 else 4 * r
  {
    ColumnsMembers(c, r, r + 1);
    ColumnsDistinct(c, r, r + 1);
  }

  lemma {:induction false} RingsMembers(c: Cell, lo: nat, hi: int)
    ensures forall d :: d in Rings(c, lo, hi) <==> lo <= Dist(c, d) <= hi
    ensures NoDup(Rings(c, lo, hi))
    ensures forall i, j :: 0 <= i < j < |Rings(c, lo, hi)| ==> Dist(c, Rings(c, lo, hi)[i]) <= Dist(c, Rings(c, lo, hi)[j])
    decreases hi
  {
    if lo <= hi {
      RingsMembers(c, lo, hi - 1);
      RingMembers(c, hi);
      var inner, ring := Rings(c, lo, hi - 1), Ring(c, hi);
      forall i, j | 0 <= i < j < |inner + ring|
        ensures (inner + ring)[i] != (inner + ring)[j] && Dist(c, (inner + ring)[i]) <= Dist(c, (inner + ring)[j])
      {
        assert i < |inner| ==> inner[i] in inner;
        assert j < |inner| ==> inner[j] in inner;
        assert i >= |inner| ==> ring[i - |inner|] in ring;
        assert j >= |inner| ==> ring[j - |inner|] in ring;
      }
    }
  }

  /** A diamond of radius R around a cell, centre excluded, has 2R(R+1) cells. */
  lemma {:induction false} RingsSize(c: Cell, R: nat)
    ensures |Rings(c, 1, R)| == 2 * R * R + 2 * R
  {
    if R > 0 {
      RingsSize(c, R - 1);
      RingMembers(c, R);
      assert 2 * (R - 1) * (R - 1) + 2 * (R - 1) + 4 * R == 2 * R * R + 2 * R;
    }
  }

  /** The one or two cells of a ring in one column. */
  method AddColumn(start: seq<Cell>, cx: int, cy: int, r: nat, ddx: int) returns (cells: seq<Cell>)
    requires 0 - r <= ddx <= r
    ensures cells == start + Column(Cell(cx, cy), r, ddx)
  {
    cells := start;
    var absRem := r - Abs(ddx);
    var dyOpts := if absRem == 0 then [0] else [0 - absRem, absRem];
    for i := 0 to |dyOpts|
      invariant cells == start + Column(Cell(cx, cy), r, ddx)[..i]
    {
      cells := cells + [Cell(cx + ddx, cy + dyOpts[i])];
    }
  }

  method DiamondCandidates(cx: int, cy: int, minRadius: nat, maxRadius: nat) returns (cells: seq<Cell>)
    ensures cells == Rings(Cell(cx, cy), minRadius, maxRadius)
  {
    ghost var c := Cell(cx, cy);
    cells := [];
    var r := minRadius;
    while r <= maxRadius
      invariant minRadius <= r
      invariant r <= maxRadius + 1 || r == minRadius
      invariant cells == Rings(c, minRadius, r - 1)
    {
      var ddx: int := 0 - r;
      while ddx <= r
        invariant 0 - r <= ddx <= r + 1
        invariant cells == Rings(c, minRadius, r - 1) + Columns(c, r, ddx)
      {
        cells := AddColumn(cells, cx, cy, r, ddx);
        ddx := ddx + 1;
        assert cells == Rings(c, minRadius, r - 1) + (Columns(c, r, ddx - 1) + Column(c, r, ddx - 1));
      }
      r := r + 1;
    }
  }

  // ---- Counting ----

  lemma {:induction false} Pigeonhole<T(!new)>(s: seq<T>, holes: set<T>)
    requires NoDup(s) && forall x :: x in s ==> x in holes
    ensures |s| <= |holes|
  {
    if s != [] {
      NoDupTail(s);
      Pigeonhole(s[1..], holes - {s[0]});
    }
  }

  /** Fewer occupied cells than the diamond has leave a free cell within R. */
  lemma FreeCellExists(c: Cell, occupied: set<Cell>, R: nat)
    requires |occupied| < 2 * R * R + 2 * R + 1
    ensures exists d :: d !in occupied && Dist(c, d) <= R
  {
    var all := [c] + Rings(c, 1, R);
    RingsMembers(c, 1, R);
    RingsSize(c, R);
    assert NoDup(all) by {
      forall i, j | 0 <= i < j < |all| ensures all[i] != all[j] {
        assert all[j] in Rings(c, 1, R);
      }
    }
    if forall d :: d in all ==> d in occupied {
      Pigeonhole(all, occupied);
    }
    var d :| d in all && d !in occupied;
    assert Dist(c, d) <= R;
  }

  // ---- Nearest free cell ----

  /** What the search for a free cell returns: the asked cell if it is free or all are taken within
      the radius, otherwise the first free candidate. */
  ghost predicate Nearest(c: Cell, occupied: set<Cell>, R: nat, r: Cell) {
    || (r == c && (c !in occupied || forall d :: Dist(c, d) <= R ==> d in occupied))
    || (&& c in occupied && r !in occupied
        && exists i :: 0 <= i < |Rings(c, 1, R)| && Rings(c, 1, R)[i] == r && forall j :: 0 <= j < i ==> Rings(c, 1, R)[j] in occupied)
  }

  method FindNearestUnoccupied(c: Cell, occupied: set<Cell>, R: nat) returns (r: Cell)
    // A free start is kept.
    ensures c !in occupied ==> r == c
    // Otherwise the first free candidate, and so a nearest one.
    ensures r !in occupied ==> forall d :: d !in occupied ==> Dist(c, r) <= Dist(c, d)
    ensures r !in occupied && r != c ==>
      exists i :: 0 <= i < |Rings(c, 1, R)| && Rings(c, 1, R)[i] == r && forall j :: 0 <= j < i ==> Rings(c, 1, R)[j] in occupied
    // It fails only when every cell within the radius is taken, and then gives back the start.
    ensures r in occupied <==> forall d :: Dist(c, d) <= R ==> d in occupied
    ensures r in occupied ==> r == c
    ensures |occupied| < 2 * R * R + 2 * R + 1 ==> r !in occupied
    ensures Nearest(c, occupied, R, r)
  {
    if c !in occupied {
      assert Dist(c, c) == 0;
      return c;
    }
    RingsMembers(c, 1, R);
    var cells := Rings(c, 1, R);
    for i := 0 to |cells|
      invariant forall j :: 0 <= j < i ==> cells[j] in occupied
    {
      if cells[i] !in occupied {
        r := cells[i];
        forall d | d !in occupied ensures Dist(c, r) <= Dist(c, d) {
          assert d != c;
          if Dist(c, d) <= R {
            assert d in cells;
            var j :| 0 <= j < |cells| && cells[j] == d;
          }
        }
        assert r in cells;
        return;
      }
    }
    forall d | Dist(c, d) <= R ensures d in occupied {
      if Dist(c, d) == 0 { assert d == c; } else { assert d in cells; }
    }
    if |occupied| < 2 * R * R + 2 * R + 1 {
      FreeCellExists(c, occupied, R);
      assert false;
    }
    r := c;
  }

  // ---- Nearest free cell on the exit's side of its parent ----

  /** The placed room lies strictly on the exit's side of the parent (ideal minus offset). */
  predicate OnSide(ideal: Cell, o: Offset, c: Cell) {
    && (o.dx > 0 ==> c.x > ideal.x - o.dx)
    && (o.dx < 0 ==> c.x < ideal.x - o.dx)
    && (o.dy > 0 ==> c.y > ideal.y - o.dy)
    && (o.dy < 0 ==> c.y < ideal.y - o.dy)
  }

  function Along(ideal: Cell, o: Offset, c: Cell): int {
    (c.x - ideal.x) * o.dx + (c.y - ideal.y) * o.dy
  }

  predicate Eligible(ideal: Cell, o: Offset, occupied: set<Cell>, c: Cell) {
    c !in occupied && OnSide(ideal, o, c)
  }

  /** Among the first n cells, those that are eligible and on the exit lines (or off them):
      `at` is the index of the first one furthest along the exit, or -1 if there is none. */
  ghost predicate BestAt(ideal: Cell, o: Offset, occupied: set<Cell>, line: set<Cell>, onLine: bool,
                         cells: seq<Cell>, n: nat, at: int)
    requires n <= |cells|
  {
    if at < 0 then
      forall j :: 0 <= j < n ==> !(Eligible(ideal, o, occupied, cells[j]) && (cells[j] in line <==> onLine))
    else
      && at < n && Eligible(ideal, o, occupied, cells[at]) && (cells[at] in line <==> onLine)
      && forall j :: 0 <= j < n && Eligible(ideal, o, occupied, cells[j]) && (cells[j] in line <==> onLine) ==>
           if j < at then Along(ideal, o, cells[j]) < Along(ideal, o, cells[at])
           else Along(ideal, o, cells[j]) <= Along(ideal, o, cells[at])
  }

  /** One ring of the directional search: the best cell off the exit lines and the best on them. */
  method BestInRing(ideal: Cell, o: Offset, occupied: set<Cell>, exitLineCells: set<Cell>, radius: nat)
    returns (best: Option<Cell>, bestOnLine: Option<Cell>, ghost at: int, ghost onLineAt: int)
    ensures BestAt(ideal, o, occupied, exitLineCells, false, Ring(ideal, radius), |Ring(ideal, radius)|, at)
    ensures BestAt(ideal, o, occupied, exitLineCells, true, Ring(ideal, radius), |Ring(ideal, radius)|, onLineAt)
    ensures best == if at < 0 then None else Some(Ring(ideal, radius)[at])
    ensures bestOnLine == if onLineAt < 0 then None else Some(Ring(ideal, radius)[onLineAt])
  {
    best, bestOnLine := None, None;
    at, onLineAt := -1, -1;
    var bestScore, bestOnLineScore := 0, 0;
    var ring := Ring(ideal, radius);
    for i := 0 to |ring|
      invariant BestAt(ideal, o, occupied, exitLineCells, false, ring, i, at)
      invariant BestAt(ideal, o, occupied, exitLineCells, true, ring, i, onLineAt)
      invariant best == if at < 0 then None else Some(ring[at])
      invariant bestOnLine == if onLineAt < 0 then None else Some(ring[onLineAt])
      invariant best.Some? ==> bestScore == Along(ideal, o, best.value)
      invariant bestOnLine.Some? ==> bestOnLineScore == Along(ideal, o, bestOnLine.value)
    {
      var c := ring[i];
      if c in occupied { continue; }
      if !OnSide(ideal, o, c) { continue; }
      var score := Along(ideal, o, c);
      if c in exitLineCells {
        if bestOnLine.None? || score > bestOnLineScore {
          bestOnLineScore := score;
          bestOnLine := Some(c);
          onLineAt := i;
        }
      } else {
        if best.None? || score > bestScore {
          bestScore := score;
          best := Some(c);
          at := i;
        }
      }
    }
  }

  /** r is what one ring of the search gives: the best cell off the lines, or failing any
      such cell the best cell on them. */
  ghost predicate RingChoice(ideal: Cell, o: Offset, occupied: set<Cell>, line: set<Cell>, ring: seq<Cell>, r: Cell) {
    exists at, onLineAt ::
      && BestAt(ideal, o, occupied, line, false, ring, |ring|, at)
      && BestAt(ideal, o, occupied, line, true, ring, |ring|, onLineAt)
      && (if at >= 0 then r == ring[at] else onLineAt >= 0 && r == ring[onLineAt])
  }

  /** What the directional search returns. */
  ghost predicate Directed(ideal: Cell, o: Offset, occupied: set<Cell>, line: set<Cell>, R: nat, r: Cell) {
    && (r != ideal ==> Eligible(ideal, o, occupied, r) && RingChoice(ideal, o, occupied, line, Ring(ideal, Dist(ideal, r)), r))
    && (r != ideal ==> !(ideal !in occupied && ideal !in line))
    && (r != ideal ==> forall c :: Eligible(ideal, o, occupied, c) && 1 <= Dist(ideal, c) ==> Dist(ideal, r) <= Dist(ideal, c))
    && (r == ideal ==> (ideal !in occupied && ideal !in line) || forall c :: 1 <= Dist(ideal, c) <= R ==> !Eligible(ideal, o, occupied, c))
  }

  method FindNearestDirectional(ideal: Cell, o: Offset, occupied: set<Cell>, exitLineCells: set<Cell>, R: nat)
    returns (r: Cell)
    // The ideal if it is free and off the exit lines. Otherwise a least distance at which an
    // eligible cell exists, where cells off the exit lines win, and then the first one furthest
    // along the exit; the ideal again only if nothing else is eligible.
    ensures Directed(ideal, o, occupied, exitLineCells, R, r)
  {
    if ideal !in occupied {
      if ideal !in exitLineCells {
        return ideal;
      }
    }
    var radius := 1;
    while radius <= R
      invariant radius >= 1
      invariant forall c :: 1 <= Dist(ideal, c) < radius ==> !Eligible(ideal, o, occupied, c)
    {
      var best, bestOnLine, at, onLineAt := BestInRing(ideal, o, occupied, exitLineCells, radius);
      RingMembers(ideal, radius);
      if best.Some? { return best.value; }
      if bestOnLine.Some? { return bestOnLine.value; }
      radius := radius + 1;
    }
    r := ideal;
  }

  /** A cell `a` steps along the exit direction from the ideal and `b` steps across it. */
  function SideCell(ideal: Cell, d: Dir, a: int, b: int): Cell {
    match d
    case East => Cell(ideal.x + a, ideal.y + b)
    case West => Cell(ideal.x - a, ideal.y + b)
    case South => Cell(ideal.x + b, ideal.y + a)
    case _ => Cell(ideal.x + b, ideal.y - a)
  }

  function SideRow(ideal: Cell, d: Dir, a: int, lo: int, n: nat): seq<Cell> {
    if n == 0 then [] else SideRow(ideal, d, a, lo, n - 1) + [SideCell(ideal, d, a, lo + n - 1)]
  }

  /** Rows 0 to k-1 of the half diamond of radius R on the exit's side. */
  function SideRows(ideal: Cell, d: Dir, R: nat, k: nat): seq<Cell>
    requires k <= R + 1
  {
    if k == 0 then [] else SideRows(ideal, d, R, k - 1) + SideRow(ideal, d, k - 1, -(R - k + 1), 2 * (R - k + 1) + 1)
  }

  /** How far along the exit direction a side cell lies. */
  function Depth(ideal: Cell, d: Dir, c: Cell): int {
    match d
    case East => c.x - ideal.x
    case West => ideal.x - c.x
    case South => c.y - ideal.y
    case _ => ideal.y - c.y
  }

  lemma {:induction false} SideRowCells(ideal: Cell, d: Dir, a: int, lo: int, n: nat)
    ensures |SideRow(ideal, d, a, lo, n)| == n
    ensures forall i :: 0 <= i < n ==> SideRow(ideal, d, a, lo, n)[i] == SideCell(ideal, d, a, lo + i)
  {
    if n != 0 {
      SideRowCells(ideal, d, a, lo, n - 1);
    }
  }

  lemma {:induction false} SideRowIs(ideal: Cell, d: Dir, R: nat, a: nat, lo: int, n: nat)
    requires a <= R && lo == -(R - a) && n == 2 * (R - a) + 1
    ensures var row := SideRow(ideal, d, a, lo, n); |row| == n && NoDup(row) && forall c :: c in row ==> Depth(ideal, d, c) == a && Dist(ideal, c) <= R
  {
    SideRowCells(ideal, d, a, lo, n);
    var row := SideRow(ideal, d, a, lo, n);
    forall i, j | 0 <= i < j < n ensures row[i] != row[j] { assert row[i] == SideCell(ideal, d, a, lo + i) && row[j] == SideCell(ideal, d, a, lo + j); }
  }

  lemma {:induction false} SideRowsCells(ideal: Cell, d: Dir, R: nat, k: nat)
    requires k <= R + 1
    ensures |SideRows(ideal, d, R, k)| == k * (2 * R + 2 - k)
    ensures NoDup(SideRows(ideal, d, R, k))
    ensures forall c :: c in SideRows(ideal, d, R, k) ==> 0 <= Depth(ideal, d, c) < k && Dist(ideal, c) <= R
  {
    if k != 0 {
      var lo, n := -(R - k + 1), 2 * (R - k + 1) + 1;
      SideRowsCells(ideal, d, R, k - 1);
      SideRowIs(ideal, d, R, k - 1, lo, n);
      assert (k - 1) * (2 * R + 3 - k) + 2 * (R - k + 1) + 1 == k * (2 * R + 2 - k);
      NoDupConcat(SideRows(ideal, d, R, k - 1), SideRow(ideal, d, k - 1, lo, n));
    }
  }

  /** Fewer than (R+1)^2 occupied cells leave a free cell on the exit's side within R. */
  lemma FreeSideCellExists(ideal: Cell, d: Dir, occupied: set<Cell>, R: nat)
    requires Cardinal(d) && |occupied| < (R + 1) * (R + 1)
    ensures exists c :: Eligible(ideal, Off(d), occupied, c) && Dist(ideal, c) <= R
  {
    var all := SideRows(ideal, d, R, R + 1);
    SideRowsCells(ideal, d, R, R + 1);
    if forall c :: c in all ==> c in occupied {
      Pigeonhole(all, occupied);
    }
    var c :| c in all && c !in occupied;
    assert OnSide(ideal, Off(d), c) && Dist(ideal, c) <= R;
  }

  /** What the directional search returns below the bound: a free cell strictly on the exit's side. */
  lemma DirectionalSearchSucceeds(ideal: Cell, d: Dir, occupied: set<Cell>, line: set<Cell>, R: nat, r: Cell)
    requires Cardinal(d) && |occupied| < (R + 1) * (R + 1)
    requires Directed(ideal, Off(d), occupied, line, R, r)
    ensures Eligible(ideal, Off(d), occupied, r)
  {
    FreeSideCellExists(ideal, d, occupied, R);
    if r == ideal && (ideal in occupied || ideal in line) {
      var c :| Eligible(ideal, Off(d), occupied, c) && Dist(ideal, c) <= R;
      assert Dist(ideal, c) == 0 && c == ideal;
    }
  }
}
