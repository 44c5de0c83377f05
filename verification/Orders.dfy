/** The stable sorts of the phases: what comes first, and that ties keep their order. */
module Orders {
  import opened Zones
  import Align
  import opened AxisGroups
  import Crossings
  import Insertions
  import Validator

  ghost predicate Rising<T(!new)>(s: seq<T>, key: T -> int) {
    forall i, j :: 0 <= i < j < |s| ==> key(s[i]) <= key(s[j])
  }

  /** The elements with one key, in their order. */
  function OfKey<T>(s: seq<T>, key: T -> int, k: int): seq<T> {
    if s == [] then [] else (if key(s[0]) == k then [s[0]] else []) + OfKey(s[1..], key, k)
  }

  /** t holds the elements of s by rising key, and those with the same key in the order of s. */
  ghost predicate StablySorted<T(!new)>(s: seq<T>, t: seq<T>, key: T -> int) {
    Rising(t, key) && forall k :: OfKey(t, key, k) == OfKey(s, key, k)
  }

  function Insert<T>(x: T, s: seq<T>, key: T -> int): (t: seq<T>)
    ensures |t| == |s| + 1
  {
    if s == [] || key(x) <= key(s[0]) then [x] + s else [s[0]] + Insert(x, s[1..], key)
  }

  function Sorted<T>(s: seq<T>, key: T -> int): seq<T> {
    if s == [] then [] else Insert(s[0], Sorted(s[1..], key), key)
  }

  lemma RisingCons<T(!new)>(x: T, s: seq<T>, key: T -> int)
    requires Rising(s, key) && (s != [] ==> key(x) <= key(s[0]))
    ensures Rising([x] + s, key)
  {
    var t := [x] + s;
    forall i, j | 0 <= i < j < |t| ensures key(t[i]) <= key(t[j]) {
      assert t[j] == s[j - 1] && key(s[0]) <= key(s[j - 1]);
    }
  }

  lemma OfKeyCons<T(!new)>(x: T, s: seq<T>, key: T -> int, k: int)
    ensures OfKey([x] + s, key, k) == (if key(x) == k then [x] else []) + OfKey(s, key, k)
  {
    assert ([x] + s)[1..] == s;
  }

  lemma RisingTail<T(!new)>(s: seq<T>, key: T -> int)
    requires s != [] && Rising(s, key)
    ensures Rising(s[1..], key)
  {
  }

  lemma {:induction false} InsertStable<T(!new)>(x: T, s: seq<T>, key: T -> int)
    requires Rising(s, key)
    ensures Rising(Insert(x, s, key), key) && Insert(x, s, key)[0] == (if s == [] || key(x) <= key(s[0]) then x else s[0])
    ensures forall k :: OfKey(Insert(x, s, key), key, k) == (if key(x) == k then [x] else []) + OfKey(s, key, k)
  {
    hide Rising, OfKey;
    if s == [] || key(x) <= key(s[0]) {
      RisingCons(x, s, key);
      forall k ensures OfKey([x] + s, key, k) == (if key(x) == k then [x] else []) + OfKey(s, key, k) { OfKeyCons(x, s, key, k); }
    } else {
      var rest := Insert(x, s[1..], key);
      RisingTail(s, key);
      InsertStable(x, s[1..], key);
      FirstIsLeast(s, key);
      RisingCons(s[0], rest, key);
      assert s == [s[0]] + s[1..];
      forall k ensures OfKey([s[0]] + rest, key, k) == (if key(x) == k then [x] else []) + OfKey(s, key, k) {
        OfKeyCons(s[0], rest, key, k);
        OfKeyCons(s[0], s[1..], key, k);
      }
    }
  }

  lemma FirstIsLeast<T(!new)>(s: seq<T>, key: T -> int)
    requires Rising(s, key) && s != []
    ensures s[1..] != [] ==> key(s[0]) <= key(s[1..][0])
  {
  }

  lemma {:induction false} SortedStable<T(!new)>(s: seq<T>, key: T -> int)
    ensures StablySorted(s, Sorted(s, key), key)
  {
    if s != [] {
      SortedStable(s[1..], key);
      InsertStable(s[0], Sorted(s[1..], key), key);
    }
  }

  // ---- Alignment groups, largest first ----

  function LargeOnes(g: Align.Groups, roots: seq<RoomId>): seq<RoomId>
    requires forall k :: k in roots ==> k in g.members
  {
    if roots == [] then [] else (if |g.members[roots[0]]| > 1 then [roots[0]] else []) + LargeOnes(g, roots[1..])
  }

  function Smallness(g: Align.Groups): RoomId -> int {
    (k: RoomId) => if k in g.members then -|g.members[k]| else 0
  }

  lemma {:induction false} InsertBySizeIs(g: Align.Groups, k: RoomId, s: seq<RoomId>)
    requires k in g.members && forall x :: x in s ==> x in g.members
    ensures Align.InsertBySize(g, k, s) == Insert(k, s, Smallness(g))
  {
    if s != [] {
      assert s[0] in s;
      InsertBySizeIs(g, k, s[1..]);
    }
  }

  lemma SortedCons<T(!new)>(x: T, s: seq<T>, key: T -> int)
    ensures Sorted([x] + s, key) == Insert(x, Sorted(s, key), key)
  {
    assert ([x] + s)[1..] == s;
  }

  lemma LargeOnesStep(g: Align.Groups, roots: seq<RoomId>)
    requires roots != [] && forall k :: k in roots ==> k in g.members
    ensures roots[0] in g.members && forall x :: x in roots[1..] ==> x in g.members
    ensures LargeOnes(g, roots) == (if |g.members[roots[0]]| > 1 then [roots[0]] else []) + LargeOnes(g, roots[1..])
  {
  }

  lemma LargestFirstStep(g: Align.Groups, roots: seq<RoomId>)
    requires roots != [] && (forall k :: k in roots ==> k in g.members) && forall x :: x in roots[1..] ==> x in g.members
    ensures var rest := Align.LargestFirst(g, roots[1..]);
            && (forall x :: x in rest ==> x in g.members)
            && Align.LargestFirst(g, roots) == if |g.members[roots[0]]| > 1 then Align.InsertBySize(g, roots[0], rest) else rest
  {
    hide Align.InsertBySize;
  }

  lemma {:induction false} LargestFirstIs(g: Align.Groups, roots: seq<RoomId>)
    requires forall k :: k in roots ==> k in g.members
    ensures Align.LargestFirst(g, roots) == Sorted(LargeOnes(g, roots), Smallness(g))
  {
    if roots != [] {
      hide Align.LargestFirst, LargeOnes, Sorted, Insert, Smallness, Align.InsertBySize;
      LargeOnesStep(g, roots);
      LargestFirstStep(g, roots);
      LargestFirstIs(g, roots[1..]);
      if |g.members[roots[0]]| > 1 {
        InsertBySizeIs(g, roots[0], Align.LargestFirst(g, roots[1..]));
        SortedCons(roots[0], LargeOnes(g, roots[1..]), Smallness(g));
      } else {
        assert [] + LargeOnes(g, roots[1..]) == LargeOnes(g, roots[1..]);
      }
    }
  }

  /** The groups of more than one room take their turns largest first, ties in the order of the map. */
  lemma LargestGroupsFirst(g: Align.Groups, roots: seq<RoomId>)
    requires forall k :: k in roots ==> k in g.members
    ensures StablySorted(LargeOnes(g, roots), Align.LargestFirst(g, roots), Smallness(g))
  {
    LargestFirstIs(g, roots);
    SortedStable(LargeOnes(g, roots), Smallness(g));
  }

  // ---- Rooms of a batch, furthest first ----

  function Nearness(r: Layout, axis: Axis, sign: int): RoomId -> int {
    (id: RoomId) => if id !in r.at then 0 else -sign * (if axis == EastWest then r.at[id].y else r.at[id].x)
  }

  lemma {:induction false} InsertByCoordIs(r: Layout, axis: Axis, sign: int, id: RoomId, s: seq<RoomId>)
    requires (sign == 1 || sign == -1) && id in r.at && forall x :: x in s ==> x in r.at
    ensures Align.InsertByCoord(r, axis, sign, id, s) == Insert(id, s, Nearness(r, axis, sign))
  {
    if s != [] {
      assert s[0] in s;
      InsertByCoordIs(r, axis, sign, id, s[1..]);
    }
  }

  lemma {:induction false} SortByCoordIs(r: Layout, axis: Axis, sign: int, s: seq<RoomId>)
    requires (sign == 1 || sign == -1) && forall x :: x in s ==> x in r.at
    ensures Align.SortByCoord(r, axis, sign, s) == Sorted(s, Nearness(r, axis, sign))
  {
    if s != [] {
      SortByCoordIs(r, axis, sign, s[1..]);
      InsertByCoordIs(r, axis, sign, s[0], Align.SortByCoord(r, axis, sign, s[1..]));
    }
  }

  /** A batch comes back furthest in the push direction first: by rows when rows are aligned, by
      columns when columns are. */
  lemma FurthestFirst(r: Layout, axis: Axis, sign: int, s: seq<RoomId>)
    requires (sign == 1 || sign == -1) && forall x :: x in s ==> x in r.at
    ensures StablySorted(s, Align.SortByCoord(r, axis, sign, s), Nearness(r, axis, sign))
  {
    SortByCoordIs(r, axis, sign, s);
    SortedStable(s, Nearness(r, axis, sign));
  }

  // ---- Rooms of a crossing, fewest exits first ----

  function ExitCount(zone: Zone): RoomId -> int {
    (id: RoomId) => |zone.ExitsOf(id)|
  }

  lemma {:induction false} InsertByExitsIs(zone: Zone, id: RoomId, s: seq<RoomId>)
    ensures Crossings.InsertByExits(zone, id, s) == Insert(id, s, ExitCount(zone))
  {
    if s != [] {
      InsertByExitsIs(zone, id, s[1..]);
    }
  }

  lemma {:induction false} FewestExitsFirst(zone: Zone, s: seq<RoomId>)
    ensures StablySorted(s, Crossings.FewestExitsFirst(zone, s), ExitCount(zone))
  {
    FewestExitsFirstIs(zone, s);
    SortedStable(s, ExitCount(zone));
  }

  lemma {:induction false} FewestExitsFirstIs(zone: Zone, s: seq<RoomId>)
    ensures Crossings.FewestExitsFirst(zone, s) == Sorted(s, ExitCount(zone))
  {
    if s != [] {
      FewestExitsFirstIs(zone, s[1..]);
      InsertByExitsIs(zone, s[0], Crossings.FewestExitsFirst(zone, s[1..]));
    }
  }

  // ---- Insertions, shortest jump first ----

  function Jump(): Insertions.Candidate -> int {
    (c: Insertions.Candidate) => c.jump
  }

  lemma {:induction false} InsertByJumpIs(c: Insertions.Candidate, cs: seq<Insertions.Candidate>)
    ensures Insertions.InsertByJump(c, cs) == Insert(c, cs, Jump())
  {
    if cs != [] {
      InsertByJumpIs(c, cs[1..]);
    }
  }

  lemma {:induction false} ShortestFirstIs(cs: seq<Insertions.Candidate>)
    ensures Insertions.ShortestFirst(cs) == Sorted(cs, Jump())
  {
    if cs != [] {
      ShortestFirstIs(cs[1..]);
      InsertByJumpIs(cs[0], Insertions.ShortestFirst(cs[1..]));
    }
  }

  lemma ShortestJumpFirst(cs: seq<Insertions.Candidate>)
    ensures StablySorted(cs, Insertions.ShortestFirst(cs), Jump())
  {
    ShortestFirstIs(cs);
    SortedStable(cs, Jump());
  }

  // ---- Conflicts, largest delta first ----

  function Mildness(): Validator.Conflict -> int {
    (c: Validator.Conflict) => -c.delta
  }

  lemma {:induction false} InsertConflictIs(c: Validator.Conflict, s: seq<Validator.Conflict>)
    ensures Validator.Insert(c, s) == Insert(c, s, Mildness())
  {
    if s != [] {
      InsertConflictIs(c, s[1..]);
    }
  }

  lemma {:induction false} BySeverityIs(s: seq<Validator.Conflict>)
    ensures Validator.BySeverity(s) == Sorted(s, Mildness())
  {
    if s != [] {
      BySeverityIs(s[1..]);
      InsertConflictIs(s[0], Validator.BySeverity(s[1..]));
    }
  }

  /** Conflicts of equal delta stay in the order in which their rooms were first contradicted. */
  lemma SeverityIsStable(s: seq<Validator.Conflict>)
    ensures StablySorted(s, Validator.BySeverity(s), Mildness())
  {
    BySeverityIs(s);
    SortedStable(s, Mildness());
  }
}
