/** Sums of integers over sequences, and sequences that list each element once. */
module Sums {

  ghost predicate NoDup<T>(s: seq<T>) {
    forall i, j :: 0 <= i < j < |s| ==> s[i] != s[j]
  }

  function Abs(n: int): nat {
    if n < 0 then -n else n
  }

  function Sum<T>(s: seq<T>, f: T -> int): int {
    if s == [] then 0 else f(s[0]) + Sum(s[1..], f)
  }

  function Without<T(==, !new)>(s: seq<T>, a: T): (r: seq<T>)
    ensures forall x :: x in r <==> x in s && x != a
    ensures |r| <= |s|
    ensures a in s ==> |r| < |s|
  {
    if s == [] then [] else if s[0] == a then Without(s[1..], a) else [s[0]] + Without(s[1..], a)
  }

  lemma TakeStep<T>(s: seq<T>, i: nat)
    requires i < |s|
    ensures s[..i + 1] == s[..i] + [s[i]]
  {
  }

  lemma TakeAll<T>(s: seq<T>)
    ensures s[..|s|] == s
  {
  }

  lemma DropDrop<T>(s: seq<T>, i: nat, j: nat)
    requires i + j <= |s|
    ensures s[i..][j..] == s[i + j..]
  {
  }

  lemma SliceStep<T>(s: seq<T>, i: nat, j: nat)
    requires i < j <= |s|
    ensures s[i..j] == [s[i]] + s[i + 1..j]
  {
  }

  lemma NotBefore<T(!new)>(s: seq<T>, i: nat)
    requires NoDup(s) && i < |s|
    ensures s[i] !in s[..i]
  {
  }

  lemma NoDupTail<T(!new)>(s: seq<T>)
    requires s != [] && NoDup(s)
    ensures NoDup(s[1..]) && s[0] !in s[1..]
  {
  }

  lemma NoDupConcat<T(!new)>(s: seq<T>, t: seq<T>)
    requires NoDup(s) && NoDup(t) && forall x :: x in t ==> x !in s
    ensures NoDup(s + t)
  {
    forall i, j | 0 <= i < j < |s + t| ensures (s + t)[i] != (s + t)[j] {
      if i < |s| <= j {
        assert t[j - |s|] in t && s[i] in s;
      }
    }
  }

  lemma {:induction false} DistinctWithin<T(!new)>(s: seq<T>, t: seq<T>)
    requires NoDup(s) && forall x :: x in s ==> x in t
    ensures |s| <= |t|
  {
    if s != [] {
      NoDupTail(s);
      assert s[0] in s;
      var i :| 0 <= i < |t| && t[i] == s[0];
      var t' := t[..i] + t[i + 1..];
      forall x | x in s[1..] ensures x in t' {
        assert x in t;
        var j :| 0 <= j < |t| && t[j] == x;
        assert j < i ==> t'[j] == x;
        assert j > i ==> t'[j - 1] == x;
      }
      DistinctWithin(s[1..], t');
    }
  }

  lemma {:induction false} WithoutNoDup<T(!new)>(s: seq<T>, a: T)
    requires NoDup(s)
    ensures NoDup(Without(s, a))
    ensures a in s ==> |Without(s, a)| == |s| - 1
    ensures a !in s ==> Without(s, a) == s
  {
    if s != [] {
      NoDupTail(s);
      WithoutNoDup(s[1..], a);
    }
  }

  lemma {:induction false} SumAppend<T(!new)>(s: seq<T>, t: seq<T>, f: T -> int)
    ensures Sum(s + t, f) == Sum(s, f) + Sum(t, f)
  {
    if s == [] {
      assert s + t == t;
    } else {
      assert (s + t)[1..] == s[1..] + t;
      SumAppend(s[1..], t, f);
    }
  }

  lemma {:induction false} SumEq<T(!new)>(s: seq<T>, f: T -> int, g: T -> int)
    requires forall x :: x in s ==> f(x) == g(x)
    ensures Sum(s, f) == Sum(s, g)
  {
    if s != [] {
      assert s[0] in s;
      SumEq(s[1..], f, g);
    }
  }

  lemma {:induction false} SumLe<T(!new)>(s: seq<T>, f: T -> int, g: T -> int)
    requires forall x :: x in s ==> f(x) <= g(x)
    ensures Sum(s, f) <= Sum(s, g)
  {
    if s != [] {
      assert s[0] in s;
      SumLe(s[1..], f, g);
    }
  }

  lemma {:induction false} SumPlus<T(!new)>(s: seq<T>, f: T -> int, g: T -> int, h: T -> int)
    requires forall x :: x in s ==> h(x) == f(x) + g(x)
    ensures Sum(s, h) == Sum(s, f) + Sum(s, g)
  {
    if s != [] {
      assert s[0] in s;
      SumPlus(s[1..], f, g, h);
    }
  }

  /** A sum of non-negative terms is zero exactly when every term is. */
  lemma {:induction false} SumZero<T(!new)>(s: seq<T>, f: T -> int)
    requires forall x :: x in s ==> f(x) >= 0
    ensures Sum(s, f) >= 0
    ensures Sum(s, f) == 0 <==> forall x :: x in s ==> f(x) == 0
  {
    if s != [] {
      assert s[0] in s;
      forall x | x in s[1..] ensures f(x) >= 0 { assert x in s; }
      SumZero(s[1..], f);
      if f(s[0]) == 0 && forall x :: x in s[1..] ==> f(x) == 0 {
        forall x | x in s ensures f(x) == 0 { assert x == s[0] || x in s[1..]; }
      }
    }
  }

  lemma {:induction false} SumWithout<T(!new)>(s: seq<T>, a: T, f: T -> int)
    requires NoDup(s) && a in s
    ensures Sum(s, f) == f(a) + Sum(Without(s, a), f)
  {
    NoDupTail(s);
    if s[0] == a {
      WithoutNoDup(s[1..], a);
    } else {
      SumWithout(s[1..], a, f);
      assert Without(s, a)[1..] == Without(s[1..], a);
    }
  }

  /** The sum only sees where f is non-zero: order and zero terms do not matter. */
  lemma {:induction false} SumSupport<T(!new)>(s: seq<T>, t: seq<T>, f: T -> int)
    requires NoDup(s) && NoDup(t)
    requires forall x :: x in t && x !in s ==> f(x) == 0
    requires forall x :: x in s && x !in t ==> f(x) == 0
    ensures Sum(s, f) == Sum(t, f)
    decreases |s| + |t|
  {
    if s == [] {
      SumZeros(t, f);
    } else {
      NoDupTail(s);
      var a := s[0];
      WithoutNoDup(t, a);
      if a in t { SumWithout(t, a, f); }
      SumSupport(s[1..], Without(t, a), f);
    }
  }

  lemma {:induction false} SumZeros<T(!new)>(s: seq<T>, f: T -> int)
    requires forall x :: x in s ==> f(x) == 0
    ensures Sum(s, f) == 0
  {
    if s != [] {
      assert s[0] in s;
      SumZeros(s[1..], f);
    }
  }

  /** Two summands that differ at one listed element only. */
  lemma SumPoint<T(!new)>(s: seq<T>, a: T, f: T -> int, g: T -> int)
    requires NoDup(s) && a in s
    requires forall x :: x in s && x != a ==> f(x) == g(x)
    ensures Sum(s, g) == Sum(s, f) - f(a) + g(a)
  {
    SumWithout(s, a, f);
    SumWithout(s, a, g);
    SumEq(Without(s, a), f, g);
  }

  /** Replacing one element. */
  lemma {:induction false} SumUpdate<T(!new)>(s: seq<T>, i: nat, x: T, f: T -> int)
    requires i < |s|
    ensures Sum(s[i := x], f) == Sum(s, f) - f(s[i]) + f(x)
  {
    if i == 0 {
      assert s[i := x][1..] == s[1..];
    } else {
      assert s[i := x][1..] == s[1..][i - 1 := x];
      SumUpdate(s[1..], i - 1, x, f);
    }
  }

  /** Exchanging the summands of two listed elements leaves the sum alone. */
  lemma SumSwap<T(!new)>(s: seq<T>, a: T, b: T, f: T -> int, g: T -> int)
    requires NoDup(s) && a in s && b in s && a != b
    requires forall x :: x in s && x != a && x != b ==> f(x) == g(x)
    requires g(a) == f(b) && g(b) == f(a)
    ensures Sum(s, g) == Sum(s, f)
  {
    var t := Without(s, a);
    WithoutNoDup(s, a);
    SumWithout(s, a, f);
    SumWithout(s, a, g);
    SumWithout(t, b, f);
    SumWithout(t, b, g);
    SumEq(Without(t, b), f, g);
  }

  /** One row, and one column, of a table. */
  function Row<A, B>(f: (A, B) -> int, x: A): B -> int { (y: B) => f(x, y) }
  function Col<A, B>(f: (A, B) -> int, y: B): A -> int { (x: A) => f(x, y) }

  /** Summing a table by rows or by columns gives the same. */
  lemma {:induction false} SumExchange<A(!new), B(!new)>(s: seq<A>, t: seq<B>, f: (A, B) -> int, rows: A -> int, cols: B -> int)
    requires forall x :: x in s ==> rows(x) == Sum(t, Row(f, x))
    requires forall y :: y in t ==> cols(y) == Sum(s, Col(f, y))
    ensures Sum(s, rows) == Sum(t, cols)
  {
    if s == [] {
      SumZeros(t, cols);
    } else {
      assert s[0] in s;
      var tailCols := (y: B) => Sum(s[1..], Col(f, y));
      SumPlus(t, Row(f, s[0]), tailCols, cols);
      forall x | x in s[1..] ensures rows(x) == Sum(t, Row(f, x)) { assert x in s; }
      SumExchange(s[1..], t, f, rows, tailCols);
    }
  }

  // ---- Least closures ----

  /** The list holds the start and everything its members force in. */
  ghost predicate Closed<T(!new)>(forces: (T, T) -> bool, start: T, s: seq<T>) {
    start in s && forall x, y :: x in s && forces(x, y) ==> y in s
  }

  /** Every closed list holds all of it. */
  ghost predicate Least<T(!new)>(forces: (T, T) -> bool, start: T, s: seq<T>) {
    forall t, x :: Closed(forces, start, t) && x in s ==> x in t
  }

  lemma LeastStart<T(!new)>(forces: (T, T) -> bool, start: T)
    ensures Least(forces, start, [start])
  {
  }

  lemma LeastGrows<T(!new)>(forces: (T, T) -> bool, start: T, s: seq<T>, x: T, s': seq<T>)
    requires Least(forces, start, s) && x in s && forall y :: y in s' ==> y in s || forces(x, y)
    ensures Least(forces, start, s')
  {
  }

  /** There is only one least closure; any part of it found so far is no larger. */
  lemma OneClosure<T(!new)>(forces: (T, T) -> bool, start: T, s: seq<T>, t: seq<T>)
    requires NoDup(s) && Least(forces, start, s)
    requires NoDup(t) && Least(forces, start, t) && Closed(forces, start, t)
    ensures |s| <= |t|
    ensures Closed(forces, start, s) ==> |s| == |t| && forall x :: x in s <==> x in t
  {
    hide Closed;
    DistinctWithin(s, t);
    if Closed(forces, start, s) { DistinctWithin(t, s); }
  }

  /** In every closed list, and so in the least one. */
  ghost predicate Reached<T(!new)>(forces: (T, T) -> bool, start: T, x: T) {
    forall t :: Closed(forces, start, t) ==> x in t
  }

  lemma ReachedIsMember<T(!new)>(forces: (T, T) -> bool, start: T, s: seq<T>)
    requires Closed(forces, start, s) && Least(forces, start, s)
    ensures forall x :: x in s <==> Reached(forces, start, x)
  {
    hide Closed;
  }

  lemma ReachedTrans<T(!new)>(forces: (T, T) -> bool, a: T, b: T, x: T)
    requires Reached(forces, a, b) && Reached(forces, b, x)
    ensures Reached(forces, a, x)
  {
    forall t | Closed(forces, a, t) ensures x in t {
      assert b in t;
      assert Closed(forces, b, t);
    }
  }

  // ---- Sums over sets ----

  ghost function SetSum<T(!new)>(s: set<T>, f: T -> int): int {
    if s == {} then 0 else var x :| x in s; f(x) + SetSum(s - {x}, f)
  }

  lemma {:induction false} SetSumRemove<T(!new)>(s: set<T>, a: T, f: T -> int)
    requires a in s
    ensures SetSum(s, f) == f(a) + SetSum(s - {a}, f)
  {
    var x :| x in s && SetSum(s, f) == f(x) + SetSum(s - {x}, f);
    if x != a {
      SetSumRemove(s - {x}, a, f);
      SetSumRemove(s - {a}, x, f);
      assert s - {x} - {a} == s - {a} - {x};
    }
  }

  lemma {:induction false} SetSumEq<T(!new)>(s: set<T>, f: T -> int, g: T -> int)
    requires forall x :: x in s ==> f(x) == g(x)
    ensures SetSum(s, f) == SetSum(s, g)
  {
    if s != {} {
      var x :| x in s;
      SetSumRemove(s, x, f);
      SetSumRemove(s, x, g);
      SetSumEq(s - {x}, f, g);
    }
  }
}
