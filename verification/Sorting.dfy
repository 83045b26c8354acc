/**
 The library's stable sort (`sort_by`, `sort_by_key`), as the one function that permutes,
 orders and keeps equal elements in their input order.
 */
module Sorting {
  import opened Base

  ghost predicate TotalPreorder<T(!new)>(le: (T, T) -> bool) {
    && (forall x, y :: le(x, y) || le(y, x))
    && (forall x, y, z :: le(x, y) && le(y, z) ==> le(x, z))
  }

  ghost predicate SortedBy<T>(xs: seq<T>, le: (T, T) -> bool) {
    forall i, j | 0 <= i < j < |xs| :: le(xs[i], xs[j])
  }

  predicate Equivalent<T>(le: (T, T) -> bool, x: T, y: T) {
    le(x, y) && le(y, x)
  }

  /** The elements of xs that tie with x, in order. */
  ghost function Ties<T>(xs: seq<T>, le: (T, T) -> bool, x: T): seq<T> {
    Filter(xs, y => Equivalent(le, x, y))
  }

  function Insert<T>(x: T, xs: seq<T>, le: (T, T) -> bool): seq<T> {
    if xs == [] || le(x, xs[0]) then [x] + xs else [xs[0]] + Insert(x, xs[1..], le)
  }

  function StableSort<T>(xs: seq<T>, le: (T, T) -> bool): seq<T> {
    if xs == [] then [] else Insert(xs[0], StableSort(xs[1..], le), le)
  }

  lemma {:induction false} InsertPermutes<T>(x: T, xs: seq<T>, le: (T, T) -> bool)
    ensures multiset(Insert(x, xs, le)) == multiset(xs) + multiset{x}
  {
    if xs != [] && !le(x, xs[0]) {
      InsertPermutes(x, xs[1..], le);
      assert xs == [xs[0]] + xs[1..];
    }
  }

  lemma {:induction false} InsertSorts<T(!new)>(x: T, xs: seq<T>, le: (T, T) -> bool)
    requires TotalPreorder(le) && SortedBy(xs, le)
    ensures SortedBy(Insert(x, xs, le), le)
  {
    if xs == [] || le(x, xs[0]) {
      assert forall j | 0 <= j < |xs| :: le(x, xs[j]);
    } else {
      SortedTail(xs, le);
      InsertSorts(x, xs[1..], le);
      InsertPermutes(x, xs[1..], le);
      AllAfterFirst(x, xs, Insert(x, xs[1..], le), le);
      SortedCons(xs[0], Insert(x, xs[1..], le), le);
    }
  }

  lemma AllAfterFirst<T(!new)>(x: T, xs: seq<T>, r: seq<T>, le: (T, T) -> bool)
    requires TotalPreorder(le) && SortedBy(xs, le) && xs != [] && !le(x, xs[0])
    requires multiset(r) == multiset(xs[1..]) + multiset{x}
    ensures forall y | y in r :: le(xs[0], y)
  {
    assert xs == [xs[0]] + xs[1..];
    assert le(xs[0], x);
    forall y | y in r ensures le(xs[0], y) {
      assert y in multiset(r);
      if y != x {
        assert y in multiset(xs[1..]);
        assert y in xs[1..];
      }
    }
  }

  lemma SortedCons<T>(x: T, xs: seq<T>, le: (T, T) -> bool)
    requires SortedBy(xs, le) && forall y | y in xs :: le(x, y)
    ensures SortedBy([x] + xs, le)
  {
  }

  lemma {:induction false} InsertKeepsTies<T(!new)>(x: T, xs: seq<T>, le: (T, T) -> bool, z: T)
    requires TotalPreorder(le)
    ensures Ties(Insert(x, xs, le), le, z) == (if Equivalent(le, z, x) then [x] else []) + Ties(xs, le, z)
  {
    if xs == [] || le(x, xs[0]) {
      TiesOfCons(x, xs, le, z);
    } else {
      InsertKeepsTies(x, xs[1..], le, z);
      TiesOfCons(xs[0], Insert(x, xs[1..], le), le, z);
      TiesOfCons(xs[0], xs[1..], le, z);
      assert xs == [xs[0]] + xs[1..];
      assert !(Equivalent(le, z, x) && Equivalent(le, z, xs[0]));
    }
  }

  lemma TiesOfCons<T>(x: T, xs: seq<T>, le: (T, T) -> bool, z: T)
    ensures Ties([x] + xs, le, z) == (if Equivalent(le, z, x) then [x] else []) + Ties(xs, le, z)
  {
    assert ([x] + xs)[1..] == xs;
  }

  /** A permutation, in order, with ties left in input order. */
  lemma {:induction false} StableSortSpec<T(!new)>(xs: seq<T>, le: (T, T) -> bool)
    requires TotalPreorder(le)
    ensures multiset(StableSort(xs, le)) == multiset(xs)
    ensures SortedBy(StableSort(xs, le), le)
    ensures forall z :: Ties(StableSort(xs, le), le, z) == Ties(xs, le, z)
  {
    if xs != [] {
      assert xs == [xs[0]] + xs[1..];
      StableSortSpec(xs[1..], le);
      InsertSorts(xs[0], StableSort(xs[1..], le), le);
      InsertPermutes(xs[0], StableSort(xs[1..], le), le);
      forall z ensures Ties(StableSort(xs, le), le, z) == Ties(xs, le, z) {
        InsertKeepsTies(xs[0], StableSort(xs[1..], le), le, z);
      }
    }
  }

  lemma NonemptyHasTies<T(!new)>(xs: seq<T>, le: (T, T) -> bool)
    requires TotalPreorder(le)
    ensures xs != [] ==> exists z :: Ties(xs, le, z) != []
  {
    if xs != [] {
      assert xs[0] in Ties(xs, le, xs[0]);
    }
  }

  lemma SortedTail<T>(a: seq<T>, le: (T, T) -> bool)
    requires a != [] && SortedBy(a, le)
    ensures SortedBy(a[1..], le)
  {
  }

  /** Order and tie order determine the result: any stable sort computes StableSort. */
  lemma {:induction false} SortedWithSameTiesAreEqual<T(!new)>(a: seq<T>, b: seq<T>, le: (T, T) -> bool)
    requires TotalPreorder(le) && SortedBy(a, le) && SortedBy(b, le)
    requires forall z :: Ties(a, le, z) == Ties(b, le, z)
    ensures a == b
  {
    if a == [] {
      NonemptyHasTies(b, le);
    } else {
      assert a[0] in Ties(b, le, a[0]);
      assert b[0] in Ties(a, le, b[0]);
      assert le(b[0], a[0]) && le(a[0], b[0]);
      assert Ties(a, le, a[0])[0] == a[0] && Ties(b, le, a[0])[0] == b[0];
      forall z ensures Ties(a[1..], le, z) == Ties(b[1..], le, z) {
        var head := if Equivalent(le, z, a[0]) then [a[0]] else [];
        assert Ties(a, le, z) == head + Ties(a[1..], le, z);
        assert Ties(b, le, z) == head + Ties(b[1..], le, z);
        assert Ties(a[1..], le, z) == Ties(a, le, z)[|head|..];
      }
      SortedTail(a, le);
      SortedTail(b, le);
      SortedWithSameTiesAreEqual(a[1..], b[1..], le);
    }
  }

  lemma StableSortIsUnique<T(!new)>(xs: seq<T>, r: seq<T>, le: (T, T) -> bool)
    requires TotalPreorder(le) && SortedBy(r, le)
    requires forall z :: Ties(r, le, z) == Ties(xs, le, z)
    ensures r == StableSort(xs, le)
  {
    StableSortSpec(xs, le);
    SortedWithSameTiesAreEqual(r, StableSort(xs, le), le);
  }

  /** Position a comes before position b in a stable sort of xs. */
  ghost predicate Precedes<T>(xs: seq<T>, le: (T, T) -> bool, a: nat, b: nat)
    requires a < |xs| && b < |xs|
  {
    le(xs[a], xs[b]) && (le(xs[b], xs[a]) ==> a < b)
  }

  /** ys takes its elements from the positions p of xs. */
  ghost predicate TakenFrom<T>(xs: seq<T>, ys: seq<T>, p: seq<nat>) {
    |p| == |ys| && forall i | 0 <= i < |p| :: p[i] < |xs| && ys[i] == xs[p[i]]
  }

  ghost predicate InSortingOrder<T>(xs: seq<T>, le: (T, T) -> bool, p: seq<nat>) {
    && (forall i | 0 <= i < |p| :: p[i] < |xs|)
    && (forall i, j | 0 <= i < j < |p| :: Precedes(xs, le, p[i], p[j]))
  }

  ghost predicate Covers(n: nat, p: seq<nat>) {
    forall k: nat | k < n :: k in p
  }

  /** Where a stable sort takes its elements from: every position once, each before those it precedes. */
  lemma {:induction false} SortingPositions<T(!new)>(xs: seq<T>, le: (T, T) -> bool) returns (p: seq<nat>)
    requires TotalPreorder(le)
    ensures |p| == |xs| && TakenFrom(xs, StableSort(xs, le), p) && InSortingOrder(xs, le, p) && Covers(|xs|, p)
  {
    if xs == [] {
      p := [];
    } else {
      hide *;
      var tail := xs[1..];
      var q := SortingPositions(tail, le);
      var sorted := StableSort(tail, le);
      StableSortSpec(tail, le);
      var k := InsertPosition(xs[0], sorted, le);
      SortStep(xs, le);
      TakenLength(tail, sorted, q);
      p := InsertedPositions(xs, sorted, le, q, k);
    }
  }

  lemma InsertedPositions<T(!new)>(xs: seq<T>, sorted: seq<T>, le: (T, T) -> bool, q: seq<nat>, k: nat) returns (p: seq<nat>)
    requires TotalPreorder(le) && xs != [] && SortedBy(sorted, le) && |q| == |xs| - 1 == |sorted|
    requires TakenFrom(xs[1..], sorted, q) && InSortingOrder(xs[1..], le, q) && Covers(|xs| - 1, q)
    requires k <= |q| && (forall i | 0 <= i < k :: !le(xs[0], sorted[i])) && (k < |q| ==> le(xs[0], sorted[k]))
    ensures |p| == |xs| && TakenFrom(xs, sorted[..k] + [xs[0]] + sorted[k..], p)
    ensures InSortingOrder(xs, le, p) && Covers(|xs|, p)
  {
    hide *;
    var r := seq(|q|, i requires 0 <= i < |q| => q[i] + 1);
    ShiftedPositions(xs, sorted, le, q, r);
    InsertedTaken(xs, sorted, r, k);
    InsertedOrder(xs, sorted, le, r, k);
    InsertedCover(|xs|, r, k);
    p := r[..k] + [0] + r[k..];
  }

  lemma TakenLength<T>(xs: seq<T>, ys: seq<T>, p: seq<nat>)
    requires TakenFrom(xs, ys, p)
    ensures |p| == |ys|
  {
  }

  lemma SortStep<T>(xs: seq<T>, le: (T, T) -> bool)
    requires xs != []
    ensures StableSort(xs, le) == Insert(xs[0], StableSort(xs[1..], le), le)
  {
  }

  lemma {:induction false} InsertPosition<T>(x: T, xs: seq<T>, le: (T, T) -> bool) returns (k: nat)
    ensures k <= |xs| && Insert(x, xs, le) == xs[..k] + [x] + xs[k..]
    ensures (forall i | 0 <= i < k :: !le(x, xs[i])) && (k < |xs| ==> le(x, xs[k]))
  {
    if xs == [] || le(x, xs[0]) {
      k := 0;
    } else {
      k := InsertPosition(x, xs[1..], le);
      k := k + 1;
    }
  }

  /** Positions of the tail are one less than positions of the whole. */
  lemma ShiftedPositions<T>(xs: seq<T>, sorted: seq<T>, le: (T, T) -> bool, q: seq<nat>, r: seq<nat>)
    requires xs != [] && |q| == |xs| - 1 == |r| && forall i | 0 <= i < |q| :: r[i] == q[i] + 1
    requires TakenFrom(xs[1..], sorted, q) && InSortingOrder(xs[1..], le, q) && Covers(|xs| - 1, q)
    ensures TakenFrom(xs, sorted, r) && InSortingOrder(xs, le, r)
    ensures forall k: nat | 0 < k < |xs| :: k in r
  {
    forall i, j | 0 <= i < j < |r| ensures r[i] < |xs| && r[j] < |xs| && Precedes(xs, le, r[i], r[j]) {
      assert Precedes(xs[1..], le, q[i], q[j]);
    }
    forall k: nat | 0 < k < |xs| ensures k in r {
      var m: nat := k - 1;
      assert m in q;
      var i :| 0 <= i < |q| && q[i] == m;
      assert r[i] == k;
    }
  }

  lemma InsertedTaken<T>(xs: seq<T>, sorted: seq<T>, r: seq<nat>, k: nat)
    requires xs != [] && TakenFrom(xs, sorted, r) && k <= |r|
    ensures TakenFrom(xs, sorted[..k] + [xs[0]] + sorted[k..], r[..k] + [0] + r[k..])
  {
  }

  lemma InsertedOrder<T(!new)>(xs: seq<T>, sorted: seq<T>, le: (T, T) -> bool, r: seq<nat>, k: nat)
    requires TotalPreorder(le) && xs != [] && TakenFrom(xs, sorted, r) && InSortingOrder(xs, le, r)
    requires SortedBy(sorted, le) && (forall i | 0 <= i < |r| :: r[i] > 0)
    requires k <= |r| && (forall i | 0 <= i < k :: !le(xs[0], sorted[i])) && (k < |r| ==> le(xs[0], sorted[k]))
    ensures InSortingOrder(xs, le, r[..k] + [0] + r[k..])
  {
    forall i | 0 <= i < k ensures Precedes(xs, le, r[i], 0) {
      assert sorted[i] == xs[r[i]];
    }
    forall j | k <= j < |r| ensures Precedes(xs, le, 0, r[j]) {
      assert sorted[j] == xs[r[j]];
      assert j > k ==> le(sorted[k], sorted[j]);
    }
    hide TotalPreorder, TakenFrom, Precedes;
  }

  lemma InsertedCover(n: nat, r: seq<nat>, k: nat)
    requires k <= |r| && forall m: nat | 0 < m < n :: m in r
    ensures Covers(n, r[..k] + [0] + r[k..])
  {
    var p := r[..k] + [0] + r[k..];
    assert p[k] == 0;
    forall m: nat | 0 < m < n ensures m in p {
      assert m in r;
      var i :| 0 <= i < |r| && r[i] == m;
      assert p[if i < k then i else i + 1] == m;
    }
  }

  /** Sorting what is already in order changes nothing. */
  lemma {:induction false} SortingSortedIsIdentity<T>(xs: seq<T>, le: (T, T) -> bool)
    requires SortedBy(xs, le)
    ensures StableSort(xs, le) == xs
  {
    if xs != [] {
      SortingSortedIsIdentity(xs[1..], le);
      if |xs| > 1 {
        assert le(xs[0], xs[1..][0]);
      }
    }
  }

  /** With an antisymmetric order, permutations of one another sort to the same list. */
  lemma {:induction false} StrictlySortedUnique<T(!new)>(a: seq<T>, b: seq<T>, le: (T, T) -> bool)
    requires TotalPreorder(le) && SortedBy(a, le) && SortedBy(b, le)
    requires forall x, y | x in a && y in a && le(x, y) && le(y, x) :: x == y
    requires multiset(a) == multiset(b)
    ensures a == b
  {
    assert |multiset(a)| == |a| && |multiset(b)| == |b|;
    if a != [] {
      SameLeast(a, b, le);
      var x, a', b' := a[0], a[1..], b[1..];
      assert a == [x] + a' && b == [x] + b';
      MultisetOfTail(a);
      MultisetOfTail(b);
      SortedTail(a, le);
      SortedTail(b, le);
      hide SortedBy, TotalPreorder;
      assert forall y | y in a' :: y in a;
      StrictlySortedUnique(a', b', le);
    }
  }

  lemma MultisetOfTail<T>(xs: seq<T>)
    requires xs != []
    ensures multiset(xs[1..]) == multiset(xs) - multiset{xs[0]}
  {
    assert xs == [xs[0]] + xs[1..];
  }

  lemma SameLeast<T(!new)>(a: seq<T>, b: seq<T>, le: (T, T) -> bool)
    requires TotalPreorder(le) && SortedBy(a, le) && SortedBy(b, le)
    requires forall x, y | x in a && y in a && le(x, y) && le(y, x) :: x == y
    requires multiset(a) == multiset(b) && a != [] && b != []
    ensures a[0] == b[0]
  {
    assert a[0] in multiset(b) && b[0] in multiset(a);
    var i :| 0 <= i < |b| && b[i] == a[0];
    var j :| 0 <= j < |a| && a[j] == b[0];
    assert le(b[0], b[i]) && le(a[0], a[j]);
  }
}
