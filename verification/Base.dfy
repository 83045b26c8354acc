/** Vocabulary shared by every module of the model. */
module Base {
  datatype Option<+T> = None | Some(value: T)

  datatype Result<+T, +E> = Ok(value: T) | Err(error: E)

  function Min(a: int, b: int): int {
    if a <= b then a else b
  }

  function Take<T>(xs: seq<T>, n: nat): (r: seq<T>)
    ensures |r| == Min(n, |xs|) && (|xs| <= n ==> r == xs)
  {
    xs[..Min(n, |xs|)]
  }

  /** Elements of xs that satisfy p, in order. */
  function Filter<T>(xs: seq<T>, p: T -> bool): (r: seq<T>)
    ensures forall x | x in r :: x in xs && p(x)
    ensures forall x | x in xs && p(x) :: x in r
  {
    if xs == [] then [] else (if p(xs[0]) then [xs[0]] else []) + Filter(xs[1..], p)
  }

  lemma {:induction false} FilterConcat<T>(a: seq<T>, b: seq<T>, p: T -> bool)
    ensures Filter(a + b, p) == Filter(a, p) + Filter(b, p)
  {
    if a == [] {
      assert a + b == b;
    } else {
      assert (a + b)[1..] == a[1..] + b;
      FilterConcat(a[1..], b, p);
    }
  }

  /** Index of the first element that satisfies p. */
  function FindFirst<T>(xs: seq<T>, p: T -> bool): (r: Option<nat>)
    ensures r.Some? ==> r.value < |xs| && p(xs[r.value])
    ensures r.Some? ==> forall i | 0 <= i < r.value :: !p(xs[i])
    ensures r.None? ==> forall i | 0 <= i < |xs| :: !p(xs[i])
  {
    if xs == [] then None
    else if p(xs[0]) then Some(0)
    else match FindFirst(xs[1..], p)
      case None => None
      case Some(i) => Some(i + 1)
  }

  lemma FindFirstIs<T>(xs: seq<T>, p: T -> bool, i: nat)
    requires i < |xs| && p(xs[i]) && forall j | 0 <= j < i :: !p(xs[j])
    ensures FindFirst(xs, p) == Some(i)
  {
  }

  /** How many elements of xs satisfy p. */
  ghost function Count<T>(xs: seq<T>, p: T -> bool): nat {
    |Filter(xs, p)|
  }

  lemma CountAppend<T>(xs: seq<T>, x: T, p: T -> bool)
    ensures Count(xs + [x], p) == Count(xs, p) + (if p(x) then 1 else 0)
  {
    FilterConcat(xs, [x], p);
  }

  /** Replacing one element changes a count by the difference at that element. */
  lemma CountUpdate<T>(xs: seq<T>, i: nat, x: T, p: T -> bool)
    requires i < |xs|
    ensures Count(xs[i := x], p) + (if p(xs[i]) then 1 else 0) == Count(xs, p) + (if p(x) then 1 else 0)
  {
    assert xs == (xs[..i] + [xs[i]]) + xs[i + 1..];
    assert xs[i := x] == (xs[..i] + [x]) + xs[i + 1..];
    FilterConcat(xs[..i] + [xs[i]], xs[i + 1..], p);
    FilterConcat(xs[..i] + [x], xs[i + 1..], p);
    CountAppend(xs[..i], xs[i], p);
    CountAppend(xs[..i], x, p);
  }

  /** Pointwise-equal predicates count alike. */
  lemma {:induction false} CountPointwise<T, U>(xs: seq<T>, ys: seq<U>, p: T -> bool, q: U -> bool)
    requires |xs| == |ys|
    requires forall i | 0 <= i < |xs| :: p(xs[i]) == q(ys[i])
    ensures Count(xs, p) == Count(ys, q)
  {
    if xs != [] {
      assert p(xs[0]) == q(ys[0]);
      CountPointwise(xs[1..], ys[1..], p, q);
    }
  }

  ghost predicate NoDuplicates<T>(xs: seq<T>) {
    forall i, j | 0 <= i < j < |xs| :: xs[i] != xs[j]
  }

  lemma {:induction false} NoDuplicatesCounts<T>(xs: seq<T>)
    ensures NoDuplicates(xs) <==> forall x | x in xs :: multiset(xs)[x] == 1
  {
    if xs != [] {
      var head, tail := xs[0], xs[1..];
      NoDuplicatesCounts(tail);
      assert xs == [head] + tail;
      assert multiset(xs) == multiset{head} + multiset(tail);
      assert head in tail <==> head in multiset(tail);
      if NoDuplicates(xs) {
        assert head !in tail;
        forall x | x in xs ensures multiset(xs)[x] == 1 {}
      } else if NoDuplicates(tail) {
        assert head in tail;
        assert multiset(xs)[head] == 2;
      } else {
        var x :| x in tail && multiset(tail)[x] != 1;
        assert x in multiset(tail);
        assert x in xs && multiset(xs)[x] >= 2;
      }
    }
  }

  /** A permutation of a list without duplicates has the same members and no duplicates. */
  lemma PermutationKeepsDistinct<T>(a: seq<T>, b: seq<T>)
    requires multiset(a) == multiset(b)
    ensures NoDuplicates(a) <==> NoDuplicates(b)
    ensures |a| == |b| && forall x | x in a :: x in b
    ensures forall x | x in b :: x in a
  {
    NoDuplicatesCounts(a);
    NoDuplicatesCounts(b);
    assert |multiset(a)| == |a| && |multiset(b)| == |b|;
    forall x | x in a ensures x in b { assert x in multiset(a); }
    forall x | x in b ensures x in a { assert x in multiset(b); }
  }

  /** The concatenation of a sequence of sequences. */
  function Flatten<T>(xss: seq<seq<T>>): seq<T> {
    if xss == [] then [] else xss[0] + Flatten(xss[1..])
  }

  lemma {:induction false} FlattenAppend<T>(xss: seq<seq<T>>, xs: seq<T>)
    ensures Flatten(xss + [xs]) == Flatten(xss) + xs
  {
    if xss == [] {
      assert xss + [xs] == [xs];
    } else {
      assert (xss + [xs])[1..] == xss[1..] + [xs];
      FlattenAppend(xss[1..], xs);
    }
  }
}
