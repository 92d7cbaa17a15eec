/** sort.Search, and facts about sorted sequences. */
module Sorting {

  /** The binary search of Go's sort package: an index where f turns true. */
  function Search(n: nat, f: nat -> bool): (r: nat)
    ensures r <= n
    ensures r < n ==> f(r)
    ensures r > 0 ==> !f(r - 1)
  {
    SearchIn(0, n, f)
  }

  function SearchIn(i: nat, j: nat, f: nat -> bool): (r: nat)
    requires i <= j
    ensures i <= r <= j
    ensures r < j ==> f(r)
    ensures r > i ==> !f(r - 1)
    decreases j - i
  {
    if i == j then i
    else
      var h := Middle(i, j);
      if f(h) then SearchIn(i, h, f) else SearchIn(h + 1, j, f)
  }

  function Middle(i: nat, j: nat): (h: nat)
    requires i < j
    ensures i <= h < j
  {
    (i + j) / 2
  }

  ghost predicate TurnsTrueOnce(n: nat, f: nat -> bool) {
    forall i, j :: 0 <= i < j < n && f(i) ==> f(j)
  }

  /** When f turns true once, the search finds the first index where it is true. */
  lemma SearchFindsFirst(n: nat, f: nat -> bool)
    requires TurnsTrueOnce(n, f)
    ensures forall i :: 0 <= i < n ==> (f(i) <==> Search(n, f) <= i)
  {
  }

  predicate Agree(f: nat -> bool, g: nat -> bool, i: nat, j: nat) {
    forall k :: i <= k < j ==> f(k) == g(k)
  }

  /** The search depends on nothing but the values of f below n. */
  lemma {:induction false} SearchInDependsOnValues(i: nat, j: nat, f: nat -> bool, g: nat -> bool)
    requires i <= j && Agree(f, g, i, j)
    ensures SearchIn(i, j, f) == SearchIn(i, j, g)
    decreases j - i
  {
    if i < j {
      var h := Middle(i, j);
      if f(h) {
        SearchInDependsOnValues(i, h, f, g);
      } else {
        SearchInDependsOnValues(h + 1, j, f, g);
      }
      SameStep(i, j, h, f, g);
    }
  }

  lemma SameStep(i: nat, j: nat, h: nat, f: nat -> bool, g: nat -> bool)
    requires i < j && h == Middle(i, j) && f(h) == g(h)
    requires if f(h) then SearchIn(i, h, f) == SearchIn(i, h, g) else SearchIn(h + 1, j, f) == SearchIn(h + 1, j, g)
    ensures SearchIn(i, j, f) == SearchIn(i, j, g)
  {
  }

  ghost predicate SortedBy<T>(less: (T, T) -> bool, xs: seq<T>) {
    forall i, j :: 0 <= i < j < |xs| ==> less(xs[i], xs[j])
  }

  /** A strictly sorted sequence is determined by its elements. */
  lemma {:induction false} SortedIsUnique<T(!new)>(less: (T, T) -> bool, a: seq<T>, b: seq<T>)
    requires forall x, y :: less(x, y) ==> !less(y, x)
    requires SortedBy(less, a) && SortedBy(less, b)
    requires forall x :: x in a <==> x in b
    ensures a == b
    decreases |a|
  {
    assert a != [] ==> a[0] in a;
    assert b != [] ==> b[0] in b;
    if a != [] {
      assert a[0] in b && b[0] in a;
      assert a[0] == b[0];
      forall x
        ensures x in a[1..] <==> x in b[1..]
      {
        assert x in a <==> x == a[0] || x in a[1..];
        assert x in b <==> x == b[0] || x in b[1..];
        assert !less(x, x);
        assert a[0] !in a[1..] && b[0] !in b[1..];
      }
      SortedIsUnique(less, a[1..], b[1..]);
    }
  }
}
