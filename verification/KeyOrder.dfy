/** The order of workloads, by key: what the store and the engine both sort by. */
module KeyOrder {
  import opened Telemetry
  import opened Sorting
  import opened Seqs

  /** Go's < on strings. */
  predicate StringLess(a: string, b: string) {
    b != "" && (a == "" || a[0] < b[0] || (a[0] == b[0] && StringLess(a[1..], b[1..])))
  }

  /** a comes before b in the dictionary: at the first difference it has the smaller character, or it has ended. */
  ghost predicate InDictionaryOrder(a: string, b: string) {
    exists n: nat :: FirstDifference(a, b, n)
  }

  predicate FirstDifference(a: string, b: string, n: nat) {
    n <= |a| && n < |b| && a[..n] == b[..n] && (n == |a| || a[n] < b[n])
  }

  lemma {:induction false} StringLessIsDictionaryOrder(a: string, b: string)
    ensures StringLess(a, b) <==> InDictionaryOrder(a, b)
    decreases |a|
  {
    if StringLess(a, b) {
      var n := Difference(a, b);
    }
    if n: nat :| FirstDifference(a, b, n) {
      DifferenceIsLess(a, b, n);
    }
  }

  lemma {:induction false} Difference(a: string, b: string) returns (n: nat)
    requires StringLess(a, b)
    ensures FirstDifference(a, b, n)
    decreases |a|
  {
    if a == "" || a[0] < b[0] {
      n := 0;
    } else {
      var m := Difference(a[1..], b[1..]);
      n := m + 1;
      assert a[..n] == [a[0]] + a[1..][..m] && b[..n] == [b[0]] + b[1..][..m];
    }
  }

  lemma {:induction false} DifferenceIsLess(a: string, b: string, n: nat)
    requires FirstDifference(a, b, n)
    ensures StringLess(a, b)
    decreases n
  {
    if n > 0 {
      assert a[0] == a[..n][0] == b[..n][0] == b[0];
      assert a[1..][..n - 1] == a[..n][1..] && b[1..][..n - 1] == b[..n][1..];
      DifferenceIsLess(a[1..], b[1..], n - 1);
    }
  }

  lemma {:induction false} StringLessIsTotal(a: string, b: string)
    ensures !(StringLess(a, b) && StringLess(b, a))
    ensures a != b ==> StringLess(a, b) || StringLess(b, a)
    decreases |a|
  {
    if a != "" && b != "" && a[0] == b[0] {
      StringLessIsTotal(a[1..], b[1..]);
      assert a == [a[0]] + a[1..] && b == [b[0]] + b[1..];
    }
  }

  lemma {:induction false} StringLessIsTransitive(a: string, b: string, c: string)
    requires StringLess(a, b) && StringLess(b, c)
    ensures StringLess(a, c)
    decreases |a|
  {
    if a != "" && a[0] == b[0] == c[0] {
      StringLessIsTransitive(a[1..], b[1..], c[1..]);
    }
  }

  predicate KeyLess(a: Snapshot, b: Snapshot) {
    StringLess(a.Key(), b.Key())
  }

  predicate DistinctKeys(snaps: seq<Snapshot>) {
    forall i, j :: 0 <= i < j < |snaps| ==> snaps[i].Key() != snaps[j].Key()
  }

  /** No workload stands before one with a smaller key. */
  predicate InKeyOrder(snaps: seq<Snapshot>) {
    forall i, j :: 0 <= i < j < |snaps| ==> !KeyLess(snaps[j], snaps[i])
  }

  lemma DistinctKeysAreSorted(snaps: seq<Snapshot>)
    requires InKeyOrder(snaps) && DistinctKeys(snaps)
    ensures SortedBy(KeyLess, snaps)
  {
    forall i, j | 0 <= i < j < |snaps|
      ensures KeyLess(snaps[i], snaps[j])
    {
      StringLessIsTotal(snaps[i].Key(), snaps[j].Key());
    }
  }

  function Bag(snaps: seq<Snapshot>): multiset<Snapshot> {
    multiset(snaps)
  }

  /** Sorts the workloads by key. */
  method SortByKey(snaps: seq<Snapshot>) returns (byKey: seq<Snapshot>)
    ensures InKeyOrder(byKey) && Bag(byKey) == Bag(snaps)
    ensures DistinctKeys(snaps) ==> DistinctKeys(byKey) && SortedBy(KeyLess, byKey)
  {
    byKey := [];
    for i := 0 to |snaps|
      invariant SortedSoFar(snaps, i, byKey)
    {
      ghost var before := byKey;
      byKey := InsertByKey(byKey, snaps[i]);
      SortedNext(snaps, i, before, byKey);
    }
    assert snaps[..|snaps|] == snaps;
    if DistinctKeys(snaps) {
      DistinctKeysAreSorted(byKey);
    }
  }

  ghost predicate SortedSoFar(snaps: seq<Snapshot>, i: nat, byKey: seq<Snapshot>)
    requires i <= |snaps|
  {
    InKeyOrder(byKey) && Bag(byKey) == Bag(snaps[..i]) && (DistinctKeys(snaps) ==> DistinctKeys(byKey))
  }

  lemma SortedNext(snaps: seq<Snapshot>, i: nat, before: seq<Snapshot>, byKey: seq<Snapshot>)
    requires i < |snaps| && SortedSoFar(snaps, i, before)
    requires InKeyOrder(byKey) && Bag(byKey) == Bag(before) + multiset{snaps[i]}
    requires DistinctKeys(before) && IsNewKey(before, snaps[i]) ==> DistinctKeys(byKey)
    ensures SortedSoFar(snaps, i + 1, byKey)
  {
    TakeIsSnoc(snaps, i);
    if DistinctKeys(snaps) {
      NewKey(snaps, i, before);
    }
  }

  predicate IsNewKey(byKey: seq<Snapshot>, s: Snapshot) {
    forall j :: 0 <= j < |byKey| ==> byKey[j].Key() != s.Key()
  }

  lemma NewKey(snaps: seq<Snapshot>, i: nat, byKey: seq<Snapshot>)
    requires DistinctKeys(snaps) && i < |snaps| && Bag(byKey) == Bag(snaps[..i])
    ensures IsNewKey(byKey, snaps[i])
  {
    SameMembers(byKey, snaps[..i]);
    forall j | 0 <= j < |byKey|
      ensures byKey[j].Key() != snaps[i].Key()
    {
      assert byKey[j] in snaps[..i];
    }
  }

  /** Puts a workload behind those whose key is not greater. */
  method InsertByKey(byKey: seq<Snapshot>, s: Snapshot) returns (out: seq<Snapshot>)
    requires InKeyOrder(byKey)
    ensures InKeyOrder(out) && Bag(out) == Bag(byKey) + multiset{s}
    ensures DistinctKeys(byKey) && IsNewKey(byKey, s) ==> DistinctKeys(out)
  {
    var k := PlaceOf(byKey, s);
    out := byKey[..k] + [s] + byKey[k..];
    InsertedInOrder(byKey, s, k, out);
    InsertedIsDistinct(byKey, s, k, out);
    InsertedMultiset(byKey, s, k, out);
  }

  method PlaceOf(byKey: seq<Snapshot>, s: Snapshot) returns (k: nat)
    requires InKeyOrder(byKey)
    ensures k <= |byKey| && FitsAt(byKey, s, k)
  {
    k := |byKey|;
    while k > 0 && KeyLess(s, byKey[k - 1])
      invariant 0 <= k <= |byKey|
      invariant SmallerFrom(byKey, s, k)
    {
      SmallerFromNext(byKey, s, k - 1);
      k := k - 1;
    }
    AroundInserted(byKey, s, k);
  }

  predicate SmallerFrom(byKey: seq<Snapshot>, s: Snapshot, k: nat) {
    forall j :: k <= j < |byKey| ==> KeyLess(s, byKey[j])
  }

  lemma SmallerFromNext(byKey: seq<Snapshot>, s: Snapshot, k: nat)
    requires k < |byKey| && KeyLess(s, byKey[k]) && SmallerFrom(byKey, s, k + 1)
    ensures SmallerFrom(byKey, s, k)
  {
  }

  /** Whether s may stand between the first k and the rest. */
  predicate FitsAt(byKey: seq<Snapshot>, s: Snapshot, k: nat) {
    forall j :: 0 <= j < |byKey| ==> if j < k then !KeyLess(s, byKey[j]) else !KeyLess(byKey[j], s)
  }

  lemma AroundInserted(byKey: seq<Snapshot>, s: Snapshot, k: nat)
    requires k <= |byKey| && InKeyOrder(byKey)
    requires k > 0 ==> !KeyLess(s, byKey[k - 1])
    requires SmallerFrom(byKey, s, k)
    ensures FitsAt(byKey, s, k)
  {
    forall j | 0 <= j < |byKey|
      ensures if j < k then !KeyLess(s, byKey[j]) else !KeyLess(byKey[j], s)
    {
      if j < k - 1 {
        NotLessIsTransitive(byKey[j].Key(), byKey[k - 1].Key(), s.Key());
      } else if j >= k {
        StringLessIsTotal(s.Key(), byKey[j].Key());
      }
    }
  }

  lemma InsertedInOrder(byKey: seq<Snapshot>, s: Snapshot, k: nat, out: seq<Snapshot>)
    requires k <= |byKey| && InKeyOrder(byKey) && out == byKey[..k] + [s] + byKey[k..] && FitsAt(byKey, s, k)
    ensures InKeyOrder(out)
  {
  }

  lemma InsertedIsDistinct(byKey: seq<Snapshot>, s: Snapshot, k: nat, out: seq<Snapshot>)
    requires k <= |byKey| && out == byKey[..k] + [s] + byKey[k..]
    ensures DistinctKeys(byKey) && IsNewKey(byKey, s) ==> DistinctKeys(out)
  {
  }

  lemma InsertedMultiset(byKey: seq<Snapshot>, s: Snapshot, k: nat, out: seq<Snapshot>)
    requires k <= |byKey| && out == byKey[..k] + [s] + byKey[k..]
    ensures Bag(out) == Bag(byKey) + multiset{s}
  {
    assert byKey == byKey[..k] + byKey[k..];
  }

  lemma NotLessIsTransitive(a: string, b: string, c: string)
    requires !StringLess(b, a) && !StringLess(c, b)
    ensures !StringLess(c, a)
  {
    if StringLess(c, a) && a != b {
      StringLessIsTotal(a, b);
      StringLessIsTransitive(c, a, b);
    }
  }

  /** The key order does not depend on the order the workloads were collected in. */
  lemma KeyOrderIsCanonical(a: seq<Snapshot>, b: seq<Snapshot>)
    requires SortedBy(KeyLess, a) && SortedBy(KeyLess, b)
    requires forall s :: s in a <==> s in b
    ensures a == b
  {
    forall x, y | KeyLess(x, y)
      ensures !KeyLess(y, x)
    {
      StringLessIsTotal(x.Key(), y.Key());
    }
    SortedIsUnique(KeyLess, a, b);
  }
}
