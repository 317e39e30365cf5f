/** Sorted position lists: the ascending enumeration of a set, stable sorting by a key,
    and duplicate removal. */
module Sequences {
  ghost predicate Increasing(s: seq<nat>) {
    forall i, j | 0 <= i < j < |s| :: s[i] < s[j]
  }

  function Elements<T>(s: seq<T>): set<T> {
    set x | x in s
  }

  ghost predicate StrictlyBy<T>(s: seq<T>, key: T -> nat) {
    forall i, j | 0 <= i < j < |s| :: key(s[i]) < key(s[j])
  }

  lemma HeadLeast<T>(s: seq<T>, i: nat, key: T -> nat)
    requires StrictlyBy(s, key) && i < |s|
    ensures key(s[0]) <= key(s[i]) && (key(s[i]) <= key(s[0]) ==> i == 0)
  {
  }

  lemma StrictHead<T>(a: seq<T>, b: seq<T>, key: T -> nat)
    requires StrictlyBy(a, key) && StrictlyBy(b, key) && a != [] && b != []
    requires forall x :: x in a <==> x in b
    ensures a[0] == b[0]
  {
    assert a[0] in b && b[0] in a;
    var i :| 0 <= i < |a| && a[i] == b[0];
    var j :| 0 <= j < |b| && b[j] == a[0];
    HeadLeast(a, i, key);
    HeadLeast(b, j, key);
  }

  lemma StrictTail<T>(s: seq<T>, key: T -> nat)
    requires StrictlyBy(s, key) && s != []
    ensures StrictlyBy(s[1..], key) && forall x :: x in s[1..] <==> x in s && x != s[0]
  {
    assert s == [s[0]] + s[1..];
    forall x | x in s[1..] ensures x != s[0] {
      var i :| 0 <= i < |s[1..]| && s[1..][i] == x;
      assert key(s[0]) < key(s[i + 1]);
    }
  }

  /** Two lists that ascend strictly by a key and have the same members are the same list. */
  lemma {:induction false} StrictUnique<T>(a: seq<T>, b: seq<T>, key: T -> nat)
    requires StrictlyBy(a, key) && StrictlyBy(b, key)
    requires forall x :: x in a <==> x in b
    ensures a == b
  {
    assert a != [] ==> a[0] in b;
    assert b != [] ==> b[0] in a;
    if a != [] {
      StrictHead(a, b, key);
      StrictTail(a, key);
      StrictTail(b, key);
      StrictUnique(a[1..], b[1..], key);
      assert a == [a[0]] + a[1..] && b == [b[0]] + b[1..];
    }
  }

  lemma IncreasingUnique(a: seq<nat>, b: seq<nat>)
    requires Increasing(a) && Increasing(b)
    requires forall x :: x in a <==> x in b
    ensures a == b
  {
    StrictUnique(a, b, Itself);
  }

  lemma PushLarger(s: seq<nat>, x: nat)
    requires Increasing(s) && forall y | y in s :: y < x
    ensures Increasing(s + [x])
  {
    assert forall i | 0 <= i < |s| :: s[i] in s;
  }

  lemma {:induction false} MaxExists(s: set<nat>)
    requires s != {}
    ensures exists m :: m in s && forall y | y in s :: y <= m
  {
    var x :| x in s;
    var rest := s - {x};
    if rest == {} {
      assert s == {x};
      assert x in s && forall y | y in s :: y <= x;
    } else {
      MaxExists(rest);
      var m :| m in rest && forall y | y in rest :: y <= m;
      var best := if x <= m then m else x;
      assert best in s && forall y | y in s :: y <= best by {
        forall y | y in s ensures y <= best { if y != x { assert y in rest; } }
      }
    }
  }

  function Max(s: set<nat>): (m: nat)
    requires s != {}
    ensures m in s && forall y | y in s :: y <= m
  {
    MaxExists(s);
    var m :| m in s && forall y | y in s :: y <= m;
    m
  }

  /** The members of a set of positions in ascending order. */
  function Ascending(s: set<nat>): (r: seq<nat>)
    ensures Increasing(r)
    ensures forall x :: x in r <==> x in s
    ensures |r| == |s|
    decreases |s|
  {
    if s == {} then [] else
    var m := Max(s);
    Ascending(s - {m}) + [m]
  }

  function Reverse<T>(s: seq<T>): (r: seq<T>)
    ensures |r| == |s|
    ensures forall i | 0 <= i < |s| :: r[i] == s[|s| - 1 - i]
  {
    seq(|s|, i requires 0 <= i < |s| => s[|s| - 1 - i])
  }

  function Take<T>(s: seq<T>, n: nat): seq<T> {
    if n < |s| then s[..n] else s
  }

  /** The elements at some indices. */
  ghost function Picked<T>(s: seq<T>, indices: seq<nat>): (picked: seq<T>)
    requires forall i | i in indices :: i < |s|
    ensures |picked| == |indices|
  {
    seq(|indices|, k requires 0 <= k < |indices| => assert indices[k] in indices; s[indices[k]])
  }

  lemma PickedOfFront<T>(s: seq<T>, n: nat, indices: seq<nat>)
    requires n <= |s| && forall i | i in indices :: i < n
    ensures Picked(s, indices) == Picked(s[..n], indices)
  {
    assert forall k | 0 <= k < |indices| :: indices[k] in indices;
  }

  lemma PickedSnoc<T>(s: seq<T>, indices: seq<nat>, next: nat)
    requires next < |s| && forall i | i in indices :: i < |s|
    ensures forall i | i in indices + [next] :: i < |s|
    ensures Picked(s, indices + [next]) == Picked(s, indices) + [s[next]]
  {
  }

  ghost predicate SortedBy<T>(s: seq<T>, key: T -> nat) {
    forall i, j | 0 <= i < j < |s| :: key(s[i]) <= key(s[j])
  }

  function Insert<T>(x: T, s: seq<T>, key: T -> nat): seq<T> {
    if s == [] || key(x) <= key(s[0]) then [x] + s
    else [s[0]] + Insert(x, s[1..], key)
  }

  /** A stable sort by `key`. */
  function Sort<T>(s: seq<T>, key: T -> nat): seq<T> {
    if s == [] then [] else Insert(s[0], Sort(s[1..], key), key)
  }

  lemma {:induction false} InsertPermutes<T>(x: T, s: seq<T>, key: T -> nat)
    ensures multiset(Insert(x, s, key)) == multiset(s) + multiset{x}
  {
    if s != [] {
      InsertPermutes(x, s[1..], key);
      assert s == [s[0]] + s[1..];
    }
  }

  lemma {:induction false} InsertSorts<T>(x: T, s: seq<T>, key: T -> nat)
    requires SortedBy(s, key)
    ensures SortedBy(Insert(x, s, key), key)
  {
    if s != [] && key(s[0]) < key(x) {
      var tail := Insert(x, s[1..], key);
      TailSorted(s, key);
      InsertSorts(x, s[1..], key);
      forall y | y in tail ensures key(s[0]) <= key(y) {
        InsertPermutes(x, s[1..], key);
        assert y in multiset(tail);
        assert y in s[1..] || y == x;
      }
      HeadSorted(s[0], tail, key);
    }
  }

  lemma TailSorted<T>(s: seq<T>, key: T -> nat)
    requires s != [] && SortedBy(s, key)
    ensures SortedBy(s[1..], key) && forall y | y in s[1..] :: key(s[0]) <= key(y)
  {
  }

  lemma HeadSorted<T>(head: T, tail: seq<T>, key: T -> nat)
    requires SortedBy(tail, key) && forall y | y in tail :: key(head) <= key(y)
    ensures SortedBy([head] + tail, key)
  {
    assert forall i | 0 <= i < |tail| :: tail[i] in tail;
  }

  /** Sorting sorts, and keeps every element as often as it occurs. */
  lemma {:induction false} SortSorts<T>(s: seq<T>, key: T -> nat)
    ensures SortedBy(Sort(s, key), key) && multiset(Sort(s, key)) == multiset(s)
  {
    if s != [] {
      SortSorts(s[1..], key);
      InsertSorts(s[0], Sort(s[1..], key), key);
      InsertPermutes(s[0], Sort(s[1..], key), key);
      assert s == [s[0]] + s[1..];
    }
  }

  /** The elements with one key, in the order they have. */
  function WithKey<T>(s: seq<T>, key: T -> nat, k: nat): seq<T> {
    if s == [] then [] else (if key(s[0]) == k then [s[0]] else []) + WithKey(s[1..], key, k)
  }

  lemma WithKeyCons<T>(x: T, s: seq<T>, key: T -> nat, k: nat)
    ensures WithKey([x] + s, key, k) == if key(x) == k then [x] + WithKey(s, key, k) else WithKey(s, key, k)
  {
    assert ([x] + s)[1..] == s;
    assert [] + WithKey(s, key, k) == WithKey(s, key, k);
  }

  lemma {:induction false} InsertStable<T>(x: T, s: seq<T>, key: T -> nat, k: nat)
    ensures WithKey(Insert(x, s, key), key, k) == if key(x) == k then [x] + WithKey(s, key, k) else WithKey(s, key, k)
  {
    if s == [] || key(x) <= key(s[0]) {
      WithKeyCons(x, s, key, k);
    } else {
      InsertStable(x, s[1..], key, k);
      WithKeyCons(s[0], Insert(x, s[1..], key), key, k);
      WithKeyCons(s[0], s[1..], key, k);
      assert s == [s[0]] + s[1..];
    }
  }

  /** Elements with the same key stay in their order. */
  lemma {:induction false} SortStable<T>(s: seq<T>, key: T -> nat, k: nat)
    ensures WithKey(Sort(s, key), key, k) == WithKey(s, key, k)
  {
    if s != [] {
      SortStable(s[1..], key, k);
      InsertStable(s[0], Sort(s[1..], key), key, k);
      WithKeyCons(s[0], s[1..], key, k);
      assert s == [s[0]] + s[1..];
    }
  }

  lemma SortMembers<T>(s: seq<T>, key: T -> nat)
    ensures forall x :: x in Sort(s, key) <==> x in s
  {
    SortSorts(s, key);
    SameMembers(Sort(s, key), s);
  }

  /** Sorting keeps an already sorted list as it is. */
  lemma {:induction false} SortIdentity<T>(s: seq<T>, key: T -> nat)
    requires SortedBy(s, key)
    ensures Sort(s, key) == s
  {
    if s != [] {
      SortIdentity(s[1..], key);
      assert s == [s[0]] + s[1..];
    }
  }

  ghost predicate DistinctKeys<T>(s: seq<T>, key: T -> nat) {
    forall i, j | 0 <= i < j < |s| :: key(s[i]) != key(s[j])
  }

  lemma SameIndex<T>(s: seq<T>, i: nat, j: nat, key: T -> nat)
    requires DistinctKeys(s, key) && i < |s| && j < |s| && key(s[i]) == key(s[j])
    ensures i == j
  {
  }

  lemma {:induction false} DistinctPermutation<T>(a: seq<T>, b: seq<T>, key: T -> nat)
    requires multiset(a) == multiset(b) && DistinctKeys(a, key)
    ensures DistinctKeys(b, key)
  {
    forall i, j | 0 <= i < j < |b| ensures key(b[i]) != key(b[j]) {
      assert b[i] in multiset(a) && b[j] in multiset(a);
      var k :| 0 <= k < |a| && a[k] == b[i];
      var l :| 0 <= l < |a| && a[l] == b[j];
      if key(b[i]) == key(b[j]) {
        SameIndex(a, k, l, key);
        Twice(b, i, j);
        Once(a, k, key);
        assert false;
      }
    }
  }

  lemma Twice<T>(s: seq<T>, i: nat, j: nat)
    requires i < j < |s| && s[i] == s[j]
    ensures multiset(s)[s[i]] >= 2
  {
    assert s == s[..j] + s[j..];
    assert s[i] in s[..j] && s[j] in s[j..];
  }

  lemma Once<T>(s: seq<T>, k: nat, key: T -> nat)
    requires k < |s| && DistinctKeys(s, key)
    ensures multiset(s)[s[k]] == 1
  {
    assert s == s[..k] + [s[k]] + s[k + 1..];
    assert s[k] !in multiset(s[..k]) && s[k] !in multiset(s[k + 1..]);
  }

  /** The result of sorting does not depend on the order of a list with distinct keys. */
  lemma SortOrderIndependent<T>(a: seq<T>, b: seq<T>, key: T -> nat)
    requires multiset(a) == multiset(b) && DistinctKeys(a, key)
    ensures Sort(a, key) == Sort(b, key)
  {
    SortSorts(a, key);
    SortSorts(b, key);
    DistinctPermutation(a, Sort(a, key), key);
    DistinctPermutation(a, Sort(b, key), key);
    SortedStrictly(Sort(a, key), key);
    SortedStrictly(Sort(b, key), key);
    SameMembers(a, b);
    SortMembers(a, key);
    SortMembers(b, key);
    StrictUnique(Sort(a, key), Sort(b, key), key);
  }

  lemma SameMembers<T>(a: seq<T>, b: seq<T>)
    requires multiset(a) == multiset(b)
    ensures forall x :: x in a <==> x in b
  {
    forall x ensures x in a <==> x in b {
      assert x in multiset(a) <==> x in multiset(b);
    }
  }

  lemma SortedStrictly<T>(s: seq<T>, key: T -> nat)
    requires SortedBy(s, key) && DistinctKeys(s, key)
    ensures StrictlyBy(s, key)
  {
    forall i, j | 0 <= i < j < |s| ensures key(s[i]) < key(s[j]) {
      assert key(s[i]) <= key(s[j]) && key(s[i]) != key(s[j]);
    }
  }

  function Itself(x: nat): nat { x }

  /** Removes repeated neighbours. */
  function Dedup(s: seq<nat>): (r: seq<nat>)
    ensures forall x :: x in r <==> x in s
    ensures s != [] ==> r != [] && r[0] == s[0]
  {
    if |s| < 2 then s
    else if s[0] == s[1] then Dedup(s[1..])
    else [s[0]] + Dedup(s[1..])
  }

  lemma {:induction false} DedupIncreasing(s: seq<nat>)
    requires SortedBy(s, Itself)
    ensures Increasing(Dedup(s))
  {
    if |s| >= 2 {
      DedupIncreasing(s[1..]);
      assert SortedBy(s[1..], Itself);
      var rest := Dedup(s[1..]);
      if s[0] != s[1] {
        forall x | x in rest ensures s[0] < x {
          assert x in s[1..];
          var i :| 0 <= i < |s[1..]| && s[1..][i] == x;
          assert Itself(s[0]) <= Itself(s[1]) <= Itself(s[i + 1]);
        }
      }
    }
  }

  /** Concatenating, sorting and removing duplicates is the ascending enumeration of the union. */
  lemma SortDedup(s: seq<nat>)
    ensures Dedup(Sort(s, Itself)) == Ascending(Elements(s))
  {
    SortSorts(s, Itself);
    DedupIncreasing(Sort(s, Itself));
    SortMembers(s, Itself);
    IncreasingUnique(Dedup(Sort(s, Itself)), Ascending(Elements(s)));
  }

  /** Pushing an absent position and sorting keeps a position list strictly increasing. */
  lemma PushSorted(s: seq<nat>, p: nat)
    requires Increasing(s) && p !in s
    ensures Increasing(Sort(s + [p], Itself))
    ensures forall x :: x in Sort(s + [p], Itself) <==> x in s || x == p
  {
    PushedDistinct(s, p);
    SortSorts(s + [p], Itself);
    PermutedIncreasing(s + [p], Sort(s + [p], Itself));
    PushedMembers(s, p);
  }

  lemma PushedMembers(s: seq<nat>, p: nat)
    ensures forall x :: x in Sort(s + [p], Itself) <==> x in s || x == p
  {
    SortMembers(s + [p], Itself);
  }

  lemma PermutedIncreasing(a: seq<nat>, b: seq<nat>)
    requires DistinctKeys(a, Itself) && SortedBy(b, Itself) && multiset(a) == multiset(b)
    ensures Increasing(b)
  {
    DistinctPermutation(a, b, Itself);
    SortedDistinct(b);
  }

  lemma PushedDistinct(s: seq<nat>, p: nat)
    requires Increasing(s) && p !in s
    ensures DistinctKeys(s + [p], Itself)
  {
    assert forall i | 0 <= i < |s| :: s[i] in s;
  }

  lemma SortedDistinct(s: seq<nat>)
    requires SortedBy(s, Itself) && DistinctKeys(s, Itself)
    ensures Increasing(s)
  {
    SortedStrictly(s, Itself);
    forall i, j | 0 <= i < j < |s| ensures s[i] < s[j] {
      assert Itself(s[i]) < Itself(s[j]);
    }
  }
}
