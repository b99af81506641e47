/** `Array.prototype.sort` with a comparator `(a, b) => key(a) - key(b)`:
    a stable sort into ascending order of a key. It is specified by an
    insertion sort on sequences, which never moves an element past one with
    an equal key, and implemented in place on an array. */
module Sorting {
  /** Ascending order of `key`. */
  predicate SortedBy<T>(s: seq<T>, key: T -> real) {
    forall i, j :: 0 <= i < j < |s| ==> key(s[i]) <= key(s[j])
  }

  /** `x` placed after the last element of `s` whose key is not greater. */
  function Insert<T>(x: T, s: seq<T>, key: T -> real): seq<T> {
    if s == [] || key(s[|s| - 1]) <= key(x) then s + [x]
    else Insert(x, s[..|s| - 1], key) + [s[|s| - 1]]
  }

  /** The stable sort of `s` by `key`. */
  function SortBy<T>(s: seq<T>, key: T -> real): seq<T> {
    if s == [] then [] else Insert(s[|s| - 1], SortBy(s[..|s| - 1], key), key)
  }

  lemma {:induction false} InsertPermutes<T>(x: T, s: seq<T>, key: T -> real)
    ensures multiset(Insert(x, s, key)) == multiset(s) + multiset{x}
    ensures |Insert(x, s, key)| == |s| + 1
    decreases |s|
  {
    if s == [] || key(s[|s| - 1]) <= key(x) {
    } else {
      InsertPermutes(x, s[..|s| - 1], key);
      assert s == s[..|s| - 1] + [s[|s| - 1]];
    }
  }

  /** The sort only reorders: the result is a permutation of the input. */
  lemma {:induction false} SortByPermutes<T>(s: seq<T>, key: T -> real)
    ensures multiset(SortBy(s, key)) == multiset(s)
    ensures |SortBy(s, key)| == |s|
    decreases |s|
  {
    if s != [] {
      SortByPermutes(s[..|s| - 1], key);
      InsertPermutes(s[|s| - 1], SortBy(s[..|s| - 1], key), key);
      assert s == s[..|s| - 1] + [s[|s| - 1]];
    }
  }

  lemma {:induction false} InsertSorted<T>(x: T, s: seq<T>, key: T -> real)
    requires SortedBy(s, key)
    ensures SortedBy(Insert(x, s, key), key)
    ensures forall y :: y in Insert(x, s, key) ==> y == x || y in s
    decreases |s|
  {
    if s == [] || key(s[|s| - 1]) <= key(x) {
    } else {
      var init := s[..|s| - 1];
      var last := s[|s| - 1];
      InsertSorted(x, init, key);
      var r := Insert(x, init, key);
      forall y | y in r ensures key(y) <= key(last) {
        if y != x {
          var i :| 0 <= i < |init| && init[i] == y;
          assert s[i] == y;
        }
      }
      forall i, j | 0 <= i < j < |r + [last]| ensures key((r + [last])[i]) <= key((r + [last])[j]) {
        if j == |r| {
          assert (r + [last])[i] == r[i];
          assert r[i] in r;
        }
      }
    }
  }

  /** The result is in ascending order of the key. */
  lemma {:induction false} SortBySorted<T>(s: seq<T>, key: T -> real)
    ensures SortedBy(SortBy(s, key), key)
    decreases |s|
  {
    if s != [] {
      SortBySorted(s[..|s| - 1], key);
      InsertSorted(s[|s| - 1], SortBy(s[..|s| - 1], key), key);
    }
  }

  /** Input that is already in order comes back unchanged. */
  lemma {:induction false} SortByOfSorted<T>(s: seq<T>, key: T -> real)
    requires SortedBy(s, key)
    ensures SortBy(s, key) == s
    decreases |s|
  {
    if s != [] {
      var init := s[..|s| - 1];
      assert SortedBy(init, key);
      SortByOfSorted(init, key);
      assert s == init + [s[|s| - 1]];
    }
  }

  /** Where `Insert` puts `x`: after every element whose key is not greater
      than its own and before the run of greater ones that ends `sorted`. */
  lemma {:induction false} InsertionPoint<T>(x: T, sorted: seq<T>, key: T -> real) returns (p: nat)
    ensures p <= |sorted|
    ensures Insert(x, sorted, key) == sorted[..p] + [x] + sorted[p..]
    ensures forall k :: p <= k < |sorted| ==> key(sorted[k]) > key(x)
    ensures p == 0 || key(sorted[p - 1]) <= key(x)
    decreases |sorted|
  {
    if sorted == [] || key(sorted[|sorted| - 1]) <= key(x) {
      p := |sorted|;
      assert sorted[..p] == sorted;
    } else {
      var init := sorted[..|sorted| - 1];
      p := InsertionPoint(x, init, key);
      assert init[..p] == sorted[..p];
      assert init[p..] + [sorted[|sorted| - 1]] == sorted[p..];
    }
  }

  lemma InsertSortedPrefix<T>(s: seq<T>, i: nat, key: T -> real)
    requires i < |s|
    ensures SortBy(s[..i + 1], key) == Insert(s[i], SortBy(s[..i], key), key)
  {
    assert s[..i + 1][..i] == s[..i];
  }

  lemma AssembleInsert<T>(t: seq<T>, s: seq<T>, sorted: seq<T>, x: T, p: nat, i: nat)
    requires |sorted| == i < |t| == |s| && p <= i
    requires forall k :: 0 <= k < p ==> t[k] == sorted[k]
    requires t[p] == x
    requires forall k :: p <= k < i ==> t[k + 1] == sorted[k]
    requires forall k :: i < k < |t| ==> t[k] == s[k]
    ensures t == sorted[..p] + [x] + sorted[p..] + s[i + 1..]
  {
    var r := sorted[..p] + [x] + sorted[p..] + s[i + 1..];
    assert |r| == |t|;
    forall k | 0 <= k < |t| ensures t[k] == r[k] {
      if k < p {
      } else if k == p {
      } else if k <= i {
        assert t[(k - 1) + 1] == sorted[k - 1];
        assert r[k] == sorted[p..][k - p - 1];
      } else {
        assert r[k] == s[i + 1..][k - i - 1];
      }
    }
  }

  /** One step of the insertion sort: `a[i]` moves left past the greater
      elements of the already sorted `a[..i]`, which shift right by one. */
  method InsertAt<T>(a: array<T>, i: nat, key: T -> real)
    requires i < a.Length
    modifies a
    ensures a[..] == Insert(old(a[i]), old(a[..i]), key) + old(a[i + 1..])
  {
    ghost var s := a[..];
    ghost var sorted := a[..i];
    var x := a[i];
    ghost var p := InsertionPoint(x, sorted, key);
    var kx := key(x);
    var j := i;
    while j > 0 && key(a[j - 1]) > kx
      invariant p <= j <= i
      invariant forall k :: 0 <= k < j ==> a[k] == sorted[k]
      invariant forall k :: j <= k < i ==> a[k + 1] == sorted[k]
      invariant forall k :: i < k < a.Length ==> a[k] == s[k]
    {
      var y := a[j - 1];
      a[j] := y;
      j := j - 1;
    }
    a[j] := x;
    AssembleInsert(a[..], s, sorted, x, p, i);
  }

  /** Sorts `a` in place: insertion sort, shifting greater elements right. */
  method SortInPlace<T>(a: array<T>, key: T -> real)
    modifies a
    ensures a[..] == SortBy(old(a[..]), key)
  {
    ghost var s := a[..];
    var i := 0;
    while i < a.Length
      invariant 0 <= i <= a.Length
      invariant a[..] == SortBy(s[..i], key) + s[i..]
    {
      SortByPermutes(s[..i], key);
      assert a[..i] == SortBy(s[..i], key) && a[i] == s[i] && a[i + 1..] == s[i + 1..];
      InsertAt(a, i, key);
      InsertSortedPrefix(s, i, key);
      i := i + 1;
    }
    assert s[..a.Length] == s;
  }
}
