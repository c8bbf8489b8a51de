/** Selecting and ordering query results: the `where`, `orderBy` and
    `take` of the reports. Rows are ordered by a numeric key; a descending
    order is the ascending order of the negated key. */
module Sorting {

  predicate SortedBy<T>(s: seq<T>, key: T -> real) {
    forall i, j :: 0 <= i < j < |s| ==> key(s[i]) <= key(s[j])
  }

  /** Puts `x` before the first row of `s` whose key is not smaller. */
  function Insert<T>(x: T, s: seq<T>, key: T -> real): (r: seq<T>)
    ensures multiset(r) == multiset(s) + multiset{x}
    ensures |r| == |s| + 1
    decreases |s|
  {
    if s == [] || key(x) <= key(s[0]) then [x] + s
    else
      assert s == [s[0]] + s[1..];
      [s[0]] + Insert(x, s[1..], key)
  }

  /** Inserting into a sorted sequence keeps it sorted. */
  lemma {:induction false} InsertSorted<T>(x: T, s: seq<T>, key: T -> real)
    requires SortedBy(s, key)
    ensures SortedBy(Insert(x, s, key), key)
    decreases |s|
  {
    if s != [] && key(x) > key(s[0]) {
      TailSorted(s, key);
      InsertSorted(x, s[1..], key);
      InsertAbove(x, s[1..], key, s[0]);
      ConsSorted(s[0], Insert(x, s[1..], key), key);
    }
  }

  /** The rows after the first of a sorted sequence are sorted, and none is
      smaller than the first. */
  lemma TailSorted<T>(s: seq<T>, key: T -> real)
    requires SortedBy(s, key) && s != []
    ensures SortedBy(s[1..], key)
    ensures forall k :: 0 <= k < |s[1..]| ==> key(s[0]) <= key(s[1..][k])
  {
    var tail := s[1..];
    forall i, j | 0 <= i < j < |tail| ensures key(tail[i]) <= key(tail[j]) {
      assert tail[i] == s[i + 1] && tail[j] == s[j + 1];
    }
    forall k | 0 <= k < |tail| ensures key(s[0]) <= key(tail[k]) {
      assert tail[k] == s[k + 1];
    }
  }

  /** A bound below `x` and below every row of `s` is below every row after
      the insertion. */
  lemma InsertAbove<T>(x: T, s: seq<T>, key: T -> real, y: T)
    requires key(y) <= key(x)
    requires forall k :: 0 <= k < |s| ==> key(y) <= key(s[k])
    ensures forall k :: 0 <= k < |Insert(x, s, key)| ==> key(y) <= key(Insert(x, s, key)[k])
  {
    var r := Insert(x, s, key);
    forall k | 0 <= k < |r| ensures key(y) <= key(r[k]) {
      assert r[k] in multiset(r);
      if r[k] != x {
        assert r[k] in multiset(s);
        var m :| 0 <= m < |s| && s[m] == r[k];
      }
    }
  }

  /** A row no larger than every row of a sorted sequence can go in front. */
  lemma ConsSorted<T>(y: T, s: seq<T>, key: T -> real)
    requires SortedBy(s, key)
    requires forall k :: 0 <= k < |s| ==> key(y) <= key(s[k])
    ensures SortedBy([y] + s, key)
  {
    var r := [y] + s;
    forall i, j | 0 <= i < j < |r| ensures key(r[i]) <= key(r[j]) {
      assert r[j] == s[j - 1];
      if i > 0 {
        assert r[i] == s[i - 1];
      }
    }
  }

  /** Insertion sort: the rows of `s`, reordered by ascending key. */
  function SortBy<T>(s: seq<T>, key: T -> real): (r: seq<T>)
    ensures SortedBy(r, key)
    ensures multiset(r) == multiset(s)
    ensures |r| == |s|
    decreases |s|
  {
    if s == [] then []
    else
      var rest := SortBy(s[1..], key);
      SortStep(s, rest, key);
      Insert(s[0], rest, key)
  }

  /** Inserting the first row into a sorted reordering of the others gives
      a sorted reordering of all of them. */
  lemma SortStep<T>(s: seq<T>, rest: seq<T>, key: T -> real)
    requires s != [] && SortedBy(rest, key) && multiset(rest) == multiset(s[1..])
    ensures SortedBy(Insert(s[0], rest, key), key)
    ensures multiset(Insert(s[0], rest, key)) == multiset(s)
    ensures |Insert(s[0], rest, key)| == |s|
  {
    InsertSorted(s[0], rest, key);
    assert s == [s[0]] + s[1..];
    assert |rest| == |multiset(rest)| == |s[1..]|;
  }

  /** The first `n` rows, or all of them when there are fewer (`take: n`). */
  function Take<T>(s: seq<T>, n: nat): (r: seq<T>)
    ensures |r| <= n && |r| <= |s|
    ensures |s| <= n ==> r == s
    ensures r == s[..|r|]
  {
    if |s| <= n then s else s[..n]
  }

  /** Taking a prefix of a sorted sequence selects rows whose keys are no
      larger than those of any row left out. */
  lemma TakeSortedSelectsSmallest<T>(s: seq<T>, key: T -> real, n: nat, i: nat, j: nat)
    requires SortedBy(s, key)
    requires i < |Take(s, n)| <= j < |s|
    ensures key(Take(s, n)[i]) <= key(s[j])
  {
  }

  /** The rows of `s` that satisfy `keep`, in their original order (`filter`). */
  function Where<T(!new)>(s: seq<T>, keep: T -> bool): (r: seq<T>)
    ensures forall x :: x in r <==> x in s && keep(x)
    ensures forall i :: 0 <= i < |r| ==> keep(r[i])
    ensures multiset(r) <= multiset(s)
    ensures |r| <= |s|
    decreases |s|
  {
    if s == [] then []
    else
      var prefix := s[..|s| - 1];
      var last := s[|s| - 1];
      var rest := Where(prefix, keep);
      assert s == prefix + [last];
      if keep(last) then rest + [last] else rest
  }

  /** Rows that pass `keep` and stand apart keep their relative order:
      filtering a concatenation concatenates the filtered parts. */
  lemma {:induction false} WhereAppend<T(!new)>(a: seq<T>, b: seq<T>, keep: T -> bool)
    ensures Where(a + b, keep) == Where(a, keep) + Where(b, keep)
    decreases |b|
  {
    if b == [] {
      assert a + b == a;
    } else {
      var b' := b[..|b| - 1];
      assert (a + b)[..|a + b| - 1] == a + b';
      WhereAppend(a, b', keep);
    }
  }

  /** A row of a sorted sequence left out of its first `n` rows has a key
      no smaller than any row kept. */
  lemma TakeLeavesLarger<T>(sorted: seq<T>, key: T -> real, n: nat, x: T)
    requires SortedBy(sorted, key)
    requires x in sorted && x !in Take(sorted, n)
    ensures forall i :: 0 <= i < |Take(sorted, n)| ==> key(Take(sorted, n)[i]) <= key(x)
  {
    var r := Take(sorted, n);
    var j :| 0 <= j < |sorted| && sorted[j] == x;
    forall i | 0 <= i < |r| ensures key(r[i]) <= key(x) {
      TakeSortedSelectsSmallest(sorted, key, n, i, j);
    }
  }

  /** `orderBy: key asc, take: n`: the `n` rows of smallest key, in
      ascending order of key. */
  function Lowest<T(!new)>(s: seq<T>, key: T -> real, n: nat): (r: seq<T>)
    ensures |r| == if |s| <= n then |s| else n
    ensures SortedBy(r, key)
    ensures multiset(r) <= multiset(s)
  {
    var sorted := SortBy(s, key);
    var r := Take(sorted, n);
    assert sorted == r + sorted[|r|..];
    r
  }

  /** No row left out of `Lowest` has a smaller key than a row taken. */
  lemma LowestLeavesLarger<T(!new)>(s: seq<T>, key: T -> real, n: nat, x: T)
    requires x in s && x !in Lowest(s, key, n)
    ensures forall i :: 0 <= i < |Lowest(s, key, n)| ==> key(Lowest(s, key, n)[i]) <= key(x)
  {
    var sorted := SortBy(s, key);
    assert x in multiset(sorted);
    TakeLeavesLarger(sorted, key, n, x);
  }
}
