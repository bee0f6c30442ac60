/** Searching and filtering sequences, as the store's `findOne`/`findById` and
    query filters do over the Event collection. */
module Collections {
  import opened Wrappers

  /** Index of the first element satisfying `p`, the natural-order hit of a
      store lookup. */
  function FirstIndex<T>(s: seq<T>, p: T -> bool): (r: Option<nat>)
    ensures r.Some? ==> r.value < |s| && p(s[r.value])
    ensures r.Some? ==> forall j :: 0 <= j < r.value ==> !p(s[j])
    ensures r.None? ==> forall j :: 0 <= j < |s| ==> !p(s[j])
  {
    if |s| == 0 then None
    else if p(s[0]) then Some(0)
    else match FirstIndex(s[1..], p)
      case None => None
      case Some(k) => Some(k + 1)
  }

  /** The elements satisfying `p`, in their original order. */
  function Filter<T(!new)>(s: seq<T>, p: T -> bool): (r: seq<T>)
    ensures |r| <= |s|
    ensures forall x :: x in r <==> x in s && p(x)
    ensures multiset(r) <= multiset(s)
  {
    if |s| == 0 then []
    else
      assert s == [s[0]] + s[1..];
      (if p(s[0]) then [s[0]] else []) + Filter(s[1..], p)
  }

  /** Filtering by a predicate that every element satisfies keeps everything. */
  lemma {:induction false} FilterKeepsAll<T(!new)>(s: seq<T>, p: T -> bool)
    requires forall x :: x in s ==> p(x)
    ensures Filter(s, p) == s
  {
    if |s| > 0 {
      FilterKeepsAll(s[1..], p);
    }
  }

  /** The parts one after the other. */
  function Concat<T>(parts: seq<seq<T>>): seq<T> {
    if |parts| == 0 then [] else Concat(parts[..|parts| - 1]) + parts[|parts| - 1]
  }

  lemma {:induction false} ConcatAppend<T>(a: seq<seq<T>>, b: seq<seq<T>>)
    ensures Concat(a + b) == Concat(a) + Concat(b)
    decreases |b|
  {
    if |b| == 0 {
      assert a + b == a;
    } else {
      var n := |b| - 1;
      assert (a + b)[..|a| + n] == a + b[..n];
      ConcatAppend(a, b[..n]);
    }
  }

  /** An empty part adds nothing between the parts before and after it. */
  lemma ConcatSkipsEmpty<T>(a: seq<seq<T>>, b: seq<seq<T>>)
    ensures Concat(a + [[]] + b) == Concat(a) + Concat(b)
  {
    ConcatAppend(a + [[]], b);
    assert (a + [[]])[..|a|] == a;
  }

  /** Every element of the concatenation comes from some part. */
  lemma {:induction false} ConcatMembers<T>(parts: seq<seq<T>>, x: T)
    requires x in Concat(parts)
    ensures exists k :: 0 <= k < |parts| && x in parts[k]
  {
    var n := |parts| - 1;
    if x !in parts[n] {
      ConcatMembers(parts[..n], x);
      var k :| 0 <= k < n && x in parts[..n][k];
      assert x in parts[k];
    }
  }

  /** The keys never decrease along `s`. */
  predicate SortedBy<T>(s: seq<T>, key: T -> int) {
    forall i, j :: 0 <= i < j < |s| ==> key(s[i]) <= key(s[j])
  }

  /** `x` inserted into `s` before the first element with a larger key. */
  function InsertBy<T>(x: T, s: seq<T>, key: T -> int): (r: seq<T>)
    requires SortedBy(s, key)
    ensures SortedBy(r, key) && multiset(r) == multiset(s) + multiset{x} && |r| == |s| + 1
    ensures r[0] == x || (|s| > 0 && r[0] == s[0])
  {
    if |s| == 0 then [x]
    else if key(x) <= key(s[0]) then [x] + s
    else
      var rest := InsertBy(x, s[1..], key);
      assert s == [s[0]] + s[1..];
      assert key(s[0]) <= key(rest[0]);
      [s[0]] + rest
  }

  /** A stable insertion sort by key. */
  function SortBy<T>(s: seq<T>, key: T -> int): (r: seq<T>)
    ensures SortedBy(r, key) && multiset(r) == multiset(s) && |r| == |s|
  {
    if |s| == 0 then []
    else
      var n := |s| - 1;
      assert s == s[..n] + [s[n]];
      InsertBy(s[n], SortBy(s[..n], key), key)
  }

  /** A prefix holds no element more often than the whole. */
  lemma PrefixMultiset<T>(s: seq<T>, m: nat)
    requires m <= |s|
    ensures multiset(s[..m]) <= multiset(s)
  {
    assert s == s[..m] + s[m..];
  }

  /** The first `n` elements, or all of them when there are fewer (the store's `limit`). */
  function Take<T>(s: seq<T>, n: nat): (r: seq<T>)
    ensures |r| == if |s| < n then |s| else n
    ensures r <= s
  {
    if |s| <= n then s else s[..n]
  }

  /** An element of a sorted sequence that a prefix leaves out is no smaller than
      any element of the prefix, and it is left out only when the prefix is full. */
  lemma TakeSortedIsEarliest<T>(s: seq<T>, key: T -> int, n: nat, x: T)
    requires SortedBy(s, key) && x in s && x !in Take(s, n)
    ensures |Take(s, n)| == n
    ensures forall k :: 0 <= k < |Take(s, n)| ==> key(Take(s, n)[k]) <= key(x)
  {
    var j :| 0 <= j < |s| && s[j] == x;
    assert n <= j;
  }

  /** `find(p).sort(key).limit(n)`: the elements satisfying `p`, ordered by key, at most `n` of them. */
  function SelectSorted<T(!new)>(c: seq<T>, p: T -> bool, key: T -> int, n: nat): seq<T> {
    Take(SortBy(Filter(c, p), key), n)
  }

  /** The selection holds only elements of `c` satisfying `p`, each at most as
      often as in `c`, ordered by key and at most `n` of them. */
  lemma SelectSortedBounds<T(!new)>(c: seq<T>, p: T -> bool, key: T -> int, n: nat)
    ensures |SelectSorted(c, p, key, n)| <= n
    ensures multiset(SelectSorted(c, p, key, n)) <= multiset(c)
    ensures forall x :: x in SelectSorted(c, p, key, n) ==> p(x)
    ensures SortedBy(SelectSorted(c, p, key, n), key)
  {
    var s := SortBy(Filter(c, p), key);
    PrefixMultiset(s, |Take(s, n)|);
    assert forall x :: x in Take(s, n) ==> x in multiset(s);
  }

  /** An element satisfying `p` that the selection leaves out has a key no
      smaller than any selected one, and is left out only when `n` elements
      were selected. */
  lemma SelectSortedIsEarliest<T(!new)>(c: seq<T>, p: T -> bool, key: T -> int, n: nat)
    ensures forall x :: x in c && p(x) && x !in SelectSorted(c, p, key, n) ==>
      |SelectSorted(c, p, key, n)| == n &&
      forall k :: 0 <= k < |SelectSorted(c, p, key, n)| ==> key(SelectSorted(c, p, key, n)[k]) <= key(x)
  {
    forall x | x in c && p(x) && x !in SelectSorted(c, p, key, n)
      ensures |SelectSorted(c, p, key, n)| == n &&
        forall k :: 0 <= k < |SelectSorted(c, p, key, n)| ==> key(SelectSorted(c, p, key, n)[k]) <= key(x)
    {
      SelectLeavesOutLater(c, p, key, n, x);
    }
  }

  lemma SelectLeavesOutLater<T(!new)>(c: seq<T>, p: T -> bool, key: T -> int, n: nat, x: T)
    requires x in c && p(x) && x !in SelectSorted(c, p, key, n)
    ensures |SelectSorted(c, p, key, n)| == n
    ensures forall k :: 0 <= k < |SelectSorted(c, p, key, n)| ==> key(SelectSorted(c, p, key, n)[k]) <= key(x)
  {
    var s := SortBy(Filter(c, p), key);
    assert x in multiset(s);
    TakeSortedIsEarliest(s, key, n, x);
  }

  /** When every element satisfies `p` and `n` is large enough, the selection is a
      permutation of `c`. */
  lemma SelectSortedKeepsAll<T(!new)>(c: seq<T>, p: T -> bool, key: T -> int, n: nat)
    requires forall x :: x in c ==> p(x)
    requires |c| <= n
    ensures multiset(SelectSorted(c, p, key, n)) == multiset(c)
  {
    FilterKeepsAll(c, p);
  }
}
