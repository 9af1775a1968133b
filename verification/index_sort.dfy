/**
 * Sorting by timestamp through an index vector, as `sort_by_timestamp` and
 * `reorder_vectors` do (include/data/tick_data_store.h): the indices are
 * sorted by the timestamp they point at, then every column is read through
 * them. The index sort is a stable insertion sort.
 */
module IndexSort {
  function Range(n: nat): (r: seq<nat>)
    ensures |r| == n && forall i :: 0 <= i < n ==> r[i] == i
  {
    seq(n, i requires 0 <= i < n => i)
  }

  predicate InBounds(idx: seq<nat>, n: nat) {
    forall k :: 0 <= k < |idx| ==> idx[k] < n
  }

  /** The indices are in non-decreasing order of their timestamps. */
  predicate ByTime(idx: seq<nat>, ts: seq<int>)
    requires InBounds(idx, |ts|)
  {
    forall a, b :: 0 <= a < b < |idx| ==> ts[idx[a]] <= ts[idx[b]]
  }

  predicate NonDecreasing(ts: seq<int>) {
    forall a, b :: 0 <= a < b < |ts| ==> ts[a] <= ts[b]
  }

  /** Where index `i` goes: after the leading run of indices whose timestamp is not later. */
  function InsertPos(idx: seq<nat>, i: nat, ts: seq<int>): (p: nat)
    requires InBounds(idx, |ts|) && i < |ts|
    ensures p <= |idx|
  {
    if idx == [] || ts[i] < ts[idx[0]] then 0
    else 1 + InsertPos(idx[1..], i, ts)
  }

  /** Everything before the position is not later than `i`; the entry at it is later. */
  lemma {:induction false} InsertPosSplits(idx: seq<nat>, i: nat, ts: seq<int>)
    requires InBounds(idx, |ts|) && i < |ts|
    ensures var p := InsertPos(idx, i, ts);
      (forall k :: 0 <= k < p ==> ts[idx[k]] <= ts[i])
      && (p < |idx| ==> ts[i] < ts[idx[p]])
  {
    if idx != [] && ts[i] >= ts[idx[0]] {
      InsertPosSplits(idx[1..], i, ts);
      var p := InsertPos(idx, i, ts);
      forall k | 0 <= k < p
        ensures ts[idx[k]] <= ts[i]
      {
        if k > 0 {
          assert idx[k] == idx[1..][k - 1];
        }
      }
    }
  }

  /** Puts index `i` after every index of the leading run whose timestamp is not later. */
  function InsertIndex(idx: seq<nat>, i: nat, ts: seq<int>): (r: seq<nat>)
    requires InBounds(idx, |ts|) && i < |ts|
    ensures InBounds(r, |ts|) && |r| == |idx| + 1
  {
    var p := InsertPos(idx, i, ts);
    var r := idx[..p] + [i] + idx[p..];
    assert forall k :: 0 <= k < |r| ==> r[k] == i || r[k] in idx;
    r
  }

  lemma InsertIndexByTime(idx: seq<nat>, i: nat, ts: seq<int>)
    requires InBounds(idx, |ts|) && i < |ts| && ByTime(idx, ts)
    ensures ByTime(InsertIndex(idx, i, ts), ts)
  {
    var p := InsertPos(idx, i, ts);
    var r := InsertIndex(idx, i, ts);
    InsertPosSplits(idx, i, ts);
    forall a, b | 0 <= a < b < |r|
      ensures ts[r[a]] <= ts[r[b]]
    {
      if b < p {
        assert r[a] == idx[a] && r[b] == idx[b];
      } else if b == p {
        assert r[a] == idx[a] && r[b] == i;
      } else if a < p {
        assert r[a] == idx[a] && r[b] == idx[b - 1];
      } else if a == p {
        assert r[a] == i && r[b] == idx[b - 1];
      } else {
        assert r[a] == idx[a - 1] && r[b] == idx[b - 1];
      }
    }
  }

  /** Inserts the indices 0 .. n-1 one after another. */
  function SortedPrefix(n: nat, ts: seq<int>): (r: seq<nat>)
    requires n <= |ts|
    ensures InBounds(r, |ts|) && |r| == n
  {
    if n == 0 then []
    else InsertIndex(SortedPrefix(n - 1, ts), n - 1, ts)
  }

  lemma {:induction false} SortedPrefixByTime(n: nat, ts: seq<int>)
    requires n <= |ts|
    ensures ByTime(SortedPrefix(n, ts), ts)
  {
    if n > 0 {
      SortedPrefixByTime(n - 1, ts);
      InsertIndexByTime(SortedPrefix(n - 1, ts), n - 1, ts);
    }
  }

  /** `reorder`: the column read through the index vector. */
  function Reorder<T>(col: seq<T>, idx: seq<nat>): (r: seq<T>)
    requires InBounds(idx, |col|)
    ensures |r| == |idx| && forall k :: 0 <= k < |idx| ==> r[k] == col[idx[k]]
  {
    seq(|idx|, k requires 0 <= k < |idx| && InBounds(idx, |col|) => col[idx[k]])
  }

  /** Inserting index `i` adds exactly the element `col[i]` to the reordered column. */
  lemma InsertIndexReorder<T>(col: seq<T>, idx: seq<nat>, i: nat, ts: seq<int>)
    requires InBounds(idx, |ts|) && i < |ts| && |col| == |ts|
    ensures multiset(Reorder(col, InsertIndex(idx, i, ts))) == multiset(Reorder(col, idx)) + multiset{col[i]}
  {
    var p := InsertPos(idx, i, ts);
    var a, b := idx[..p], idx[p..];
    assert Reorder(col, InsertIndex(idx, i, ts)) == Reorder(col, a) + [col[i]] + Reorder(col, b);
    assert Reorder(col, idx) == Reorder(col, a) + Reorder(col, b);
  }

  /** The first `n` indices, sorted, read exactly the first `n` elements of a column. */
  lemma {:induction false} SortedPrefixReorder<T>(col: seq<T>, n: nat, ts: seq<int>)
    requires n <= |ts| == |col|
    ensures multiset(Reorder(col, SortedPrefix(n, ts))) == multiset(col[..n])
  {
    if n > 0 {
      SortedPrefixReorder(col, n - 1, ts);
      InsertIndexReorder(col, SortedPrefix(n - 1, ts), n - 1, ts);
      assert col[..n] == col[..n - 1] + [col[n - 1]];
    }
  }

  /** The sorting permutation of a timestamp column. */
  function SortIndices(ts: seq<int>): (r: seq<nat>)
    ensures InBounds(r, |ts|) && |r| == |ts|
    ensures multiset(r) == multiset(Range(|ts|))
    ensures ByTime(r, ts)
  {
    SortedPrefixByTime(|ts|, ts);
    var r := SortedPrefix(|ts|, ts);
    assert multiset(r) == multiset(Range(|ts|)) by {
      SortedPrefixReorder(Range(|ts|), |ts|, ts);
      assert Reorder(Range(|ts|), r) == r;
      assert Range(|ts|)[..|ts|] == Range(|ts|);
    }
    r
  }

  /** Reading a column through the sorting permutation keeps its elements. */
  lemma SortIndicesPermute<T>(col: seq<T>, ts: seq<int>)
    requires |col| == |ts|
    ensures multiset(Reorder(col, SortIndices(ts))) == multiset(col)
  {
    SortedPrefixReorder(col, |ts|, ts);
    assert col[..|ts|] == col;
  }

  lemma MultisetCancel<T>(a: multiset<T>, b: multiset<T>, x: T)
    requires multiset{x} + a == multiset{x} + b
    ensures a == b
  {
    assert forall y :: a[y] == (multiset{x} + a)[y] - multiset{x}[y];
    assert forall y :: b[y] == (multiset{x} + b)[y] - multiset{x}[y];
  }

  /** The first elements of two non-empty non-decreasing sequences with the same elements agree. */
  lemma HeadsAgree(a: seq<int>, b: seq<int>)
    requires NonDecreasing(a) && NonDecreasing(b) && multiset(a) == multiset(b) && a != []
    ensures b != [] && a[0] == b[0]
  {
    assert a[0] in multiset(b);
    var i :| 0 <= i < |b| && b[i] == a[0];
    assert b[0] in multiset(a);
    var j :| 0 <= j < |a| && a[j] == b[0];
    assert a[0] <= a[j];
    assert b[0] <= b[i];
  }

  /** Two non-decreasing sequences with the same elements are equal. */
  lemma {:induction false} SortedUnique(a: seq<int>, b: seq<int>)
    requires NonDecreasing(a) && NonDecreasing(b) && multiset(a) == multiset(b)
    ensures a == b
    decreases |a|
  {
    if a != [] {
      HeadsAgree(a, b);
      assert multiset(a) == multiset{a[0]} + multiset(a[1..]) by {
        assert a == [a[0]] + a[1..];
      }
      assert multiset(b) == multiset{b[0]} + multiset(b[1..]) by {
        assert b == [b[0]] + b[1..];
      }
      MultisetCancel(multiset(a[1..]), multiset(b[1..]), a[0]);
      SortedUnique(a[1..], b[1..]);
      assert a == [a[0]] + a[1..];
      assert b == [b[0]] + b[1..];
    } else {
      assert |multiset(b)| == 0;
    }
  }
}
