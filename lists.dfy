/** Sequence operations the source performs with `filter`, `reduce`, `splice` and `findIndex`. */
module Lists {

  /** `s.filter(p)`: the elements of `s` that satisfy `p`, in their original order. */
  function Filter<T(!new)>(p: T -> bool, s: seq<T>): (r: seq<T>)
    ensures |r| <= |s|
    ensures forall x :: x in r <==> x in s && p(x)
  {
    if s == [] then [] else (if p(s[0]) then [s[0]] else []) + Filter(p, s[1..])
  }

  /** Filtering distributes over concatenation (with the singleton case of the
      definition, this pins the filter down completely: it keeps order). */
  lemma {:induction false} FilterAppend<T(!new)>(p: T -> bool, a: seq<T>, b: seq<T>)
    ensures Filter(p, a + b) == Filter(p, a) + Filter(p, b)
  {
    if a == [] {
      assert a + b == b;
    } else {
      assert (a + b)[1..] == a[1..] + b;
      FilterAppend(p, a[1..], b);
    }
  }

  /** A sequence whose every element passes the predicate is kept whole. */
  lemma {:induction false} FilterKeepsAll<T(!new)>(p: T -> bool, s: seq<T>)
    requires forall i :: 0 <= i < |s| ==> p(s[i])
    ensures Filter(p, s) == s
  {
    if s != [] {
      FilterKeepsAll(p, s[1..]);
    }
  }

  /** Filtering twice with the same predicate is filtering once. */
  lemma FilterIdempotent<T(!new)>(p: T -> bool, s: seq<T>)
    ensures Filter(p, Filter(p, s)) == Filter(p, s)
  {
    var r := Filter(p, s);
    forall i | 0 <= i < |r| ensures p(r[i]) {
      assert r[i] in r;
    }
    FilterKeepsAll(p, r);
  }

  /** `reduce((total, x) => total + x, 0)` over amounts. */
  function Sum(s: seq<nat>): nat
  {
    if s == [] then 0 else s[0] + Sum(s[1..])
  }

  lemma {:induction false} SumAppend(a: seq<nat>, b: seq<nat>)
    ensures Sum(a + b) == Sum(a) + Sum(b)
  {
    if a == [] {
      assert a + b == b;
    } else {
      assert (a + b)[1..] == a[1..] + b;
      SumAppend(a[1..], b);
    }
  }

  /** `copy.splice(i, 1)` for a non-negative index: removes the element at `i`,
      and leaves the sequence as it is when `i` is past the end. */
  function SpliceOut<T>(s: seq<T>, i: nat): (r: seq<T>)
    ensures i < |s| ==> |r| == |s| - 1
    ensures i < |s| ==> forall k :: 0 <= k < i ==> r[k] == s[k]
    ensures i < |s| ==> forall k :: i <= k < |r| ==> r[k] == s[k + 1]
    ensures i >= |s| ==> r == s
  {
    if i < |s| then s[..i] + s[i + 1..] else s
  }

  /** `s.findIndex(y => y == x)`: the first index holding `x`, or -1. */
  function FindIndex<T(==)>(s: seq<T>, x: T): (r: int)
    ensures r == -1 <==> x !in s
    ensures r != -1 ==> 0 <= r < |s| && s[r] == x && x !in s[..r]
  {
    if s == [] then -1
    else if s[0] == x then 0
    else
      var r := FindIndex(s[1..], x);
      assert s[1..][..if r == -1 then 0 else r] == s[1..if r == -1 then 1 else r + 1];
      if r == -1 then -1 else r + 1
  }

  /** The element at `k` is the first occurrence of its value exactly when it
      does not occur earlier. */
  lemma FirstOccurrence<T>(s: seq<T>, k: nat)
    requires k < |s|
    ensures FindIndex(s, s[k]) == k <==> s[k] !in s[..k]
  {
    var r := FindIndex(s, s[k]);
    assert s[k] in s;
    if r < k {
      assert s[..k][r] == s[k];
    }
  }

  predicate NoDuplicates<T(==)>(s: seq<T>)
  {
    forall i, j :: 0 <= i < j < |s| ==> s[i] != s[j]
  }

  /** Two sequences joined have no duplicates exactly when each has none
      and no element is in both. */
  lemma NoDuplicatesAppend<T>(a: seq<T>, b: seq<T>)
    ensures NoDuplicates(a + b) <==>
      NoDuplicates(a) && NoDuplicates(b) && forall i, j :: 0 <= i < |a| && 0 <= j < |b| ==> a[i] != b[j]
  {
    if NoDuplicates(a + b) {
      forall i, j | 0 <= i < |a| && 0 <= j < |b|
        ensures a[i] != b[j]
      {
        assert (a + b)[i] == a[i] && (a + b)[|a| + j] == b[j];
      }
      forall i, j | 0 <= i < j < |b|
        ensures b[i] != b[j]
      {
        assert (a + b)[|a| + i] == b[i] && (a + b)[|a| + j] == b[j];
      }
      forall i, j | 0 <= i < j < |a|
        ensures a[i] != a[j]
      {
        assert (a + b)[i] == a[i] && (a + b)[j] == a[j];
      }
    }
  }

  /** The elements among the first `n` of `s` kept by
      `filter((x, index, self) => index === self.findIndex(y => y == x))`. */
  function KeepFirsts<T(==,!new)>(s: seq<T>, n: nat): (r: seq<T>)
    requires n <= |s|
    ensures NoDuplicates(r)
    ensures forall x :: x in r <==> x in s[..n]
  {
    if n == 0 then []
    else
      var prev := KeepFirsts(s, n - 1);
      FirstOccurrence(s, n - 1);
      assert s[..n] == s[..n - 1] + [s[n - 1]];
      prev + (if FindIndex(s, s[n - 1]) == n - 1 then [s[n - 1]] else [])
  }

  /** De-duplication keeping the first occurrence of every value. */
  function Dedup<T(==,!new)>(s: seq<T>): (r: seq<T>)
    ensures NoDuplicates(r)
    ensures forall x :: x in r <==> x in s
  {
    assert s[..|s|] == s;
    KeepFirsts(s, |s|)
  }

  lemma {:induction false} KeepFirstsOfPrefix<T(!new)>(a: seq<T>, b: seq<T>, n: nat)
    requires n <= |a|
    ensures KeepFirsts(a + b, n) == KeepFirsts(a, n)
  {
    if n > 0 {
      KeepFirstsOfPrefix(a, b, n - 1);
      var s := a + b;
      assert s[n - 1] == a[n - 1];
      assert s[..n - 1] == a[..n - 1];
      FirstOccurrence(s, n - 1);
      FirstOccurrence(a, n - 1);
      assert (FindIndex(s, s[n - 1]) == n - 1) == (FindIndex(a, a[n - 1]) == n - 1);
    }
  }

  lemma {:induction false} KeepFirstsGrows<T(!new)>(s: seq<T>, n: nat, m: nat)
    requires n <= m <= |s|
    ensures KeepFirsts(s, n) <= KeepFirsts(s, m)
  {
    if n < m {
      KeepFirstsGrows(s, n, m - 1);
    }
  }

  /** De-duplicating `a + b` starts with the de-duplicated `a`: what comes first
      in the merged list stays first. */
  lemma DedupPrefix<T(!new)>(a: seq<T>, b: seq<T>)
    ensures Dedup(a) <= Dedup(a + b)
  {
    KeepFirstsOfPrefix(a, b, |a|);
    KeepFirstsGrows(a + b, |a|, |a + b|);
  }

  /** A sequence without repetitions is its own de-duplication. */
  lemma {:induction false} KeepFirstsNoDuplicates<T(!new)>(s: seq<T>, n: nat)
    requires n <= |s| && NoDuplicates(s)
    ensures KeepFirsts(s, n) == s[..n]
  {
    if n > 0 {
      KeepFirstsNoDuplicates(s, n - 1);
      FirstOccurrence(s, n - 1);
      assert s[..n] == s[..n - 1] + [s[n - 1]];
    }
  }

  lemma DedupNoDuplicates<T(!new)>(s: seq<T>)
    requires NoDuplicates(s)
    ensures Dedup(s) == s
  {
    KeepFirstsNoDuplicates(s, |s|);
    assert s[..|s|] == s;
  }
}
