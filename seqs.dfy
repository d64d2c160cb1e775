/** Sequence helpers: Python slicing, SQL LIMIT, filtering and a stable sort. */
module Seqs {
  import opened Wrappers

  function Min(a: int, b: int): int { if a <= b then a else b }

  /** `s[:n]` in Python: a negative `n` drops `-n` elements from the end. */
  function PySlice<T>(s: seq<T>, n: int): (r: seq<T>)
    ensures |r| <= |s| && r == s[..|r|]
    ensures n >= 0 ==> |r| == Min(n, |s|)
    ensures n < 0 ==> |r| == if |s| + n > 0 then |s| + n else 0
  {
    if n >= 0 then s[..Min(n, |s|)]
    else if |s| + n > 0 then s[..|s| + n]
    else []
  }

  /** `LIMIT n` in SQLite: a negative limit means no limit. */
  function SqlLimit<T>(s: seq<T>, n: int): (r: seq<T>)
    ensures |r| <= |s| && r == s[..|r|]
    ensures |r| == if n < 0 then |s| else Min(n, |s|)
  {
    if n < 0 then s else s[..Min(n, |s|)]
  }

  function Filter<T>(s: seq<T>, p: T -> bool): (r: seq<T>)
    ensures |r| <= |s|
    ensures forall x :: x in r ==> x in s && p(x)
    ensures forall x :: x in s && p(x) ==> x in r
  {
    if s == [] then []
    else if p(s[0]) then [s[0]] + Filter(s[1..], p)
    else Filter(s[1..], p)
  }

  lemma FilterAppend<T>(a: seq<T>, b: seq<T>, p: T -> bool)
    ensures Filter(a + b, p) == Filter(a, p) + Filter(b, p)
  {
    if a != [] {
      assert (a + b)[0] == a[0];
      assert (a + b)[1..] == a[1..] + b;
      FilterAppend(a[1..], b, p);
    } else {
      assert a + b == b;
    }
  }

  /** Filtering changes nothing exactly when every element passes. */
  lemma {:induction false} FilterAllKept<T>(s: seq<T>, p: T -> bool)
    ensures (forall x :: x in s ==> p(x)) <==> Filter(s, p) == s
  {
    if s != [] {
      FilterAllKept(s[1..], p);
      if !p(s[0]) {
        assert |Filter(s, p)| <= |s[1..]| < |s|;
      } else if Filter(s, p) == s {
        assert Filter(s[1..], p) == s[1..];
      }
    }
  }

  /** The index of the first element satisfying `p`, scanning from the front. */
  function FindFirst<T>(s: seq<T>, p: T -> bool): (r: Option<nat>)
    ensures r.Some? ==> r.value < |s| && p(s[r.value]) && forall j :: 0 <= j < r.value ==> !p(s[j])
    ensures r.None? ==> forall j :: 0 <= j < |s| ==> !p(s[j])
  {
    if s == [] then None
    else if p(s[0]) then Some(0)
    else match FindFirst(s[1..], p)
      case None => None
      case Some(k) => Some(k + 1)
  }

  /** `before(a, b)`: `a` may be placed before `b`. */
  ghost predicate Total<T(!new)>(before: (T, T) -> bool)
  {
    forall a, b :: before(a, b) || before(b, a)
  }

  ghost predicate Transitive<T(!new)>(before: (T, T) -> bool)
  {
    forall a, b, c :: before(a, b) && before(b, c) ==> before(a, c)
  }

  ghost predicate Sorted<T>(s: seq<T>, before: (T, T) -> bool)
  {
    forall i, j :: 0 <= i < j < |s| ==> before(s[i], s[j])
  }

  /** Places `x` in front of the first element it may precede. */
  function Insert<T>(x: T, s: seq<T>, before: (T, T) -> bool): (r: seq<T>)
    ensures multiset(r) == multiset(s) + multiset{x}
    ensures |r| == |s| + 1
  {
    if s == [] || before(x, s[0]) then [x] + s
    else
      assert s == [s[0]] + s[1..];
      [s[0]] + Insert(x, s[1..], before)
  }

  /**
   * Insertion sort. It is stable: an element is put in front of every later element it
   * may precede, so elements that tie keep their input order, as Python's `sorted` does
   * (also with `reverse=True`).
   */
  function SortBy<T>(s: seq<T>, before: (T, T) -> bool): (r: seq<T>)
    ensures multiset(r) == multiset(s)
    ensures |r| == |s|
  {
    if s == [] then []
    else
      assert s == [s[0]] + s[1..];
      Insert(s[0], SortBy(s[1..], before), before)
  }

  lemma {:induction false} InsertSorted<T(!new)>(x: T, s: seq<T>, before: (T, T) -> bool)
    requires Total(before) && Transitive(before)
    requires Sorted(s, before)
    ensures Sorted(Insert(x, s, before), before)
  {
    if s == [] || before(x, s[0]) {
    } else {
      var t := Insert(x, s[1..], before);
      InsertSorted(x, s[1..], before);
      assert before(s[0], x);
      forall k | 0 <= k < |t| ensures before(s[0], t[k]) {
        assert t[k] in multiset(t);
        assert t[k] == x || t[k] in multiset(s[1..]);
        if t[k] != x {
          var j :| 0 <= j < |s[1..]| && s[1..][j] == t[k];
          assert s[j + 1] == t[k];
        }
      }
    }
  }

  /** With a total, transitive `before`, the sort's output respects `before` everywhere. */
  lemma {:induction false} SortBySorted<T(!new)>(s: seq<T>, before: (T, T) -> bool)
    requires Total(before) && Transitive(before)
    ensures Sorted(SortBy(s, before), before)
  {
    if s != [] {
      SortBySorted(s[1..], before);
      InsertSorted(s[0], SortBy(s[1..], before), before);
    }
  }

  /** Filtering keeps the relative order, so it keeps a sorted sequence sorted. */
  lemma {:induction false} FilterSorted<T>(s: seq<T>, p: T -> bool, before: (T, T) -> bool)
    requires Sorted(s, before)
    ensures Sorted(Filter(s, p), before)
  {
    if s != [] {
      FilterSorted(s[1..], p, before);
      var t := Filter(s[1..], p);
      if p(s[0]) {
        forall k | 0 <= k < |t| ensures before(s[0], t[k]) {
          assert t[k] in t;
          var j :| 0 <= j < |s[1..]| && s[1..][j] == t[k];
          assert s[j + 1] == t[k];
        }
      }
    }
  }

  /** `sorted(s, key)[:n]` under SQL LIMIT rules: sort stably, then keep the first `n` (all when `n < 0`). */
  function TopN<T>(s: seq<T>, before: (T, T) -> bool, n: int): (r: seq<T>)
    ensures |r| == if n < 0 then |s| else Min(n, |s|)
    ensures forall x :: x in r ==> x in s
  {
    var sorted := SortBy(s, before);
    var r := SqlLimit(sorted, n);
    forall x | x in r ensures x in s {
      var i :| 0 <= i < |r| && r[i] == x;
      assert sorted[i] == x;
      assert x in multiset(sorted);
    }
    r
  }

  lemma TopNSorted<T(!new)>(s: seq<T>, before: (T, T) -> bool, n: int)
    requires Total(before) && Transitive(before)
    ensures Sorted(TopN(s, before, n), before)
  {
    SortBySorted(s, before);
  }

  /** No two elements share a key. */
  predicate DistinctBy<T, K(==)>(s: seq<T>, key: T -> K)
  {
    forall i, j :: 0 <= i < j < |s| ==> key(s[i]) != key(s[j])
  }

  lemma {:induction false} InsertDistinct<T, K>(x: T, s: seq<T>, before: (T, T) -> bool, key: T -> K)
    requires DistinctBy(s, key)
    requires forall k :: 0 <= k < |s| ==> key(s[k]) != key(x)
    ensures DistinctBy(Insert(x, s, before), key)
  {
    if s != [] && !before(x, s[0]) {
      var t := Insert(x, s[1..], before);
      InsertDistinct(x, s[1..], before, key);
      var r := [s[0]] + t;
      forall b | 1 <= b < |r| ensures key(r[0]) != key(r[b]) {
        assert r[b] == t[b - 1] && t[b - 1] in multiset(t);
        if r[b] != x {
          assert r[b] in multiset(s[1..]);
          var y :| 0 <= y < |s[1..]| && s[1..][y] == r[b];
          assert s[y + 1] == r[b];
        }
      }
      forall a, b | 0 <= a < b < |r| ensures key(r[a]) != key(r[b]) {
        if a > 0 {
          assert r[a] == t[a - 1] && r[b] == t[b - 1];
        }
      }
    }
  }

  /** Sorting rearranges elements without duplicating any, so distinct keys stay distinct. */
  lemma {:induction false} SortByDistinct<T, K>(s: seq<T>, before: (T, T) -> bool, key: T -> K)
    requires DistinctBy(s, key)
    ensures DistinctBy(SortBy(s, before), key)
  {
    if s != [] {
      var t := SortBy(s[1..], before);
      SortByDistinct(s[1..], before, key);
      forall k | 0 <= k < |t| ensures key(t[k]) != key(s[0]) {
        assert t[k] in multiset(s[1..]);
        var y :| 0 <= y < |s[1..]| && s[1..][y] == t[k];
        assert s[y + 1] == t[k];
      }
      InsertDistinct(s[0], t, before, key);
    }
  }

  lemma SortedPrefix<T>(s: seq<T>, n: nat, before: (T, T) -> bool)
    requires Sorted(s, before) && n <= |s|
    ensures Sorted(s[..n], before)
  {
  }
}
