/** Sequence operations the storefront takes from JavaScript's arrays:
    `filter`, `slice(0, n)`, `[...new Set(xs)]`, `flatMap` and `sort` with a
    descending numeric comparator. */
module Sequences {

  /** `s.filter(p)`: the elements satisfying `p`, in their original order. */
  function Filter<T(==,!new)>(s: seq<T>, p: T -> bool): (r: seq<T>)
    ensures |r| <= |s|
    ensures forall x :: x in r <==> x in s && p(x)
  {
    if s == [] then [] else (if p(s[0]) then [s[0]] else []) + Filter(s[1..], p)
  }

  /** `a` can be obtained from `b` by deleting elements. */
  predicate IsSubsequence<T(==)>(a: seq<T>, b: seq<T>)
  {
    if a == [] then true
    else if b == [] then false
    else if a[0] == b[0] then IsSubsequence(a[1..], b[1..])
    else IsSubsequence(a, b[1..])
  }

  lemma {:induction false} FilterIsSubsequence<T(!new)>(s: seq<T>, p: T -> bool)
    ensures IsSubsequence(Filter(s, p), s)
  {
    if s != [] {
      FilterIsSubsequence(s[1..], p);
      if p(s[0]) {
        assert Filter(s, p) == [s[0]] + Filter(s[1..], p);
        assert (Filter(s, p))[1..] == Filter(s[1..], p);
      } else {
        assert Filter(s, p) == Filter(s[1..], p);
        SkipHead(Filter(s, p), s);
      }
    }
  }

  /** Dropping the first element of the larger sequence keeps a subsequence
      a subsequence only of the whole; this is the step the greedy match takes. */
  lemma {:induction false} SkipHead<T>(a: seq<T>, b: seq<T>)
    requires b != [] && IsSubsequence(a, b[1..])
    ensures IsSubsequence(a, b)
    decreases |b|, 1
  {
    if a != [] && a[0] == b[0] {
      SubsequenceOfTail(a, b[1..]);
    }
  }

  lemma {:induction false} SubsequenceOfTail<T>(a: seq<T>, b: seq<T>)
    requires a != [] && IsSubsequence(a, b)
    ensures IsSubsequence(a[1..], b)
    decreases |b|, 2
  {
    if b != [] {
      if a[0] == b[0] {
        SkipHead(a[1..], b);
      } else {
        SubsequenceOfTail(a, b[1..]);
        SkipHead(a[1..], b);
      }
    }
  }

  /** Filtering never changes a sequence whose elements all pass. */
  lemma {:induction false} FilterKeepsAll<T(!new)>(s: seq<T>, p: T -> bool)
    requires forall x :: x in s ==> p(x)
    ensures Filter(s, p) == s
  {
    if s != [] {
      FilterKeepsAll(s[1..], p);
      assert s == [s[0]] + s[1..];
    }
  }

  /** Two predicates that agree on the elements give the same filter. */
  lemma {:induction false} FilterAgrees<T(!new)>(s: seq<T>, p: T -> bool, q: T -> bool)
    requires forall x :: x in s ==> p(x) == q(x)
    ensures Filter(s, p) == Filter(s, q)
  {
    if s != [] {
      FilterAgrees(s[1..], p, q);
    }
  }

  /** Filtering twice is filtering once by the conjunction. */
  lemma {:induction false} FilterTwice<T(!new)>(s: seq<T>, p: T -> bool, q: T -> bool, both: T -> bool)
    requires forall x :: x in s ==> both(x) == (p(x) && q(x))
    ensures Filter(Filter(s, p), q) == Filter(s, both)
  {
    if s != [] {
      FilterTwice(s[1..], p, q, both);
      FilterAppend((if p(s[0]) then [s[0]] else []), Filter(s[1..], p), q);
    }
  }

  lemma {:induction false} FilterAppend<T(!new)>(a: seq<T>, b: seq<T>, p: T -> bool)
    ensures Filter(a + b, p) == Filter(a, p) + Filter(b, p)
  {
    if a != [] {
      assert (a + b)[1..] == a[1..] + b;
      FilterAppend(a[1..], b, p);
    } else {
      assert a + b == b;
    }
  }

  /** `s.slice(0, n)` for a non-negative `n`. */
  function Take<T>(s: seq<T>, n: nat): (r: seq<T>)
    ensures |r| == if |s| <= n then |s| else n
    ensures r <= s
    ensures multiset(r) <= multiset(s)
  {
    if |s| <= n then s else assert s == s[..n] + s[n..]; s[..n]
  }

  predicate NoDuplicates<T(==)>(s: seq<T>)
  {
    forall i, j :: 0 <= i < j < |s| ==> s[i] != s[j]
  }

  /** `[...new Set(s)]`: each value once, in the order of its first occurrence
      (a value comes before another when it occurs in `s` before the other's
      first occurrence). */
  function Distinct<T(==,!new)>(s: seq<T>): (r: seq<T>)
    ensures NoDuplicates(r)
    ensures forall x :: x in r <==> x in s
    ensures forall i, j :: 0 <= i < j < |r| ==> exists k :: 0 <= k < |s| && s[k] == r[i] && r[j] !in s[..k]
  {
    if s == [] then []
    else
      var n := |s| - 1;
      var init := s[..n];
      var d := Distinct(init);
      assert forall x :: x in s <==> x in init || x == s[n] by {
        assert s == init + [s[n]];
      }
      var r := if s[n] in d then d else d + [s[n]];
      assert forall i, j :: 0 <= i < j < |r| ==> exists k :: 0 <= k < |s| && s[k] == r[i] && r[j] !in s[..k] by {
        forall i, j | 0 <= i < j < |r|
          ensures exists k :: 0 <= k < |s| && s[k] == r[i] && r[j] !in s[..k]
        {
          var k: int;
          if j < |d| {
            k :| 0 <= k < |init| && init[k] == d[i] && d[j] !in init[..k];
            assert init[..k] == s[..k];
          } else {
            assert r[i] in init;
            k :| 0 <= k < |init| && init[k] == r[i];
            assert r[j] == s[n] && s[n] !in init;
            assert forall y :: y in s[..k] ==> y in init by {
              assert s[..k] == init[..k];
            }
          }
          assert s[k] == r[i] && r[j] !in s[..k];
        }
      }
      r
  }

  /** `ss.flat()`: the concatenation of the inner sequences. */
  function Flatten<T(==,!new)>(ss: seq<seq<T>>): (r: seq<T>)
    ensures forall x :: x in r <==> exists i :: 0 <= i < |ss| && x in ss[i]
  {
    if ss == [] then []
    else
      var rest := Flatten(ss[1..]);
      assert forall x :: (exists i :: 0 <= i < |ss| && x in ss[i]) <==> x in ss[0] || exists i :: 0 <= i < |ss[1..]| && x in ss[1..][i] by {
        forall x | exists i :: 0 <= i < |ss| && x in ss[i]
          ensures x in ss[0] || exists i :: 0 <= i < |ss[1..]| && x in ss[1..][i]
        {
          var i :| 0 <= i < |ss| && x in ss[i];
          if i > 0 { assert x in ss[1..][i - 1]; }
        }
      }
      ss[0] + rest
  }

  /** Sorted so that `key` never increases from left to right. */
  predicate SortedDesc<T>(s: seq<T>, key: T -> int)
  {
    forall i, j :: 0 <= i < j < |s| ==> key(s[i]) >= key(s[j])
  }

  /** Places `x` before the first element whose key is not larger. */
  function InsertDesc<T>(x: T, s: seq<T>, key: T -> int): (r: seq<T>)
    ensures |r| == |s| + 1
  {
    if s == [] || key(s[0]) <= key(x) then [x] + s
    else [s[0]] + InsertDesc(x, s[1..], key)
  }

  lemma {:induction false} InsertDescPermutes<T>(x: T, s: seq<T>, key: T -> int)
    ensures multiset(InsertDesc(x, s, key)) == multiset(s) + multiset{x}
  {
    if !(s == [] || key(s[0]) <= key(x)) {
      InsertDescPermutes(x, s[1..], key);
      assert s == [s[0]] + s[1..];
    }
  }

  lemma {:induction false} InsertDescSorted<T>(x: T, s: seq<T>, key: T -> int)
    requires SortedDesc(s, key)
    ensures SortedDesc(InsertDesc(x, s, key), key)
  {
    if !(s == [] || key(s[0]) <= key(x)) {
      var rest := InsertDesc(x, s[1..], key);
      InsertDescSorted(x, s[1..], key);
      InsertDescPermutes(x, s[1..], key);
      forall k | 0 <= k < |rest| ensures key(s[0]) >= key(rest[k]) {
        assert rest[k] in multiset(rest);
        assert rest[k] == x || rest[k] in s[1..];
      }
      assert InsertDesc(x, s, key) == [s[0]] + rest;
    }
  }

  /** The elements whose key is `k`. */
  function KeyIs<T>(key: T -> int, k: int): T -> bool { (x: T) => key(x) == k }

  /** Inserting `x` puts it in front of every element with its key, so among
      those it comes first and the others keep their order. */
  lemma {:induction false} InsertDescStable<T(!new)>(x: T, s: seq<T>, key: T -> int, k: int)
    ensures Filter(InsertDesc(x, s, key), KeyIs(key, k)) ==
              (if key(x) == k then [x] else []) + Filter(s, KeyIs(key, k))
  {
    var p := KeyIs(key, k);
    if s == [] || key(s[0]) <= key(x) {
      FilterCons(x, s, p);
    } else {
      var ins := InsertDesc(x, s[1..], key);
      InsertDescStable(x, s[1..], key, k);
      FilterCons(s[0], ins, p);
      FilterCons(s[0], s[1..], p);
      assert s == [s[0]] + s[1..];
    }
  }

  /** A stable sort by `key`, largest first: `s.sort((a, b) => key(b) - key(a))`,
      stable as `Array.prototype.sort` is. The first element is inserted last
      and in front of every equal key, so elements with equal keys keep their
      original order. */
  function SortDesc<T(==,!new)>(s: seq<T>, key: T -> int): (r: seq<T>)
    ensures multiset(r) == multiset(s)
    ensures |r| == |s|
    ensures SortedDesc(r, key)
    ensures forall k :: Filter(r, KeyIs(key, k)) == Filter(s, KeyIs(key, k))
  {
    if s == [] then []
    else
      var rest := SortDesc(s[1..], key);
      InsertDescPermutes(s[0], rest, key);
      InsertDescSorted(s[0], rest, key);
      assert s == [s[0]] + s[1..];
      assert forall k :: Filter(InsertDesc(s[0], rest, key), KeyIs(key, k)) == Filter(s, KeyIs(key, k)) by {
        forall k ensures Filter(InsertDesc(s[0], rest, key), KeyIs(key, k)) == Filter(s, KeyIs(key, k)) {
          InsertDescStable(s[0], rest, key, k);
        }
      }
      InsertDesc(s[0], rest, key)
  }

  /** The first `n` of a descending sort: drawn from `s`, no left-out element
      has a larger key than a kept one, and elements with equal keys are the
      first ones of `s` in their order in `s`. */
  lemma TopOfSortDesc<T(!new)>(s: seq<T>, key: T -> int, n: nat)
    ensures forall x :: x in Take(SortDesc(s, key), n) ==> x in s
    ensures forall g, x :: g in s && g !in Take(SortDesc(s, key), n) && x in Take(SortDesc(s, key), n) ==> key(x) >= key(g)
    ensures forall k :: Filter(Take(SortDesc(s, key), n), KeyIs(key, k)) <= Filter(s, KeyIs(key, k))
  {
    var sorted := SortDesc(s, key);
    var r := Take(sorted, n);
    forall k ensures Filter(r, KeyIs(key, k)) <= Filter(s, KeyIs(key, k)) {
      FilterOfPrefix(r, sorted, KeyIs(key, k));
    }
    forall x | x in r ensures x in s {
      assert x in multiset(sorted);
    }
    forall g, x | g in s && g !in r && x in r ensures key(x) >= key(g) {
      assert g in multiset(sorted);
      var j :| 0 <= j < |sorted| && sorted[j] == g;
      var i :| 0 <= i < |r| && r[i] == x;
      assert sorted[i] == x;
      assert i < j;
    }
  }

  /** `Filter` on a list with a known first element. */
  lemma FilterCons<T(!new)>(x: T, s: seq<T>, p: T -> bool)
    ensures Filter([x] + s, p) == (if p(x) then [x] else []) + Filter(s, p)
  {
    assert ([x] + s)[1..] == s;
  }

  /** Filtering a prefix gives a prefix of the filtered whole. */
  lemma {:induction false} FilterOfPrefix<T(!new)>(a: seq<T>, b: seq<T>, p: T -> bool)
    requires a <= b
    ensures Filter(a, p) <= Filter(b, p)
  {
    if a != [] {
      FilterOfPrefix(a[1..], b[1..], p);
    }
  }
}
