/** Generic list operations that the dashboard's array code is built from:
    `filter`, `map`, `find`, `reduce` for sums, `slice`, and the stable
    `sort` that JavaScript engines perform (ECMAScript 2019 requires
    Array.prototype.sort to be stable). */
module Seqs {

  datatype Option<T> = None | Some(value: T)

  /** `s.filter(p)` */
  function Filter<T>(p: T -> bool, s: seq<T>): (r: seq<T>)
    ensures |r| <= |s|
    ensures forall x :: x in r ==> x in s && p(x)
  {
    if s == [] then [] else (if p(s[0]) then [s[0]] else []) + Filter(p, s[1..])
  }

  /** Every element of `s` that satisfies `p` survives the filter. */
  lemma {:induction false} FilterKeeps<T>(p: T -> bool, s: seq<T>, x: T)
    requires x in s && p(x)
    ensures x in Filter(p, s)
  {
    if s[0] != x {
      FilterKeeps(p, s[1..], x);
    }
  }

  lemma {:induction false} FilterConcat<T>(p: T -> bool, a: seq<T>, b: seq<T>)
    ensures Filter(p, a + b) == Filter(p, a) + Filter(p, b)
  {
    if a != [] {
      assert (a + b)[0] == a[0] && (a + b)[1..] == a[1..] + b;
      FilterConcat(p, a[1..], b);
    } else {
      assert a + b == b;
    }
  }

  /** The filter keeps exactly the elements that satisfy `p`. */
  lemma FilterIn<T>(p: T -> bool, s: seq<T>)
    ensures forall x :: x in Filter(p, s) <==> x in s && p(x)
  {
    forall x | x in s && p(x) ensures x in Filter(p, s) {
      FilterKeeps(p, s, x);
    }
  }

  lemma FilterSingle<T>(p: T -> bool, x: T)
    ensures Filter(p, [x]) == if p(x) then [x] else []
  {
    assert [x][1..] == [];
  }

  /** A filter that every element passes is the identity. */
  lemma {:induction false} FilterAll<T>(p: T -> bool, s: seq<T>)
    requires forall i :: 0 <= i < |s| ==> p(s[i])
    ensures Filter(p, s) == s
  {
    if s != [] {
      FilterAll(p, s[1..]);
    }
  }

  /** A filter that no element passes is empty. */
  lemma {:induction false} FilterNone<T>(p: T -> bool, s: seq<T>)
    requires forall i :: 0 <= i < |s| ==> !p(s[i])
    ensures Filter(p, s) == []
  {
    if s != [] {
      FilterNone(p, s[1..]);
    }
  }

  /** Filtering keeps each passing element as often as it occurs. */
  lemma {:induction false} FilterMultiset<T>(p: T -> bool, s: seq<T>, x: T)
    ensures multiset(Filter(p, s))[x] == if p(x) then multiset(s)[x] else 0
  {
    if s != [] {
      FilterMultiset(p, s[1..], x);
      assert s == [s[0]] + s[1..];
    }
  }

  /** Filters with the same verdict on every element give the same result. */
  lemma {:induction false} FilterCongruent<T>(p: T -> bool, q: T -> bool, s: seq<T>)
    requires forall i :: 0 <= i < |s| ==> p(s[i]) == q(s[i])
    ensures Filter(p, s) == Filter(q, s)
  {
    if s != [] {
      FilterCongruent(p, q, s[1..]);
    }
  }

  /** Filtering twice is filtering by both tests. */
  lemma {:induction false} FilterFilter<T>(p: T -> bool, q: T -> bool, s: seq<T>)
    ensures Filter(q, Filter(p, s)) == Filter(x => p(x) && q(x), s)
  {
    if s != [] {
      FilterFilter(p, q, s[1..]);
      FilterConcat(q, if p(s[0]) then [s[0]] else [], Filter(p, s[1..]));
    }
  }

  /** Filtering mapped values is mapping the elements whose image passes. */
  lemma {:induction false} FilterMap<T, U>(p: U -> bool, f: T -> U, s: seq<T>)
    ensures Filter(p, MapSeq(f, s)) == MapSeq(f, Filter(x => p(f(x)), s))
  {
    if s != [] {
      FilterMap(p, f, s[1..]);
      assert MapSeq(f, s) == [f(s[0])] + MapSeq(f, s[1..]);
      assert MapSeq(f, s)[1..] == MapSeq(f, s[1..]);
      var t := Filter(x => p(f(x)), s[1..]);
      if p(f(s[0])) {
        assert Filter(x => p(f(x)), s) == [s[0]] + t;
        assert MapSeq(f, [s[0]] + t) == [f(s[0])] + MapSeq(f, t) by {
          assert ([s[0]] + t)[1..] == t;
        }
      }
    }
  }

  /** `r` is obtained from `s` by deleting elements, keeping the order. */
  predicate IsSubsequence<T(==)>(r: seq<T>, s: seq<T>)
    decreases |s|
  {
    if r == [] then true
    else if s == [] then false
    else if r[0] == s[0] then IsSubsequence(r[1..], s[1..])
    else IsSubsequence(r, s[1..])
  }

  lemma {:induction false} SubsequenceOfTail<T>(r: seq<T>, s: seq<T>)
    requires s != [] && IsSubsequence(r, s[1..])
    ensures IsSubsequence(r, s)
    decreases |s|, 0
  {
    if r != [] && r[0] == s[0] {
      SubsequenceDropHead(r, s[1..]);
    }
  }

  lemma {:induction false} SubsequenceDropHead<T>(r: seq<T>, t: seq<T>)
    requires r != [] && IsSubsequence(r, t)
    ensures IsSubsequence(r[1..], t)
    decreases |t|, 1
  {
    if r[0] == t[0] {
      SubsequenceOfTail(r[1..], t);
    } else {
      SubsequenceDropHead(r, t[1..]);
      SubsequenceOfTail(r[1..], t);
    }
  }

  lemma {:induction false} FilterIsSubsequence<T>(p: T -> bool, s: seq<T>)
    ensures IsSubsequence(Filter(p, s), s)
  {
    if s != [] {
      FilterIsSubsequence(p, s[1..]);
      if p(s[0]) {
        assert Filter(p, s) == [s[0]] + Filter(p, s[1..]);
        assert Filter(p, s)[1..] == Filter(p, s[1..]);
      } else {
        assert Filter(p, s) == Filter(p, s[1..]);
        SubsequenceOfTail(Filter(p, s[1..]), s);
      }
    }
  }

  /** `s.map(f)` */
  function MapSeq<T, U>(f: T -> U, s: seq<T>): (r: seq<U>)
    ensures |r| == |s|
    ensures forall i :: 0 <= i < |s| ==> r[i] == f(s[i])
  {
    if s == [] then [] else [f(s[0])] + MapSeq(f, s[1..])
  }

  lemma {:induction false} MapConcat<T, U>(f: T -> U, a: seq<T>, b: seq<T>)
    ensures MapSeq(f, a + b) == MapSeq(f, a) + MapSeq(f, b)
  {
  }

  /** `s.reduce((sum, x) => sum + f(x), 0)` */
  function SumBy<T>(s: seq<T>, f: T -> int): int
  {
    if s == [] then 0 else f(s[0]) + SumBy(s[1..], f)
  }

  lemma {:induction false} SumCongruent<T>(s: seq<T>, f: T -> int, g: T -> int)
    requires forall i :: 0 <= i < |s| ==> f(s[i]) == g(s[i])
    ensures SumBy(s, f) == SumBy(s, g)
  {
    if s != [] {
      SumCongruent(s[1..], f, g);
    }
  }

  lemma {:induction false} SumConcat<T>(a: seq<T>, b: seq<T>, f: T -> int)
    ensures SumBy(a + b, f) == SumBy(a, f) + SumBy(b, f)
  {
    if a != [] {
      assert (a + b)[0] == a[0] && (a + b)[1..] == a[1..] + b;
      SumConcat(a[1..], b, f);
    } else {
      assert a + b == b;
    }
  }

  /** `f` where `p` holds and 0 elsewhere. */
  function Masked<T>(p: T -> bool, f: T -> int): T -> int
  {
    x => if p(x) then f(x) else 0
  }

  /** Summing over a filter is summing the terms of the passing elements. */
  lemma {:induction false} SumFilter<T>(p: T -> bool, s: seq<T>, f: T -> int)
    ensures SumBy(Filter(p, s), f) == SumBy(s, Masked(p, f))
  {
    if s != [] {
      SumFilter(p, s[1..], f);
      SumConcat(if p(s[0]) then [s[0]] else [], Filter(p, s[1..]), f);
    }
  }

  /** The index `findIndex` reports: the first element satisfying `p`. */
  function FindIndex<T>(p: T -> bool, s: seq<T>): (r: Option<nat>)
    ensures r.Some? ==> r.value < |s| && p(s[r.value])
    ensures r.Some? ==> forall j :: 0 <= j < r.value ==> !p(s[j])
    ensures r.None? <==> forall j :: 0 <= j < |s| ==> !p(s[j])
  {
    if s == [] then None
    else if p(s[0]) then Some(0)
    else match FindIndex(p, s[1..])
      case None => None
      case Some(i) => Some(i + 1)
  }

  /** `s.find(p)`: the first element satisfying `p`, if there is one. */
  function Find<T>(p: T -> bool, s: seq<T>): (r: Option<T>)
    ensures r.Some? ==> r.value in s && p(r.value)
    ensures r.None? <==> forall x :: x in s ==> !p(x)
    ensures r.Some? ==> exists i :: 0 <= i < |s| && s[i] == r.value && forall j :: 0 <= j < i ==> !p(s[j])
  {
    match FindIndex(p, s)
    case None => None
    case Some(i) => Some(s[i])
  }

  /** `s.map(x => p(x) ? f(x) : x)`: replace exactly the targeted elements. */
  function ReplaceWhere<T>(p: T -> bool, f: T -> T, s: seq<T>): (r: seq<T>)
    ensures |r| == |s|
    ensures forall i :: 0 <= i < |s| && !p(s[i]) ==> r[i] == s[i]
    ensures forall i :: 0 <= i < |s| && p(s[i]) ==> r[i] == f(s[i])
  {
    if s == [] then [] else [if p(s[0]) then f(s[0]) else s[0]] + ReplaceWhere(p, f, s[1..])
  }

  /** `s.slice(-n)` for n > 0: the last n elements, or all of them. */
  function LastN<T>(s: seq<T>, n: nat): (r: seq<T>)
    ensures |r| == if |s| <= n then |s| else n
    ensures s == s[..|s| - |r|] + r
  {
    if |s| <= n then s else s[|s| - n..]
  }

  /** `s.slice(0, n)`: the first n elements, or all of them. */
  function Take<T>(s: seq<T>, n: nat): (r: seq<T>)
    ensures |r| == if |s| <= n then |s| else n
    ensures s == r + s[|r|..]
  {
    if |s| <= n then s else s[..n]
  }

  // ---------------------------------------------------------------------
  // Stable sorting by an integer key.  `[...s].sort((a, b) => key(a) - key(b))`
  // is modelled by insertion sort, which is stable in the same sense.

  /** Puts `x` before the first element whose key is not smaller. */
  function Insert<T>(x: T, s: seq<T>, key: T -> int): (r: seq<T>)
    ensures |r| == |s| + 1
    ensures multiset(r) == multiset(s) + multiset{x}
  {
    if s == [] then [x]
    else if key(x) <= key(s[0]) then [x] + s
    else
      assert s == [s[0]] + s[1..];
      [s[0]] + Insert(x, s[1..], key)
  }

  function SortBy<T>(s: seq<T>, key: T -> int): (r: seq<T>)
    ensures |r| == |s|
    ensures multiset(r) == multiset(s)
  {
    if s == [] then []
    else
      assert s == [s[0]] + s[1..];
      Insert(s[0], SortBy(s[1..], key), key)
  }

  predicate SortedBy<T>(s: seq<T>, key: T -> int)
  {
    forall i, j :: 0 <= i < j < |s| ==> key(s[i]) <= key(s[j])
  }

  /** Inserting an element that respects a lower bound keeps the bound. */
  lemma {:induction false} InsertLowerBound<T>(x: T, s: seq<T>, key: T -> int, b: int)
    requires key(x) >= b
    requires forall i :: 0 <= i < |s| ==> key(s[i]) >= b
    ensures forall i :: 0 <= i < |s| + 1 ==> key(Insert(x, s, key)[i]) >= b
  {
    if s != [] && key(x) > key(s[0]) {
      InsertLowerBound(x, s[1..], key, b);
    }
  }

  lemma {:induction false} InsertSorted<T>(x: T, s: seq<T>, key: T -> int)
    requires SortedBy(s, key)
    ensures SortedBy(Insert(x, s, key), key)
  {
    if s == [] {
      assert Insert(x, s, key) == [x];
    } else if key(x) <= key(s[0]) {
      assert Insert(x, s, key) == [x] + s;
      ConsSorted(x, s, key);
    } else {
      var t := Insert(x, s[1..], key);
      assert SortedBy(s[1..], key);
      InsertSorted(x, s[1..], key);
      InsertLowerBound(x, s[1..], key, key(s[0]));
      assert Insert(x, s, key) == [s[0]] + t;
      ConsSorted(s[0], t, key);
    }
  }

  /** An element no greater than anything in an ordered list can head it. */
  lemma ConsSorted<T>(a: T, t: seq<T>, key: T -> int)
    requires SortedBy(t, key)
    requires forall i :: 0 <= i < |t| ==> key(a) <= key(t[i])
    ensures SortedBy([a] + t, key)
  {
    var r := [a] + t;
    forall i, j | 0 <= i < j < |r| ensures key(r[i]) <= key(r[j]) {
      assert r[j] == t[j - 1];
      if i > 0 {
        assert r[i] == t[i - 1];
      }
    }
  }

  /** The sort yields a key-ordered permutation of its input. */
  lemma {:induction false} SortBySorted<T>(s: seq<T>, key: T -> int)
    ensures SortedBy(SortBy(s, key), key)
  {
    if s != [] {
      SortBySorted(s[1..], key);
      InsertSorted(s[0], SortBy(s[1..], key), key);
    }
  }

  /** Cut from a key-ordered list, the first `n` elements hold the smallest
      keys: nothing left out has a smaller key than the last one kept. */
  lemma TakeSorted<T>(s: seq<T>, key: T -> int, n: nat)
    requires SortedBy(s, key)
    ensures var r := Take(s, n);
      r != [] ==> forall a :: a in multiset(s) - multiset(r) ==> key(r[|r| - 1]) <= key(a)
  {
    var r := Take(s, n);
    assert multiset(s) - multiset(r) == multiset(s[|r|..]) by {
      assert s == r + s[|r|..];
    }
    if r != [] {
      assert r[|r| - 1] == s[|r| - 1];
      SortedSuffixAfter(s, key, |r|);
    }
  }

  /** In a key-ordered list, nothing after the first `n` elements has a
      smaller key than the n-th. */
  lemma SortedSuffixAfter<T>(s: seq<T>, key: T -> int, n: nat)
    requires SortedBy(s, key) && 0 < n <= |s|
    ensures forall a :: a in multiset(s[n..]) ==> key(s[n - 1]) <= key(a)
  {
    forall a | a in multiset(s[n..])
      ensures key(s[n - 1]) <= key(a)
    {
      var k :| 0 <= k < |s[n..]| && s[n..][k] == a;
      assert s[n + k] == a;
    }
  }

  /** The elements whose key is `k`. */
  function KeyIs<T>(key: T -> int, k: int): T -> bool
  {
    y => key(y) == k
  }

  /** Inserting `x` changes the elements of key `k`, in order, only by putting
      `x` in front of them when `x` has key `k` itself. */
  lemma {:induction false} InsertStable<T>(x: T, s: seq<T>, key: T -> int, k: int)
    ensures Filter(KeyIs(key, k), Insert(x, s, key))
         == (if key(x) == k then [x] else []) + Filter(KeyIs(key, k), s)
  {
    var p := KeyIs(key, k);
    FilterSingle(p, x);
    if s == [] {
      assert Insert(x, s, key) == [x];
    } else if key(x) <= key(s[0]) {
      assert Insert(x, s, key) == [x] + s;
      FilterConcat(p, [x], s);
    } else {
      InsertStable(x, s[1..], key, k);
      InsertStableSkip(x, s, key, k);
    }
  }

  /** The step of InsertStable where `x` goes past the head of `s`. */
  lemma InsertStableSkip<T>(x: T, s: seq<T>, key: T -> int, k: int)
    requires s != [] && key(x) > key(s[0])
    requires Filter(KeyIs(key, k), Insert(x, s[1..], key))
          == (if key(x) == k then [x] else []) + Filter(KeyIs(key, k), s[1..])
    ensures Filter(KeyIs(key, k), Insert(x, s, key))
         == (if key(x) == k then [x] else []) + Filter(KeyIs(key, k), s)
  {
    var p, front := KeyIs(key, k), if key(x) == k then [x] else [];
    var a, b, t := s[0], s[1..], Insert(x, s[1..], key);
    FilterPastHead(p, a, t, b, front);
    assert Insert(x, s, key) == [a] + t;
    assert [a] + b == s;
  }

  /** An element the filter drops, or one that comes after what the filter
      adds in front, can be put before both sides. */
  lemma FilterPastHead<T>(p: T -> bool, a: T, t: seq<T>, b: seq<T>, front: seq<T>)
    requires Filter(p, t) == front + Filter(p, b)
    requires front == [] || !p(a)
    ensures Filter(p, [a] + t) == front + Filter(p, [a] + b)
  {
    FilterCons(p, a, t);
    FilterCons(p, a, b);
    if p(a) {
      assert front == [];
      assert Filter(p, t) == Filter(p, b);
    } else {
      assert Filter(p, [a] + b) == Filter(p, b);
    }
  }

  /** The filter of a sequence with a given head. */
  lemma FilterCons<T>(p: T -> bool, a: T, t: seq<T>)
    ensures Filter(p, [a] + t) == (if p(a) then [a] else []) + Filter(p, t)
  {
    var u := [a] + t;
    assert u[0] == a && u[1..] == t;
  }

  /** Stability: the elements that share a key keep their input order. */
  lemma {:induction false} SortByStable<T>(s: seq<T>, key: T -> int, k: int)
    ensures Filter(KeyIs(key, k), SortBy(s, key)) == Filter(KeyIs(key, k), s)
  {
    if s != [] {
      SortByStable(s[1..], key, k);
      InsertStable(s[0], SortBy(s[1..], key), key, k);
    }
  }

  /** Sorting an already ordered list leaves it as it is. */
  lemma {:induction false} SortBySortedIdentity<T>(s: seq<T>, key: T -> int)
    requires SortedBy(s, key)
    ensures SortBy(s, key) == s
  {
    if s != [] {
      assert SortedBy(s[1..], key);
      SortBySortedIdentity(s[1..], key);
      assert s == [s[0]] + s[1..];
    }
  }
}
