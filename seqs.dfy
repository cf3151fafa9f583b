/** Sequence operations shared by the storefront and the admin pages:
    `Array.prototype.filter`, insertion-ordered `Set` de-duplication,
    `reduce` sums and a stable sort. */
module Seqs {

  /** Elements of `s` that satisfy `p`, in their original order (`s.filter(p)`). */
  function Filter<T(!new)>(s: seq<T>, p: T -> bool): (r: seq<T>)
    ensures |r| <= |s|
    ensures forall x :: x in r <==> x in s && p(x)
  {
    if s == [] then []
    else (if p(s[0]) then [s[0]] else []) + Filter(s[1..], p)
  }

  /** `a` is `b` with some elements deleted, the others kept in order. */
  ghost predicate Subseq<T>(a: seq<T>, b: seq<T>)
    decreases |b|
  {
    if b == [] then a == []
    else (a != [] && a[0] == b[0] && Subseq(a[1..], b[1..])) || Subseq(a, b[1..])
  }

  lemma {:induction false} FilterIsSubseq<T(!new)>(s: seq<T>, p: T -> bool)
    ensures Subseq(Filter(s, p), s)
  {
    if s != [] {
      FilterIsSubseq(s[1..], p);
      if p(s[0]) {
        assert Filter(s, p) == [s[0]] + Filter(s[1..], p);
        assert Filter(s, p)[1..] == Filter(s[1..], p);
      } else {
        assert Filter(s, p) == Filter(s[1..], p);
      }
    }
  }

  /** Filtering with a predicate that every element satisfies changes nothing. */
  lemma {:induction false} FilterKeepsAll<T(!new)>(s: seq<T>, p: T -> bool)
    requires forall x :: x in s ==> p(x)
    ensures Filter(s, p) == s
  {
    if s != [] {
      assert s[0] in s;
      forall x | x in s[1..] ensures p(x) { assert x in s; }
      FilterKeepsAll(s[1..], p);
      assert s == [s[0]] + s[1..];
    }
  }

  /** Filtering a concatenation filters each part. */
  lemma {:induction false} FilterAppend<T(!new)>(a: seq<T>, b: seq<T>, p: T -> bool)
    ensures Filter(a + b, p) == Filter(a, p) + Filter(b, p)
  {
    if a == [] {
      assert a + b == b;
    } else {
      assert (a + b)[0] == a[0];
      assert (a + b)[1..] == a[1..] + b;
      FilterAppend(a[1..], b, p);
    }
  }

  /** Filtering with a predicate no element satisfies leaves nothing. */
  lemma FilterNone<T(!new)>(s: seq<T>, p: T -> bool)
    requires forall x :: x in s ==> !p(x)
    ensures Filter(s, p) == []
  {
    if Filter(s, p) != [] {
      assert Filter(s, p)[0] in Filter(s, p);
    }
  }

  /** `s.filter((x) => x.id !== k)` for the key projection `key`. */
  function WithoutKey<T(!new), K(==)>(s: seq<T>, key: T -> K, k: K): seq<T> {
    Filter(s, x => key(x) != k)
  }

  /** No element with key `k` is left, every other element stays in order, and a key that is
      absent changes nothing. */
  lemma WithoutKeySpec<T(!new), K>(s: seq<T>, key: T -> K, k: K)
    ensures forall x :: x in WithoutKey(s, key, k) <==> x in s && key(x) != k
    ensures Subseq(WithoutKey(s, key, k), s)
    ensures (forall x :: x in s ==> key(x) != k) ==> WithoutKey(s, key, k) == s
  {
    FilterIsSubseq(s, x => key(x) != k);
    if forall x :: x in s ==> key(x) != k {
      FilterKeepsAll(s, x => key(x) != k);
    }
  }

  /** Filters with predicates that agree on `s` give the same result. */
  lemma {:induction false} FilterCongruent<T(!new)>(s: seq<T>, p: T -> bool, q: T -> bool)
    requires forall x :: x in s ==> p(x) == q(x)
    ensures Filter(s, p) == Filter(s, q)
  {
    if s != [] {
      assert s[0] in s;
      forall x | x in s[1..] ensures p(x) == q(x) { assert x in s; }
      FilterCongruent(s[1..], p, q);
    }
  }

  /** Two predicates that never hold together split off disjoint parts: their counts add up to
      the count of their disjunction, hence to at most `|s|`. */
  lemma {:induction false} FilterDisjointCount<T(!new)>(s: seq<T>, p: T -> bool, q: T -> bool)
    requires forall x :: !(p(x) && q(x))
    ensures |Filter(s, p)| + |Filter(s, q)| == |Filter(s, x => p(x) || q(x))| <= |s|
  {
    if s != [] {
      FilterDisjointCount(s[1..], p, q);
    }
  }

  /** No element occurs twice. */
  predicate NoDup<T(==)>(s: seq<T>) {
    forall i, j :: 0 <= i < j < |s| ==> s[i] != s[j]
  }

  /** Filtering cannot introduce a duplicate. */
  lemma {:induction false} FilterKeepsNoDup<T(!new)>(s: seq<T>, p: T -> bool)
    requires NoDup(s)
    ensures NoDup(Filter(s, p))
  {
    if s != [] {
      var t := s[1..];
      forall i, j | 0 <= i < j < |t| ensures t[i] != t[j] {
        assert t[i] == s[i + 1] && t[j] == s[j + 1];
      }
      FilterKeepsNoDup(t, p);
      if p(s[0]) {
        forall i | 0 <= i < |t| ensures t[i] != s[0] { assert t[i] == s[i + 1]; }
        assert s[0] !in Filter(t, p);
      }
    }
  }

  lemma {:induction false} NoDupCount<T>(s: seq<T>, x: T)
    requires NoDup(s)
    ensures multiset(s)[x] <= 1
  {
    if s != [] {
      var t := s[1..];
      assert s == [s[0]] + t;
      forall i, j | 0 <= i < j < |t| ensures t[i] != t[j] {
        assert t[i] == s[i + 1] && t[j] == s[j + 1];
      }
      NoDupCount(t, x);
      if s[0] == x {
        forall i | 0 <= i < |t| ensures t[i] != x { assert t[i] == s[i + 1]; }
        assert x !in t;
      }
    }
  }

  /** A permutation of a sequence without duplicates has none either. */
  lemma MultisetNoDup<T>(a: seq<T>, b: seq<T>)
    requires multiset(a) == multiset(b) && NoDup(b)
    ensures NoDup(a)
  {
    forall i, j | 0 <= i < j < |a| ensures a[i] != a[j] {
      if a[i] == a[j] {
        var x := a[i];
        assert a == a[..i] + [a[i]] + a[i + 1..j] + [a[j]] + a[j + 1..];
        assert multiset(a)[x] >= 2;
        NoDupCount(b, x);
        assert false;
      }
    }
  }

  /** Position of the first occurrence of `x` in `s`. */
  function IndexOf<T(==)>(s: seq<T>, x: T): (k: nat)
    requires x in s
    ensures k < |s| && s[k] == x
    ensures forall i :: 0 <= i < k ==> s[i] != x
  {
    if s[0] == x then 0 else 1 + IndexOf(s[1..], x)
  }

  lemma {:induction false} IndexOfInPrefix<T>(s: seq<T>, n: nat, x: T)
    requires n <= |s| && x in s[..n]
    ensures x in s && IndexOf(s, x) == IndexOf(s[..n], x)
  {
    if s[0] != x {
      assert s[..n][1..] == s[1..][..n - 1];
      IndexOfInPrefix(s[1..], n - 1, x);
    }
  }

  /** `Array.from(new Set(s))`: each element once, in order of first occurrence. */
  function Dedup<T(==,!new)>(s: seq<T>): (r: seq<T>)
    ensures forall x :: x in r <==> x in s
    ensures NoDup(r)
  {
    if s == [] then []
    else
      var d := Dedup(s[..|s| - 1]);
      assert s == s[..|s| - 1] + [s[|s| - 1]];
      if s[|s| - 1] in d then d else d + [s[|s| - 1]]
  }

  /** The de-duplicated elements appear in the order of their first occurrence in `s`. */
  lemma {:induction false} DedupFirstOccurrenceOrder<T(!new)>(s: seq<T>)
    ensures forall i, j :: 0 <= i < j < |Dedup(s)| ==>
      IndexOf(s, Dedup(s)[i]) < IndexOf(s, Dedup(s)[j])
  {
    if s != [] {
      var n := |s| - 1;
      var pre := s[..n];
      var d := Dedup(pre);
      DedupFirstOccurrenceOrder(pre);
      forall x | x in d ensures x in s && IndexOf(s, x) == IndexOf(pre, x) < n {
        IndexOfInPrefix(s, n, x);
      }
      if s[n] !in d {
        assert Dedup(s) == d + [s[n]];
        LastIndexOf(s);
      } else {
        assert Dedup(s) == d;
      }
    }
  }

  /** An element that does not occur earlier is found at the last position. */
  lemma LastIndexOf<T>(s: seq<T>)
    requires s != [] && s[|s| - 1] !in s[..|s| - 1]
    ensures IndexOf(s, s[|s| - 1]) == |s| - 1
  {
  }

  /** Left fold of `f` over `s`: `s.reduce((acc, x) => acc + f(x), 0)`. */
  function SumOf<T>(s: seq<T>, f: T -> int): int {
    if s == [] then 0 else SumOf(s[..|s| - 1], f) + f(s[|s| - 1])
  }

  lemma {:induction false} SumOfAppend<T>(a: seq<T>, b: seq<T>, f: T -> int)
    ensures SumOf(a + b, f) == SumOf(a, f) + SumOf(b, f)
  {
    if b == [] {
      assert a + b == a;
    } else {
      assert (a + b)[..|a + b| - 1] == a + b[..|b| - 1];
      SumOfAppend(a, b[..|b| - 1], f);
    }
  }

  lemma SumOfSingleton<T>(x: T, f: T -> int)
    ensures SumOf([x], f) == f(x)
  {
    assert [x][..0] == [];
  }

  /** Replacing one element changes the sum by the difference of the two values. */
  lemma SumOfUpdate<T>(s: seq<T>, i: nat, x: T, f: T -> int)
    requires i < |s|
    ensures SumOf(s[i := x], f) == SumOf(s, f) - f(s[i]) + f(x)
  {
    assert s == s[..i] + [s[i]] + s[i + 1..];
    assert s[i := x] == s[..i] + [x] + s[i + 1..];
    SumOfAppend(s[..i] + [s[i]], s[i + 1..], f);
    SumOfAppend(s[..i], [s[i]], f);
    SumOfAppend(s[..i] + [x], s[i + 1..], f);
    SumOfAppend(s[..i], [x], f);
    SumOfSingleton(s[i], f);
    SumOfSingleton(x, f);
  }

  /** The sum over `s` splits into the sum over the elements that satisfy `p` and those that do not. */
  lemma {:induction false} SumOfFilterSplit<T(!new)>(s: seq<T>, p: T -> bool, f: T -> int)
    ensures SumOf(s, f) == SumOf(Filter(s, p), f) + SumOf(Filter(s, x => !p(x)), f)
  {
    if s != [] {
      SumOfFilterSplit(s[1..], p, f);
      assert s == [s[0]] + s[1..];
      SumOfAppend([s[0]], s[1..], f);
      SumOfSingleton(s[0], f);
      var keep := Filter(s[1..], p);
      var drop := Filter(s[1..], x => !p(x));
      if p(s[0]) {
        SumOfAppend([s[0]], keep, f);
        assert Filter(s, x => !p(x)) == drop;
      } else {
        SumOfAppend([s[0]], drop, f);
        assert Filter(s, p) == keep;
      }
    }
  }

  lemma {:induction false} SumOfNonNegative<T>(s: seq<T>, f: T -> int)
    requires forall x :: x in s ==> f(x) >= 0
    ensures SumOf(s, f) >= 0
  {
    if s != [] {
      assert s[|s| - 1] in s;
      forall x | x in s[..|s| - 1] ensures f(x) >= 0 { assert x in s; }
      SumOfNonNegative(s[..|s| - 1], f);
    }
  }

  /** `le` relates every pair one way or the other. */
  ghost predicate Total<T(!new)>(le: (T, T) -> bool) {
    forall a, b :: le(a, b) || le(b, a)
  }

  /** Each element is `le` its successor. */
  predicate SortedBy<T>(s: seq<T>, le: (T, T) -> bool) {
    forall i :: 0 <= i < |s| - 1 ==> le(s[i], s[i + 1])
  }

  /** Inserts `x` before the first element it is `le`, so that `x` precedes the elements it ties with. */
  function Insert<T>(x: T, s: seq<T>, le: (T, T) -> bool): (r: seq<T>)
    ensures |r| == |s| + 1
    ensures multiset(r) == multiset(s) + multiset{x}
    ensures r[0] == x || (s != [] && r[0] == s[0])
  {
    if s == [] then [x]
    else if le(x, s[0]) then [x] + s
    else
      assert s == [s[0]] + s[1..];
      [s[0]] + Insert(x, s[1..], le)
  }

  /** A stable sort: elements that tie under `le` keep their input order. */
  function InsertionSort<T>(s: seq<T>, le: (T, T) -> bool): (r: seq<T>)
    ensures |r| == |s|
    ensures multiset(r) == multiset(s)
  {
    if s == [] then []
    else
      assert s == [s[0]] + s[1..];
      Insert(s[0], InsertionSort(s[1..], le), le)
  }

  lemma {:induction false} InsertSorted<T(!new)>(x: T, s: seq<T>, le: (T, T) -> bool)
    requires Total(le) && SortedBy(s, le)
    ensures SortedBy(Insert(x, s, le), le)
  {
    if s != [] && !le(x, s[0]) {
      InsertSorted(x, s[1..], le);
      assert le(s[0], x);
    }
  }

  lemma {:induction false} InsertionSortSorted<T(!new)>(s: seq<T>, le: (T, T) -> bool)
    requires Total(le)
    ensures SortedBy(InsertionSort(s, le), le)
  {
    if s != [] {
      InsertionSortSorted(s[1..], le);
      InsertSorted(s[0], InsertionSort(s[1..], le), le);
    }
  }

  /** `s.map(f)`. */
  function Map<T, U>(s: seq<T>, f: T -> U): (r: seq<U>)
    ensures |r| == |s|
    ensures forall i :: 0 <= i < |s| ==> r[i] == f(s[i])
  {
    seq(|s|, i requires 0 <= i < |s| => f(s[i]))
  }

  /** Filtering after a map is mapping after the filter, when the two tests agree. */
  lemma {:induction false} FilterMap<T(!new), U(!new)>(s: seq<T>, f: T -> U, p: T -> bool, q: U -> bool)
    requires forall x :: q(f(x)) == p(x)
    ensures Filter(Map(s, f), q) == Map(Filter(s, p), f)
  {
    if s != [] {
      var ms := Map(s, f);
      assert ms[1..] == Map(s[1..], f);
      FilterMap(s[1..], f, p, q);
      if p(s[0]) {
        assert q(ms[0]);
        assert Filter(ms, q) == [ms[0]] + Filter(ms[1..], q);
        assert Filter(s, p) == [s[0]] + Filter(s[1..], p);
        MapAppend([s[0]], Filter(s[1..], p), f);
      } else {
        assert !q(ms[0]);
        assert Filter(ms, q) == Filter(ms[1..], q);
        assert Filter(s, p) == Filter(s[1..], p);
      }
    }
  }

  lemma MapAppend<T, U>(a: seq<T>, b: seq<T>, f: T -> U)
    ensures Map(a + b, f) == Map(a, f) + Map(b, f)
  {
  }

  /** A last element that fails the test does not change the filter. */
  lemma {:induction false} FilterDropLast<T(!new)>(s: seq<T>, p: T -> bool)
    requires |s| > 0 && !p(s[|s| - 1])
    ensures Filter(s[..|s| - 1], p) == Filter(s, p)
  {
    var u := s[..|s| - 1];
    if |s| == 1 {
      assert u == [];
      assert Filter(s, p) == [] + Filter(s[1..], p);
    } else {
      FilterDropLast(s[1..], p);
      assert u[1..] == s[1..][..|s| - 2];
      assert u[0] == s[0];
    }
  }



}
