/** Sequence helpers standing in for Python sets and dicts kept in insertion
    order and for JavaScript `Set`/`Map`. */
module Collections {

  predicate NoDup<T(==)>(s: seq<T>) {
    forall i, j :: 0 <= i < j < |s| ==> s[i] != s[j]
  }

  /** The elements of `s` without repeats, each at the place it was first
      seen: what iterating a JavaScript `Set` or an insertion-ordered dict
      built from `s` yields. */
  function Distinct<T(==)>(s: seq<T>): (r: seq<T>)
    ensures NoDup(r)
    ensures |r| <= |s|
    ensures forall x | x in r :: x in s
    ensures forall x | x in s :: x in r
    decreases |s|
  {
    if s == [] then []
    else
      var d := Distinct(s[..|s| - 1]);
      var x := s[|s| - 1];
      assert s == s[..|s| - 1] + [x];
      if x in d then d else d + [x]
  }

  /** A sequence without repeats is its own Distinct. */
  lemma {:induction false} DistinctOfNoDup<T>(s: seq<T>)
    requires NoDup(s)
    ensures Distinct(s) == s
    decreases |s|
  {
    if s != [] {
      var p := s[..|s| - 1];
      DistinctOfNoDup(p);
      assert s[|s| - 1] !in p;
      assert p + [s[|s| - 1]] == s;
    }
  }

  /** Adding an element already present leaves Distinct unchanged; adding a
      new one appends it. */
  lemma DistinctSnoc<T>(s: seq<T>, x: T)
    ensures Distinct(s + [x]) == if x in s then Distinct(s) else Distinct(s) + [x]
  {
    assert (s + [x])[..|s + [x]| - 1] == s;
  }

  /** The position of the first occurrence of `x`. */
  function IndexOf<T(==)>(s: seq<T>, x: T): (i: nat)
    requires x in s
    ensures i < |s| && s[i] == x
    ensures forall j :: 0 <= j < i ==> s[j] != x
  {
    if s[0] == x then 0 else 1 + IndexOf(s[1..], x)
  }

  /** In a sequence without repeats, IndexOf finds the one position. */
  lemma IndexOfNoDup<T>(s: seq<T>, i: nat)
    requires NoDup(s) && i < |s|
    ensures IndexOf(s, s[i]) == i
  {
  }

  /** How many times `x` occurs. */
  function Count<T(==)>(s: seq<T>, x: T): (n: nat)
    ensures n == multiset(s)[x]
    ensures n > 0 <==> x in s
  {
    if s == [] then 0
    else
      assert s == [s[0]] + s[1..];
      (if s[0] == x then 1 else 0) + Count(s[1..], x)
  }

  lemma CountSnoc<T>(s: seq<T>, x: T, y: T)
    ensures Count(s + [x], y) == Count(s, y) + (if x == y then 1 else 0)
  {
    assert multiset(s + [x]) == multiset(s) + multiset{x};
  }

  /** The elements that satisfy `p`, in order (Python's comprehension with an
      `if`, JavaScript's `filter`). */
  function Filter<T>(s: seq<T>, p: T -> bool): (r: seq<T>)
    ensures |r| <= |s|
    ensures forall i :: 0 <= i < |r| ==> p(r[i])
    ensures forall i :: 0 <= i < |r| ==> r[i] in s
    ensures forall i :: 0 <= i < |s| && p(s[i]) ==> s[i] in r
    decreases |s|
  {
    if s == [] then []
    else (if p(s[0]) then [s[0]] else []) + Filter(s[1..], p)
  }

  lemma {:induction false} FilterAppend<T>(a: seq<T>, b: seq<T>, p: T -> bool)
    ensures Filter(a + b, p) == Filter(a, p) + Filter(b, p)
    decreases |a|
  {
    if a == [] {
      assert a + b == b;
    } else {
      assert (a + b)[0] == a[0];
      assert (a + b)[1..] == a[1..] + b;
      FilterAppend(a[1..], b, p);
    }
  }

  /** Filtering keeps a sequence all of whose elements pass. */
  lemma {:induction false} FilterAll<T>(s: seq<T>, p: T -> bool)
    requires forall i :: 0 <= i < |s| ==> p(s[i])
    ensures Filter(s, p) == s
    decreases |s|
  {
    if s != [] {
      FilterAll(s[1..], p);
    }
  }

  /** The first `n` elements, or all of them when there are fewer (Python's
      `s[:n]`, JavaScript's `slice(0, n)`). */
  function Take<T>(s: seq<T>, n: nat): (r: seq<T>)
    ensures |r| == if n < |s| then n else |s|
    ensures r == s[..|r|]
  {
    if n < |s| then s[..n] else s
  }

  /** `map` over a sequence. */
  function Map<T, U>(s: seq<T>, f: T -> U): (r: seq<U>)
    ensures |r| == |s|
    ensures forall i {:trigger r[i]} :: 0 <= i < |s| ==> r[i] == f(s[i])
  {
    seq(|s|, i requires 0 <= i < |s| => f(s[i]))
  }

  /** Every image is in the mapped sequence, and only images are. */
  lemma MapMembers<T, U>(s: seq<T>, f: T -> U)
    ensures forall i :: 0 <= i < |s| ==> f(s[i]) in Map(s, f)
    ensures forall y | y in Map(s, f) :: exists i :: 0 <= i < |s| && f(s[i]) == y
  {
    forall i | 0 <= i < |s| ensures f(s[i]) in Map(s, f) {
      assert Map(s, f)[i] == f(s[i]);
    }
  }

  lemma MapSnoc<T, U>(s: seq<T>, x: T, f: T -> U)
    ensures Map(s + [x], f) == Map(s, f) + [f(x)]
  {
  }

  /** The first `n` images, built left to right as a loop builds them. */
  function MapPrefix<T, U>(s: seq<T>, f: T -> U, n: nat): (r: seq<U>)
    requires n <= |s|
    ensures |r| == n
  {
    if n == 0 then [] else MapPrefix(s, f, n - 1) + [f(s[n - 1])]
  }

  lemma {:induction false} MapPrefixSpec<T, U>(s: seq<T>, f: T -> U, n: nat)
    requires n <= |s|
    ensures MapPrefix(s, f, n) == Map(s[..n], f)
  {
    if n > 0 {
      MapPrefixSpec(s, f, n - 1);
      assert s[..n] == s[..n - 1] + [s[n - 1]];
      MapSnoc(s[..n - 1], s[n - 1], f);
    }
  }

  lemma MapPrefixAll<T, U>(s: seq<T>, f: T -> U)
    ensures MapPrefix(s, f, |s|) == Map(s, f)
  {
    MapPrefixSpec(s, f, |s|);
    assert s[..|s|] == s;
  }

  /** Adds `x` unless it is already there: Python's `set.add` on a set kept
      as a sequence. */
  function Insert<T(==)>(s: seq<T>, x: T): (r: seq<T>)
    ensures x in r
    ensures forall y | y in r :: y == x || y in s
    ensures forall y | y in s :: y in r
    ensures NoDup(s) ==> NoDup(r)
  {
    if x in s then s else s + [x]
  }

  /** In a sequence without repeats every element occurs once. */
  lemma {:induction false} CountNoDup<T>(s: seq<T>, x: T)
    requires NoDup(s) && x in s
    ensures Count(s, x) == 1
    decreases |s|
  {
    if s[0] == x {
      assert x !in s[1..];
    } else {
      CountNoDup(s[1..], x);
    }
  }

  lemma NoDupFromCounts<T>(s: seq<T>)
    requires forall x | x in multiset(s) :: multiset(s)[x] == 1
    ensures NoDup(s)
  {
    forall i, j | 0 <= i < j < |s| ensures s[i] != s[j] {
      if s[i] == s[j] {
        TwoOccurrences(s, i, j);
      }
    }
  }

  lemma TwoOccurrences<T>(s: seq<T>, i: nat, j: nat)
    requires i < j < |s| && s[i] == s[j]
    ensures multiset(s)[s[i]] >= 2
  {
    assert s == s[..i] + [s[i]] + s[i + 1..j] + [s[j]] + s[j + 1..];
  }

  /** The total of the counts of `keys` in `s`. */
  function SumCounts<T(==)>(keys: seq<T>, s: seq<T>): nat
    decreases |keys|
  {
    if keys == [] then 0 else Count(s, keys[0]) + SumCounts(keys[1..], s)
  }

  lemma {:induction false} SumCountsSnoc<T>(keys: seq<T>, s: seq<T>, x: T)
    ensures SumCounts(keys, s + [x]) == SumCounts(keys, s) + Count(keys, x)
    decreases |keys|
  {
    if keys != [] {
      SumCountsSnoc(keys[1..], s, x);
      assert multiset(s + [x]) == multiset(s) + multiset{x};
    }
  }

  /** Counting every element of `s` once, under keys without repeats that
      cover `s`, totals the length of `s`. */
  lemma {:induction false} SumCountsCover<T>(keys: seq<T>, s: seq<T>)
    requires NoDup(keys)
    requires forall i :: 0 <= i < |s| ==> s[i] in keys
    ensures SumCounts(keys, s) == |s|
    decreases |s|
  {
    if s == [] {
      SumCountsZero(keys, s);
    } else {
      var p := s[..|s| - 1];
      var x := s[|s| - 1];
      assert s == p + [x];
      SumCountsCover(keys, p);
      SumCountsSnoc(keys, p, x);
      CountNoDup(keys, x);
    }
  }

  lemma {:induction false} SumCountsZero<T>(keys: seq<T>, s: seq<T>)
    requires s == []
    ensures SumCounts(keys, s) == 0
    decreases |keys|
  {
    if keys != [] {
      SumCountsZero(keys[1..], s);
    }
  }

  /** The occurrence counts of the distinct elements of `s` add up to `|s|`. */
  lemma SumCountsDistinct<T>(s: seq<T>)
    ensures SumCounts(Distinct(s), s) == |s|
  {
    SumCountsCover(Distinct(s), s);
  }
}
