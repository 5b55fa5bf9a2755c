/** Python's ordering of strings and tuples, and its stable `sorted`/`list.sort`
    with a key (JavaScript's `Array.prototype.sort` is stable as well). */
module Ordering {
  import opened Collections

  /** Lexicographic order on code points: Python's `<` on `str`. */
  predicate StrLt(a: string, b: string)
    decreases |a|
  {
    if a == [] then b != []
    else b != [] && (a[0] < b[0] || (a[0] == b[0] && StrLt(a[1..], b[1..])))
  }

  lemma {:induction false} StrLtIrreflexive(a: string)
    ensures !StrLt(a, a)
    decreases |a|
  {
    if a != [] {
      StrLtIrreflexive(a[1..]);
    }
  }

  lemma {:induction false} StrLtTransitive(a: string, b: string, c: string)
    requires StrLt(a, b) && StrLt(b, c)
    ensures StrLt(a, c)
    decreases |a|
  {
    if a != [] && a[0] == b[0] && b[0] == c[0] {
      StrLtTransitive(a[1..], b[1..], c[1..]);
    }
  }

  lemma {:induction false} StrLtTotal(a: string, b: string)
    ensures a == b || StrLt(a, b) || StrLt(b, a)
    decreases |a|
  {
    if a != [] && b != [] && a[0] == b[0] {
      StrLtTotal(a[1..], b[1..]);
      if a[1..] == b[1..] {
        assert a == [a[0]] + a[1..] && b == [b[0]] + b[1..];
      }
    }
  }

  /** One component of a sort key: a number or a string, as in the tuples
      the Python code sorts by. */
  datatype Atom = Num(n: real) | Text(t: string)

  type Key = seq<Atom>

  /** Numbers before strings; the modelled keys never compare a number with a
      string at the same position. */
  predicate AtomLt(a: Atom, b: Atom) {
    match (a, b)
    case (Num(x), Num(y)) => x < y
    case (Text(x), Text(y)) => StrLt(x, y)
    case (Num(_), Text(_)) => true
    case (Text(_), Num(_)) => false
  }

  /** Lexicographic order on keys: Python's `<` on tuples. */
  predicate KeyLt(a: Key, b: Key)
    decreases |a|
  {
    if a == [] then b != []
    else b != [] && (AtomLt(a[0], b[0]) || (a[0] == b[0] && KeyLt(a[1..], b[1..])))
  }

  predicate KeyLe(a: Key, b: Key) {
    !KeyLt(b, a)
  }

  lemma AtomLtIrreflexive(a: Atom)
    ensures !AtomLt(a, a)
  {
    if a.Text? {
      StrLtIrreflexive(a.t);
    }
  }

  lemma AtomLtTransitive(a: Atom, b: Atom, c: Atom)
    requires AtomLt(a, b) && AtomLt(b, c)
    ensures AtomLt(a, c)
  {
    if a.Text? && b.Text? && c.Text? {
      StrLtTransitive(a.t, b.t, c.t);
    }
  }

  lemma AtomLtTotal(a: Atom, b: Atom)
    ensures a == b || AtomLt(a, b) || AtomLt(b, a)
  {
    if a.Text? && b.Text? {
      StrLtTotal(a.t, b.t);
    }
  }

  lemma {:induction false} KeyLtIrreflexive(a: Key)
    ensures !KeyLt(a, a)
    decreases |a|
  {
    if a != [] {
      AtomLtIrreflexive(a[0]);
      KeyLtIrreflexive(a[1..]);
    }
  }

  lemma {:induction false} KeyLtTransitive(a: Key, b: Key, c: Key)
    requires KeyLt(a, b) && KeyLt(b, c)
    ensures KeyLt(a, c)
    decreases |a|
  {
    if a != [] {
      if AtomLt(a[0], b[0]) && AtomLt(b[0], c[0]) {
        AtomLtTransitive(a[0], b[0], c[0]);
      } else if a[0] == b[0] && b[0] == c[0] {
        KeyLtTransitive(a[1..], b[1..], c[1..]);
      }
    }
  }

  lemma {:induction false} KeyLtTotal(a: Key, b: Key)
    ensures a == b || KeyLt(a, b) || KeyLt(b, a)
    decreases |a|
  {
    if a != [] && b != [] {
      AtomLtTotal(a[0], b[0]);
      if a[0] == b[0] {
        KeyLtTotal(a[1..], b[1..]);
        if a[1..] == b[1..] {
          assert a == [a[0]] + a[1..] && b == [b[0]] + b[1..];
        }
      }
    }
  }

  /** KeyLe is a total preorder (in fact a total order on keys). */
  lemma KeyLeTotal(a: Key, b: Key)
    ensures KeyLe(a, b) || KeyLe(b, a)
    ensures KeyLe(a, b) && KeyLe(b, a) ==> a == b
  {
    KeyLtTotal(a, b);
    if KeyLt(a, b) && KeyLt(b, a) {
      KeyLtTransitive(a, b, a);
      KeyLtIrreflexive(a);
    }
  }

  lemma KeyLeTransitive(a: Key, b: Key, c: Key)
    requires KeyLe(a, b) && KeyLe(b, c)
    ensures KeyLe(a, c)
  {
    if KeyLt(c, a) {
      KeyLtTotal(a, b);
      if KeyLt(a, b) {
        KeyLtTransitive(c, a, b);
      }
    }
  }

  predicate SortedBy<T>(s: seq<T>, key: T -> Key) {
    forall i, j :: 0 <= i < j < |s| ==> KeyLe(key(s[i]), key(s[j]))
  }

  /** Inserts `x` into the sorted `s` after every element whose key is not
      greater than that of `x`. */
  function InsertBy<T>(s: seq<T>, x: T, key: T -> Key): (r: seq<T>)
    ensures multiset(r) == multiset(s) + multiset{x}
    ensures |r| == |s| + 1
    decreases |s|
  {
    if s == [] then [x]
    else if KeyLe(key(s[|s| - 1]), key(x)) then s + [x]
    else
      var p := s[..|s| - 1];
      assert s == p + [s[|s| - 1]];
      InsertBy(p, x, key) + [s[|s| - 1]]
  }

  lemma {:induction false} InsertBySorted<T>(s: seq<T>, x: T, key: T -> Key)
    requires SortedBy(s, key)
    ensures SortedBy(InsertBy(s, x, key), key)
    decreases |s|
  {
    if s != [] {
      var last := s[|s| - 1];
      var r := InsertBy(s, x, key);
      if KeyLe(key(last), key(x)) {
        forall i, j | 0 <= i < j < |r| ensures KeyLe(key(r[i]), key(r[j])) {
          if j == |s| && i < |s| - 1 {
            KeyLeTransitive(key(r[i]), key(last), key(x));
          }
        }
      } else {
        var p := s[..|s| - 1];
        InsertBySorted(p, x, key);
        var q := InsertBy(p, x, key);
        assert r == q + [last];
        forall y | y in q ensures KeyLe(key(y), key(last)) {
          assert y in multiset(q);
          if y != x {
            assert y in p;
          } else {
            KeyLeTotal(key(last), key(x));
          }
        }
        forall i, j | 0 <= i < j < |r| ensures KeyLe(key(r[i]), key(r[j])) {
          if j == |q| {
            assert r[i] == q[i] && q[i] in q;
          } else {
            assert r[i] == q[i] && r[j] == q[j];
          }
        }
      }
    }
  }

  /** Python's `sorted(s, key=key)`, which is stable: an insertion sort that
      inserts each element after the equal-keyed ones already placed. */
  function SortBy<T>(s: seq<T>, key: T -> Key): (r: seq<T>)
    ensures multiset(r) == multiset(s)
    ensures |r| == |s|
    ensures SortedBy(r, key)
    decreases |s|
  {
    if s == [] then []
    else
      var p := s[..|s| - 1];
      assert s == p + [s[|s| - 1]];
      var sp := SortBy(p, key);
      InsertBySorted(sp, s[|s| - 1], key);
      InsertBy(sp, s[|s| - 1], key)
  }

  /** The elements whose key is `k`. */
  function WithKey<T>(s: seq<T>, key: T -> Key, k: Key): seq<T> {
    Filter(s, x => key(x) == k)
  }

  lemma {:induction false} InsertByStable<T>(s: seq<T>, x: T, key: T -> Key, k: Key)
    ensures WithKey(InsertBy(s, x, key), key, k) == WithKey(s, key, k) + WithKey([x], key, k)
    decreases |s|
  {
    var p := x => key(x) == k;
    if s == [] {
    } else if KeyLe(key(s[|s| - 1]), key(x)) {
      FilterAppend(s, [x], p);
    } else {
      var last := s[|s| - 1];
      var pre := s[..|s| - 1];
      assert s == pre + [last];
      InsertByStable(pre, x, key, k);
      FilterAppend(InsertBy(pre, x, key), [last], p);
      FilterAppend(pre, [last], p);
      if key(x) == k && key(last) == k {
        KeyLtIrreflexive(k);
      }
    }
  }

  /** Stability: for every key, the elements carrying it keep their relative
      order. */
  lemma {:induction false} SortByStable<T>(s: seq<T>, key: T -> Key, k: Key)
    ensures WithKey(SortBy(s, key), key, k) == WithKey(s, key, k)
    decreases |s|
  {
    if s != [] {
      var pre := s[..|s| - 1];
      var x := s[|s| - 1];
      assert s == pre + [x];
      SortByStable(pre, key, k);
      InsertByStable(SortBy(pre, key), x, key, k);
      FilterAppend(pre, [x], y => key(y) == k);
    }
  }

  /** Sorting a sequence that is already in order changes nothing. */
  lemma {:induction false} SortBySortedIdentity<T>(s: seq<T>, key: T -> Key)
    requires SortedBy(s, key)
    ensures SortBy(s, key) == s
    decreases |s|
  {
    if s != [] {
      var pre := s[..|s| - 1];
      assert SortedBy(pre, key);
      SortBySortedIdentity(pre, key);
      assert s == pre + [s[|s| - 1]];
      if pre != [] {
        assert KeyLe(key(pre[|pre| - 1]), key(s[|s| - 1]));
      }
    }
  }

  /** The single-component key of a string. */
  function TextKey(x: string): Key {
    [Text(x)]
  }

  /** Python's `sorted(set(s))` on strings: each string once, in code-point order. */
  function SortedSet(s: seq<string>): (r: seq<string>)
    ensures NoDup(r)
    ensures forall x :: x in r <==> x in s
    ensures forall i, j :: 0 <= i < j < |r| ==> StrLt(r[i], r[j])
  {
    var d := Distinct(s);
    var r := SortBy(d, TextKey);
    assert forall x :: x in r <==> x in multiset(r);
    assert forall x :: x in d <==> x in multiset(d);
    assert NoDup(r) by {
      forall x | x in multiset(r) ensures multiset(r)[x] == 1 {
        assert multiset(d)[x] == Count(d, x);
        CountNoDup(d, x);
      }
      NoDupFromCounts(r);
    }
    forall i, j | 0 <= i < j < |r| ensures StrLt(r[i], r[j]) {
      assert KeyLe(TextKey(r[i]), TextKey(r[j]));
      StrLtTotal(r[i], r[j]);
    }
    r
  }

  /** Python's `sorted(set(s), key=key)`: each element once, ordered by the
      key; elements with equal keys keep their first-seen order. */
  function SortedDistinct<T(==)>(s: seq<T>, key: T -> Key): (r: seq<T>)
    ensures NoDup(r)
    ensures forall x | x in r :: x in s
    ensures forall x | x in s :: x in r
    ensures SortedBy(r, key)
  {
    var d := Distinct(s);
    var r := SortBy(d, key);
    assert forall x | x in r :: x in multiset(r);
    assert forall x | x in d :: x in multiset(d);
    assert NoDup(r) by {
      forall x | x in multiset(r) ensures multiset(r)[x] == 1 {
        assert multiset(d)[x] == Count(d, x);
        CountNoDup(d, x);
      }
      NoDupFromCounts(r);
    }
    r
  }

  /** A comparison decided on equal-length leading parts is kept when
      trailing parts are appended. */
  lemma {:induction false} KeyLtAppend(a: Key, b: Key, c: Key, d: Key)
    requires |a| == |b| && KeyLt(a, b)
    ensures KeyLt(a + c, b + d)
    decreases |a|
  {
    assert a != [] && b != [];
    assert (a + c)[0] == a[0] && (b + d)[0] == b[0];
    assert (a + c)[1..] == a[1..] + c && (b + d)[1..] == b[1..] + d;
    if !AtomLt(a[0], b[0]) {
      KeyLtAppend(a[1..], b[1..], c, d);
    }
  }

  /** Behind an equal leading part, the trailing parts decide. */
  lemma {:induction false} KeyLtAppendSame(a: Key, c: Key, d: Key)
    ensures KeyLt(a + c, a + d) <==> KeyLt(c, d)
    decreases |a|
  {
    if a == [] {
      assert a + c == c && a + d == d;
    } else {
      assert (a + c)[0] == a[0] && (a + d)[0] == a[0];
      assert (a + c)[1..] == a[1..] + c && (a + d)[1..] == a[1..] + d;
      AtomLtIrreflexive(a[0]);
      KeyLtAppendSame(a[1..], c, d);
    }
  }

  /** Ordering by the primary key and then by the tie-breaker. */
  function ThenBy<T>(key: T -> Key, tie: T -> Key): T -> Key {
    x => key(x) + tie(x)
  }

  lemma ThenByLe<T>(key: T -> Key, tie: T -> Key, x: T, y: T)
    requires |key(x)| == |key(y)|
    requires KeyLt(key(x), key(y)) || (key(x) == key(y) && KeyLe(tie(x), tie(y)))
    ensures KeyLe(ThenBy(key, tie)(x), ThenBy(key, tie)(y))
  {
    if KeyLt(key(x), key(y)) {
      KeyLtAppend(key(x), key(y), tie(x), tie(y));
      KeyLeTotal(ThenBy(key, tie)(x), ThenBy(key, tie)(y));
      if key(x) + tie(x) == key(y) + tie(y) {
        KeyLtIrreflexive(key(x) + tie(x));
      }
    } else {
      KeyLtAppendSame(key(x), tie(y), tie(x));
    }
  }

  predicate StrictlyIncreasingBy<T>(s: seq<T>, tie: T -> Key) {
    forall i, j :: 0 <= i < j < |s| ==> KeyLt(tie(s[i]), tie(s[j]))
  }

  predicate FixedWidth<T>(s: seq<T>, key: T -> Key, n: nat) {
    forall i :: 0 <= i < |s| ==> |key(s[i])| == n
  }

  lemma {:induction false} InsertByThen<T>(t: seq<T>, x: T, key: T -> Key, tie: T -> Key, n: nat)
    requires SortedBy(t, key) && SortedBy(t, ThenBy(key, tie))
    requires FixedWidth(t, key, n) && |key(x)| == n
    requires forall i :: 0 <= i < |t| ==> KeyLt(tie(t[i]), tie(x))
    ensures SortedBy(InsertBy(t, x, key), ThenBy(key, tie))
    decreases |t|
  {
    if t != [] {
      var last := t[|t| - 1];
      var r := InsertBy(t, x, key);
      if KeyLe(key(last), key(x)) {
        assert r == t + [x];
        forall i | 0 <= i < |t| ensures KeyLe(ThenBy(key, tie)(t[i]), ThenBy(key, tie)(x)) {
          if i < |t| - 1 {
            KeyLeTransitive(key(t[i]), key(last), key(x));
          }
          KeyLeTotal(key(t[i]), key(x));
          KeyLtTotal(key(t[i]), key(x));
          KeyLeTotal(tie(t[i]), tie(x));
          ThenByLe(key, tie, t[i], x);
        }
        forall i, j | 0 <= i < j < |r| ensures KeyLe(ThenBy(key, tie)(r[i]), ThenBy(key, tie)(r[j])) {
          if j < |t| {
            assert r[i] == t[i] && r[j] == t[j];
          }
        }
      } else {
        var p := t[..|t| - 1];
        assert SortedBy(p, key) && SortedBy(p, ThenBy(key, tie));
        InsertByThen(p, x, key, tie, n);
        var q := InsertBy(p, x, key);
        assert r == q + [last];
        forall y | y in q ensures KeyLe(ThenBy(key, tie)(y), ThenBy(key, tie)(last)) {
          assert y in multiset(q);
          if y != x {
            assert y in p;
          } else {
            KeyLeTotal(key(last), key(x));
            KeyLtTotal(key(last), key(x));
            ThenByLe(key, tie, x, last);
          }
        }
        forall i, j | 0 <= i < j < |r| ensures KeyLe(ThenBy(key, tie)(r[i]), ThenBy(key, tie)(r[j])) {
          if j == |q| {
            assert r[i] == q[i] && q[i] in q;
          } else {
            assert r[i] == q[i] && r[j] == q[j];
          }
        }
      }
    }
  }

  /** A stable sort of a sequence strictly ordered by `tie` orders it by the
      key and, among equal keys, by `tie`. */
  lemma {:induction false} SortByThen<T>(s: seq<T>, key: T -> Key, tie: T -> Key, n: nat)
    requires FixedWidth(s, key, n)
    requires StrictlyIncreasingBy(s, tie)
    ensures SortedBy(SortBy(s, key), ThenBy(key, tie))
    decreases |s|
  {
    if s != [] {
      var p := s[..|s| - 1];
      var x := s[|s| - 1];
      assert s == p + [x];
      assert FixedWidth(p, key, n) && StrictlyIncreasingBy(p, tie);
      SortByThen(p, key, tie, n);
      var sp := SortBy(p, key);
      forall i | 0 <= i < |sp| ensures KeyLt(tie(sp[i]), tie(x)) && |key(sp[i])| == n {
        assert sp[i] in multiset(p);
        var j :| 0 <= j < |p| && p[j] == sp[i];
        assert s[j] == p[j];
      }
      InsertByThen(sp, x, key, tie, n);
    }
  }
}
