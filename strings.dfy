/** The string operations the modelled programs call (Python `str` methods and
    their JavaScript counterparts), on ASCII case and ASCII whitespace. */
module Strings {

  /** The six common ASCII whitespace characters, which Python's `str.strip()`
      and JavaScript's `trim()` both strip. */
  predicate IsSpace(c: char) {
    c == ' ' || c == '\t' || c == '\n' || c == '\r' || c == '\U{000B}' || c == '\U{000C}'
  }

  predicate IsUpper(c: char) { 'A' <= c <= 'Z' }

  predicate IsLower(c: char) { 'a' <= c <= 'z' }

  function LowerChar(c: char): (r: char)
    ensures !IsUpper(r)
    ensures IsLower(c) ==> r == c
  {
    if IsUpper(c) then (c as int + 32) as char else c
  }

  function UpperChar(c: char): (r: char)
    ensures !IsLower(r)
    ensures IsUpper(c) ==> r == c
  {
    if IsLower(c) then (c as int - 32) as char else c
  }

  /** `s.lower()` / `s.toLowerCase()`. */
  function Lower(s: string): (r: string)
    ensures |r| == |s|
    ensures forall i :: 0 <= i < |r| ==> !IsUpper(r[i])
  {
    seq(|s|, i requires 0 <= i < |s| => LowerChar(s[i]))
  }

  lemma LowerIdempotent(s: string)
    ensures Lower(Lower(s)) == Lower(s)
  {
    var l := Lower(s);
    forall i | 0 <= i < |s| ensures Lower(l)[i] == l[i] {
      assert !IsUpper(l[i]);
    }
  }

  /** Text without capitals is its own lower case. */
  lemma LowerOfLower(s: string)
    requires forall i :: 0 <= i < |s| ==> !IsUpper(s[i])
    ensures Lower(s) == s
  {
  }

  /** Lower-casing keeps whitespace, so it commutes with stripping. */
  lemma {:induction false} StripLower(s: string)
    ensures Strip(Lower(s)) == Lower(Strip(s))
    decreases |s|
  {
    var l := Lower(s);
    if s != [] {
      if IsSpace(s[0]) {
        assert l[1..] == Lower(s[1..]);
        StripLower(s[1..]);
      } else if IsSpace(s[|s| - 1]) {
        assert l[..|s| - 1] == Lower(s[..|s| - 1]);
        StripLower(s[..|s| - 1]);
      }
    }
  }

  /** Drops the leading whitespace: the result is the suffix of `s` after its
      whitespace run. */
  function TrimLeft(s: string): (r: string)
    ensures |r| <= |s| && r == s[|s| - |r|..]
    ensures r == [] || !IsSpace(r[0])
    ensures forall i :: 0 <= i < |s| - |r| ==> IsSpace(s[i])
  {
    if s != [] && IsSpace(s[0]) then TrimLeft(s[1..]) else s
  }

  /** `s.strip()` / `s.trim()`: whitespace is dropped from either end until
      both ends are not whitespace. */
  function Strip(s: string): (r: string)
    ensures |r| <= |s|
    ensures r == [] || (!IsSpace(r[0]) && !IsSpace(r[|r| - 1]))
    decreases |s|
  {
    if s == [] then []
    else if IsSpace(s[0]) then Strip(s[1..])
    else if IsSpace(s[|s| - 1]) then Strip(s[..|s| - 1])
    else s
  }

  /** `Strip(s)` is the part of `s` from `i` on, and everything around it
      is whitespace. */
  ghost predicate StripsAt(s: string, i: nat) {
    && i + |Strip(s)| <= |s| && Strip(s) == s[i..i + |Strip(s)|]
    && (forall k :: 0 <= k < i ==> IsSpace(s[k]))
    && (forall k :: i + |Strip(s)| <= k < |s| ==> IsSpace(s[k]))
  }

  /** Stripping keeps a contiguous part of `s`, and drops only whitespace
      around it. */
  lemma {:induction false} StripInfix(s: string) returns (i: nat)
    ensures StripsAt(s, i)
    decreases |s|
  {
    if s == [] {
      i := 0;
    } else if IsSpace(s[0]) {
      var i' := StripInfix(s[1..]);
      StripFront(s, i');
      i := i' + 1;
    } else if IsSpace(s[|s| - 1]) {
      i := StripInfix(s[..|s| - 1]);
      StripBack(s, i);
    } else {
      i := 0;
    }
  }

  lemma StripFront(s: string, i: nat)
    requires s != [] && IsSpace(s[0]) && StripsAt(s[1..], i)
    ensures StripsAt(s, i + 1)
  {
    var t := s[1..];
    var r := Strip(t);
    assert Strip(s) == r;
    assert t[i..i + |r|] == s[i + 1..i + 1 + |r|];
    forall k | 0 <= k < i + 1 ensures IsSpace(s[k]) {
      if k > 0 { assert s[k] == t[k - 1]; }
    }
    forall k | i + 1 + |r| <= k < |s| ensures IsSpace(s[k]) {
      assert s[k] == t[k - 1];
    }
  }

  lemma StripBack(s: string, i: nat)
    requires s != [] && !IsSpace(s[0]) && IsSpace(s[|s| - 1]) && StripsAt(s[..|s| - 1], i)
    ensures StripsAt(s, i)
  {
    var t := s[..|s| - 1];
    var r := Strip(t);
    assert Strip(s) == r;
    assert t[i..i + |r|] == s[i..i + |r|];
    assert !IsSpace(t[0]);
    forall k | i + |r| <= k < |s| ensures IsSpace(s[k]) {
      if k < |s| - 1 { assert s[k] == t[k]; }
    }
  }

  /** A string that begins or ends with no whitespace is its own Strip. */
  lemma StripOfStripped(s: string)
    requires s == [] || (!IsSpace(s[0]) && !IsSpace(s[|s| - 1]))
    ensures Strip(s) == s
  {
  }

  lemma StripIdempotent(s: string)
    ensures Strip(Strip(s)) == Strip(s)
  {
    StripOfStripped(Strip(s));
  }

  /** Every character Strip removes is whitespace, so a string with no
      whitespace at all is unchanged. */
  lemma StripNoSpace(s: string)
    requires forall i :: 0 <= i < |s| ==> !IsSpace(s[i])
    ensures Strip(s) == s
  {
  }

  /** Strip of the empty string, and of a string all of whose characters are
      whitespace, is empty. */
  lemma {:induction false} StripAllSpace(s: string)
    requires forall i :: 0 <= i < |s| ==> IsSpace(s[i])
    ensures Strip(s) == []
    decreases |s|
  {
    if s != [] {
      assert forall i :: 0 <= i < |s[1..]| ==> IsSpace(s[1..][i]);
      StripAllSpace(s[1..]);
    }
  }

  predicate StartsWith(s: string, p: string) {
    |p| <= |s| && s[..|p|] == p
  }

  predicate EndsWith(s: string, p: string) {
    |p| <= |s| && s[|s| - |p|..] == p
  }

  /** Python's `sub in s`, JavaScript's `s.includes(sub)`. */
  predicate Contains(s: string, sub: string)
    decreases |s|
  {
    StartsWith(s, sub) || (s != [] && Contains(s[1..], sub))
  }

  /** Contains means: `sub` occurs at some position of `s`. */
  lemma {:induction false} ContainsAt(s: string, sub: string, k: nat)
    requires k + |sub| <= |s| && s[k..k + |sub|] == sub
    ensures Contains(s, sub)
    decreases k
  {
    if k > 0 {
      assert s[1..][k - 1..k - 1 + |sub|] == sub;
      ContainsAt(s[1..], sub, k - 1);
    } else {
      assert s[..|sub|] == sub;
    }
  }

  /** The position at which `sub` occurs, when Contains holds. */
  lemma {:induction false} ContainsWitness(s: string, sub: string) returns (k: nat)
    requires Contains(s, sub)
    ensures k + |sub| <= |s| && s[k..k + |sub|] == sub
    decreases |s|
  {
    if StartsWith(s, sub) {
      k := 0;
    } else {
      var k' := ContainsWitness(s[1..], sub);
      k := k' + 1;
      assert s[k..k + |sub|] == s[1..][k'..k' + |sub|];
    }
  }

  /** A string contains any part of itself. */
  lemma ContainsInfix(a: string, b: string, c: string)
    ensures Contains(a + b + c, b)
  {
    var s := a + b + c;
    assert s[|a|..|a| + |b|] == b;
    ContainsAt(s, b, |a|);
  }

  /** A needle found in a text is found in any extension of it. */
  lemma ContainsExtend(p: string, x: string, sub: string)
    ensures Contains(p, sub) ==> Contains(p + x, sub)
  {
    if Contains(p, sub) {
      var k := ContainsWitness(p, sub);
      assert (p + x)[k..k + |sub|] == p[k..k + |sub|];
      ContainsAt(p + x, sub, k);
    }
  }

  /** A needle found at no position is not contained. */
  lemma NotContainingAnywhere(s: string, sub: string)
    requires forall k: nat :: !OccursAt(s, sub, k)
    ensures !Contains(s, sub)
  {
    if Contains(s, sub) {
      var k := ContainsWitness(s, sub);
      assert OccursAt(s, sub, k);
    }
  }

  /** `sub` occurs in `s` at position `k`. */
  predicate OccursAt(s: string, sub: string, k: nat) {
    k + |sub| <= |s| && s[k..k + |sub|] == sub
  }

  /** Every character of a needle that is found occurs in the haystack. */
  lemma ContainsChar(s: string, sub: string, c: char)
    requires Contains(s, sub) && c in sub
    ensures c in s
  {
    var k := ContainsWitness(s, sub);
    var j :| 0 <= j < |sub| && sub[j] == c;
    assert s[k + j] == sub[j];
  }

  /** JavaScript `s.replace(/c/g, rep)`: every occurrence of the one character
      `c` becomes `rep`. */
  function ReplaceChar(s: string, c: char, rep: string): (r: string)
    ensures c !in rep ==> c !in r
    decreases |s|
  {
    if s == [] then [] else (if s[0] == c then rep else [s[0]]) + ReplaceChar(s[1..], c, rep)
  }

  lemma ReplaceCharAppend(a: string, b: string, c: char, rep: string)
    ensures ReplaceChar(a + b, c, rep) == ReplaceChar(a, c, rep) + ReplaceChar(b, c, rep)
  {
    if a == [] {
      assert a + b == b;
    } else {
      assert (a + b)[0] == a[0];
      assert (a + b)[1..] == a[1..] + b;
      ReplaceCharAppend(a[1..], b, c, rep);
    }
  }

  lemma ReplaceCharSingle(d: char, c: char, rep: string)
    ensures ReplaceChar([d], c, rep) == if d == c then rep else [d]
  {
    assert [d][1..] == [];
  }

  /** Replacing a character by one character maps the string position by
      position. */
  lemma {:induction false} ReplaceCharByChar(s: string, c: char, d: char)
    ensures ReplaceChar(s, c, [d]) == seq(|s|, i requires 0 <= i < |s| => if s[i] == c then d else s[i])
    decreases |s|
  {
    if s != [] {
      ReplaceCharByChar(s[1..], c, d);
    }
  }

  /** Replacing a character that does not occur changes nothing. */
  lemma ReplaceCharAbsent(s: string, c: char, rep: string)
    requires c !in s
    ensures ReplaceChar(s, c, rep) == s
  {
  }

  /** Python `s.replace(pat, rep)`: non-overlapping occurrences of `pat`, scanned
      left to right, become `rep`. */
  function ReplaceAll(s: string, pat: string, rep: string): string
    requires pat != []
    decreases |s|
  {
    if |s| < |pat| then s
    else if s[..|pat|] == pat then rep + ReplaceAll(s[|pat|..], pat, rep)
    else [s[0]] + ReplaceAll(s[1..], pat, rep)
  }

  /** When `pat` does not occur, ReplaceAll is the identity. */
  lemma {:induction false} ReplaceAllAbsent(s: string, pat: string, rep: string)
    requires pat != [] && !Contains(s, pat)
    ensures ReplaceAll(s, pat, rep) == s
    decreases |s|
  {
    if |s| >= |pat| {
      assert !StartsWith(s, pat);
      ReplaceAllAbsent(s[1..], pat, rep);
    }
  }

  /** `s.split(c)` (Python and JavaScript) with a one-character separator. */
  function Split(s: string, c: char): (r: seq<string>)
    ensures |r| >= 1
    ensures forall i :: 0 <= i < |r| ==> c !in r[i]
    decreases |s|
  {
    if s == [] then [[]]
    else
      var rest := Split(s[1..], c);
      if s[0] == c then [[]] + rest else [[s[0]] + rest[0]] + rest[1..]
  }

  /** `sep.join(parts)`. */
  function Join(parts: seq<string>, sep: string): string
    decreases |parts|
  {
    if |parts| == 0 then []
    else if |parts| == 1 then parts[0]
    else parts[0] + sep + Join(parts[1..], sep)
  }

  /** Split and Join are inverse: joining the fields with the separator gives
      back the string. */
  lemma {:induction false} JoinSplit(s: string, c: char)
    ensures Join(Split(s, c), [c]) == s
    decreases |s|
  {
    if s != [] {
      var rest := Split(s[1..], c);
      JoinSplit(s[1..], c);
      if s[0] == c {
        assert Split(s, c) == [[]] + rest;
        assert Split(s, c)[1..] == rest;
      } else {
        var r := Split(s, c);
        assert r == [[s[0]] + rest[0]] + rest[1..];
        if |rest| == 1 {
          assert Join(r, [c]) == [s[0]] + rest[0];
        } else {
          assert r[1..] == rest[1..];
          assert Join(rest, [c]) == rest[0] + [c] + Join(rest[1..], [c]);
        }
      }
    }
  }

  /** The first field of Split is the text before the first separator. */
  lemma {:induction false} SplitFirst(s: string, c: char)
    ensures c in s ==> exists k :: 0 <= k < |s| && s[k] == c && c !in s[..k] && Split(s, c)[0] == s[..k]
    ensures c !in s ==> Split(s, c) == [s]
    decreases |s|
  {
    if s != [] {
      SplitFirst(s[1..], c);
      if s[0] == c {
        assert s[..0] == [];
      } else if c in s[1..] {
        var k :| 0 <= k < |s[1..]| && s[1..][k] == c && c !in s[1..][..k] && Split(s[1..], c)[0] == s[1..][..k];
        assert s[..k + 1] == [s[0]] + s[1..][..k];
      } else {
        assert s == [s[0]] + s[1..];
      }
    }
  }

  /** A field free of the separator, the separator and the rest split into
      that field followed by the fields of the rest. */
  lemma {:induction false} SplitPrefix(p: string, rest: string, c: char)
    requires c !in p
    ensures Split(p + [c] + rest, c) == [p] + Split(rest, c)
    decreases |p|
  {
    var s := p + [c] + rest;
    if p == [] {
      assert s[1..] == rest;
    } else {
      assert s[1..] == p[1..] + [c] + rest;
      SplitPrefix(p[1..], rest, c);
      assert [s[0]] + p[1..] == p;
    }
  }

  /** Join and Split are inverse on fields free of the separator: splitting
      the joined text gives back the fields. */
  lemma {:induction false} SplitJoin(parts: seq<string>, c: char)
    requires |parts| >= 1
    requires forall i :: 0 <= i < |parts| ==> c !in parts[i]
    ensures Split(Join(parts, [c]), c) == parts
    decreases |parts|
  {
    if |parts| == 1 {
      SplitFirst(parts[0], c);
    } else {
      SplitJoin(parts[1..], c);
      SplitPrefix(parts[0], Join(parts[1..], [c]), c);
    }
  }

  /** The longest prefix of `s` free of whitespace. */
  function TakeWord(s: string): (w: string)
    ensures |w| <= |s| && w == s[..|w|]
    ensures forall i :: 0 <= i < |w| ==> !IsSpace(w[i])
    ensures |w| < |s| ==> IsSpace(s[|w|])
    decreases |s|
  {
    if s == [] || IsSpace(s[0]) then [] else [s[0]] + TakeWord(s[1..])
  }

  /** A run of non-whitespace followed by whitespace or the end is taken
      whole. */
  lemma {:induction false} TakeWordPrefix(w: string, rest: string)
    requires forall i :: 0 <= i < |w| ==> !IsSpace(w[i])
    requires rest == [] || IsSpace(rest[0])
    ensures TakeWord(w + rest) == w
    decreases |w|
  {
    if w == [] {
      assert w + rest == rest;
    } else {
      assert (w + rest)[1..] == w[1..] + rest;
      TakeWordPrefix(w[1..], rest);
    }
  }

  predicate IsWord(w: string) {
    w != [] && forall i :: 0 <= i < |w| ==> !IsSpace(w[i])
  }

  /** Python's `s.split()`: the maximal runs of non-whitespace, in order. */
  function Words(s: string): (ws: seq<string>)
    ensures forall i :: 0 <= i < |ws| ==> IsWord(ws[i])
    decreases |s|
  {
    var t := TrimLeft(s);
    if t == [] then []
    else
      var w := TakeWord(t);
      [w] + Words(t[|w|..])
  }

  /** Python's `w.capitalize()`: first character upper case, the rest lower case. */
  function Capitalize(w: string): (r: string)
    ensures |r| == |w|
    ensures forall i :: 0 <= i < |w| ==> (IsSpace(r[i]) <==> IsSpace(w[i]))
    ensures |r| > 0 ==> !IsLower(r[0])
    ensures forall i :: 1 <= i < |r| ==> !IsUpper(r[i])
  {
    if w == [] then [] else [UpperChar(w[0])] + Lower(w[1..])
  }

  /** The decimal digits of `n`, as JavaScript writes a non-negative integer. */
  function NatToString(n: nat): (r: string)
    ensures |r| >= 1
    ensures n >= 10 ==> |r| >= 2
    decreases n
  {
    var d := ['0', '1', '2', '3', '4', '5', '6', '7', '8', '9'][n % 10];
    if n < 10 then [d] else NatToString(n / 10) + [d]
  }

  /** Different numbers are written differently. */
  lemma {:induction false} NatToStringInjective(a: nat, b: nat)
    requires NatToString(a) == NatToString(b)
    ensures a == b
    decreases a
  {
    var digits := ['0', '1', '2', '3', '4', '5', '6', '7', '8', '9'];
    var sa, sb := NatToString(a), NatToString(b);
    assert sa[|sa| - 1] == digits[a % 10];
    assert sb[|sb| - 1] == digits[b % 10];
    assert a % 10 == b % 10;
    if a >= 10 && b >= 10 {
      assert NatToString(a / 10) == sa[..|sa| - 1];
      assert NatToString(b / 10) == sb[..|sb| - 1];
      NatToStringInjective(a / 10, b / 10);
    }
  }

  /** Python's `s[::-1]`. */
  function Reverse(s: string): (r: string)
    ensures |r| == |s|
    ensures forall i :: 0 <= i < |s| ==> r[i] == s[|s| - 1 - i]
    decreases |s|
  {
    if s == [] then [] else Reverse(s[1..]) + [s[0]]
  }

  lemma ReverseReverse(s: string)
    ensures Reverse(Reverse(s)) == s
  {
    var r := Reverse(s);
    assert forall i :: 0 <= i < |s| ==> Reverse(r)[i] == s[i];
  }
}
