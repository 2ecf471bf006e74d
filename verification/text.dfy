/** Character classes and string primitives the checker relies on: JavaScript's
    `\s` and `\w` classes, `String.prototype.trim`, `includes`, `startsWith`,
    and counting the occurrences of one character. */
module Text {

  /** JavaScript's `\s` class. `String.prototype.trim` strips exactly the same
      set: the ECMAScript WhiteSpace and LineTerminator code points. */
  predicate IsWs(c: char) {
    c == '\t' || c == '\n' || c == '\U{B}' || c == '\U{C}' || c == '\r' || c == ' '
    || c == '\U{A0}' || c == '\U{1680}' || ('\U{2000}' <= c <= '\U{200A}')
    || c == '\U{2028}' || c == '\U{2029}' || c == '\U{202F}' || c == '\U{205F}'
    || c == '\U{3000}' || c == '\U{FEFF}'
  }

  /** JavaScript's `\w` class (no `u` flag): `[A-Za-z0-9_]`. It is also the
      class that decides where a `\b` word boundary lies. */
  predicate IsWordChar(c: char) {
    ('A' <= c <= 'Z') || ('a' <= c <= 'z') || ('0' <= c <= '9') || c == '_'
  }

  /** A character is never both a word character and whitespace; the
      `\s+` and `\w+` runs of a pattern therefore never overlap. */
  lemma WordCharIsNotWs(c: char)
    requires IsWordChar(c)
    ensures !IsWs(c)
  {
  }

  /** Every character of `s` is whitespace. */
  predicate IsBlank(s: string) {
    forall i :: 0 <= i < |s| ==> IsWs(s[i])
  }

  /** The number of occurrences of `c` in `s`, which is the length of the
      array `s.match(/c/g)` returns (or of `[]` when it returns null). */
  function CountChar(s: string, c: char): (n: nat)
    ensures n <= |s|
    decreases |s|
  {
    if |s| == 0 then 0
    else CountChar(s[..|s| - 1], c) + (if s[|s| - 1] == c then 1 else 0)
  }

  /** A character is counted zero times exactly when it does not occur. */
  lemma {:induction false} CountCharZero(s: string, c: char)
    ensures CountChar(s, c) == 0 <==> c !in s
    decreases |s|
  {
    if |s| > 0 {
      CountCharZero(s[..|s| - 1], c);
      assert s == s[..|s| - 1] + [s[|s| - 1]];
    }
  }

  /** Counting distributes over concatenation. */
  lemma {:induction false} CountCharConcat(a: string, b: string, c: char)
    ensures CountChar(a + b, c) == CountChar(a, c) + CountChar(b, c)
    decreases |b|
  {
    if |b| == 0 {
      assert a + b == a;
    } else {
      assert (a + b)[..|a + b| - 1] == a + b[..|b| - 1];
      CountCharConcat(a, b[..|b| - 1], c);
    }
  }

  /** `s.startsWith(p)`. */
  predicate StartsWith(s: string, p: string) {
    |p| <= |s| && s[..|p|] == p
  }

  /** `p` occurs in `s` at index `i`. */
  predicate OccursAt(s: string, p: string, i: int) {
    0 <= i && i + |p| <= |s| && s[i..i + |p|] == p
  }

  /** `s.includes(p)`, searching from the left. */
  predicate Contains(s: string, p: string)
    decreases |s|
  {
    StartsWith(s, p) || (|s| > 0 && Contains(s[1..], p))
  }

  /** The search finds `p` exactly when `p` occurs somewhere in `s`. */
  lemma {:induction false} ContainsIff(s: string, p: string)
    ensures Contains(s, p) <==> exists i :: OccursAt(s, p, i)
    decreases |s|
  {
    if StartsWith(s, p) {
      assert OccursAt(s, p, 0);
    } else if |s| > 0 {
      ContainsIff(s[1..], p);
      if Contains(s[1..], p) {
        var i :| OccursAt(s[1..], p, i);
        assert s[1..][i..i + |p|] == s[i + 1..i + 1 + |p|];
        assert OccursAt(s, p, i + 1);
      } else {
        forall i | 1 <= i ensures !OccursAt(s, p, i) {
          if i + |p| <= |s| {
            assert s[1..][i - 1..i - 1 + |p|] == s[i..i + |p|];
            assert !OccursAt(s[1..], p, i - 1);
          }
        }
      }
    }
  }

  /** `s.trimStart()`: the suffix left after dropping leading whitespace. */
  function TrimStart(s: string): (r: string)
    ensures |r| <= |s| && r == s[|s| - |r|..]
    ensures forall i :: 0 <= i < |s| - |r| ==> IsWs(s[i])
    ensures r == [] || !IsWs(r[0])
    decreases |s|
  {
    if |s| > 0 && IsWs(s[0]) then TrimStart(s[1..]) else s
  }

  /** `s.trimEnd()`: the prefix left after dropping trailing whitespace. */
  function TrimEnd(s: string): (r: string)
    ensures |r| <= |s| && r == s[..|r|]
    ensures forall i :: |r| <= i < |s| ==> IsWs(s[i])
    ensures r == [] || !IsWs(r[|r| - 1])
    decreases |s|
  {
    if |s| > 0 && IsWs(s[|s| - 1]) then TrimEnd(s[..|s| - 1]) else s
  }

  /** `r` is the slice `s[a..b]`, and everything outside it is whitespace. */
  predicate BetweenBlanks(s: string, r: string, a: int, b: int) {
    0 <= a <= b <= |s| && r == s[a..b]
    && (forall k :: 0 <= k < a ==> IsWs(s[k]))
    && (forall k :: b <= k < |s| ==> IsWs(s[k]))
  }

  /** Dropping a prefix of characters satisfying `p`, then a suffix of such
      characters, leaves a slice with only such characters outside it. */
  lemma InnerSlice(s: string, t: string, r: string, p: char -> bool)
    requires |t| <= |s| && t == s[|s| - |t|..]
    requires forall i :: 0 <= i < |s| - |t| ==> p(s[i])
    requires |r| <= |t| && r == t[..|r|]
    requires forall i :: |r| <= i < |t| ==> p(t[i])
    ensures r == s[|s| - |t|..|s| - |t| + |r|]
    ensures forall k :: |s| - |t| + |r| <= k < |s| ==> p(s[k])
  {
    var a := |s| - |t|;
    forall k | a + |r| <= k < |s| ensures p(s[k]) {
      assert s[k] == t[k - a];
    }
  }

  /** A slice with whitespace outside it and none at its front is empty
      exactly when the whole string is blank. */
  lemma EmptyInnerIffBlank(s: string, r: string, a: int, b: int)
    requires BetweenBlanks(s, r, a, b)
    requires r == [] || !IsWs(r[0])
    ensures r == [] <==> IsBlank(s)
  {
    assert r != [] ==> r[0] == s[a];
  }

  /** `s.trim()`: leading and trailing whitespace removed. The result is a
      slice of `s` with only whitespace outside it, and it neither starts nor
      ends with whitespace; only one slice of `s` is like that. */
  function Trim(s: string): (r: string)
    ensures exists a, b :: BetweenBlanks(s, r, a, b)
    ensures r == [] <==> IsBlank(s)
    ensures r == [] || (!IsWs(r[0]) && !IsWs(r[|r| - 1]))
  {
    var t := TrimStart(s);
    var r := TrimEnd(t);
    InnerSlice(s, t, r, IsWs);
    assert BetweenBlanks(s, r, |s| - |t|, |s| - |t| + |r|);
    assert r != [] ==> r[0] == t[0];
    EmptyInnerIffBlank(s, r, |s| - |t|, |s| - |t| + |r|);
    r
  }

  /** What a trimmed string starts with occurs in the untrimmed string too. */
  lemma TrimmedPrefixOccurs(s: string, p: string)
    requires StartsWith(Trim(s), p)
    ensures Contains(s, p)
  {
    var r := Trim(s);
    var a, b :| BetweenBlanks(s, r, a, b);
    assert s[a..a + |p|] == r[..|p|];
    assert OccursAt(s, p, a);
    ContainsIff(s, p);
  }

  /** Two non-empty slices whose outside satisfies `p` and whose end
      characters do not are the same slice. */
  lemma SameInnerSlice(s: string, a: int, b: int, c: int, d: int, p: char -> bool)
    requires 0 <= a < b <= |s| && 0 <= c < d <= |s|
    requires forall k :: 0 <= k < a ==> p(s[k])
    requires forall k :: b <= k < |s| ==> p(s[k])
    requires forall k :: 0 <= k < c ==> p(s[k])
    requires forall k :: d <= k < |s| ==> p(s[k])
    requires !p(s[a]) && !p(s[b - 1]) && !p(s[c]) && !p(s[d - 1])
    ensures a == c && b == d
  {
  }

  /** Trimming is the only way to cut `s` down to a slice with whitespace
      outside it and none at its ends. */
  lemma TrimIsUnique(s: string, r: string, a: int, b: int)
    requires BetweenBlanks(s, r, a, b)
    requires r == [] || (!IsWs(r[0]) && !IsWs(r[|r| - 1]))
    ensures r == Trim(s)
  {
    var q := Trim(s);
    var c, d :| BetweenBlanks(s, q, c, d);
    if r == [] {
      assert IsBlank(s);
    } else {
      assert r[0] == s[a] && r[|r| - 1] == s[b - 1];
      assert !IsBlank(s);
      assert q[0] == s[c] && q[|q| - 1] == s[d - 1];
      SameInnerSlice(s, a, b, c, d, IsWs);
    }
  }
}
