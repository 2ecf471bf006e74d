/** The two whole-text regular expressions of the checker, run the way
    `String.prototype.match` runs a global (`g`) pattern: search from the
    left, take the leftmost match, resume right after its end.

      - `/function\s+(\w+)/g`: the word `function` (with no word boundary in
        front of it), one or more whitespace characters, then one or more word
        characters, taken greedily;
      - `/\bend\b/g`: `end` with a word boundary on either side. */
module Patterns {
  import opened Wrappers
  import opened Text

  const FunctionKeyword: string := "function"
  const EndKeyword: string := "end"

  /** The shortest match of `function\s+\w+`: the keyword, one whitespace
      character and one word character. */
  const ShortestFunctionMatch: nat := 10

  /** The end of the run of characters satisfying `p` that starts at `i`. */
  function SkipWhile(s: string, i: nat, p: char -> bool): (j: nat)
    requires i <= |s|
    ensures i <= j <= |s|
    ensures forall k :: i <= k < j ==> p(s[k])
    ensures j == |s| || !p(s[j])
    decreases |s| - i
  {
    if i < |s| && p(s[i]) then SkipWhile(s, i + 1, p) else i
  }

  /** A run is maximal at exactly one place. */
  lemma SkipWhileStopsAt(s: string, i: nat, j: nat, p: char -> bool)
    requires i <= j <= |s|
    requires forall k :: i <= k < j ==> p(s[k])
    requires j == |s| || !p(s[j])
    ensures SkipWhile(s, i, p) == j
  {
  }

  /** `s[i..e]` reads `function`, then the whitespace `s[i+8..j]`, then the
      word characters `s[j..e]`, each run non-empty: one match of
      `function\s+\w+` at `i`. */
  predicate FunctionShape(s: string, i: nat, j: nat, e: nat) {
    i + |FunctionKeyword| < j < e <= |s|
    && OccursAt(s, FunctionKeyword, i)
    && (forall k :: i + |FunctionKeyword| <= k < j ==> IsWs(s[k]))
    && (forall k :: j <= k < e ==> IsWordChar(s[k]))
  }

  /** The match of `function\s+\w+` that starts at `i`, as the index just
      past it, or None. The `\w+` run is taken greedily, so the match ends
      where the word ends; and a match exists exactly when the text at `i`
      has the pattern's shape at all. */
  function FunctionMatchAt(s: string, i: nat): (r: Option<nat>)
    requires i <= |s|
    ensures r.Some? ==> exists j :: FunctionShape(s, i, j, r.value)
    ensures r.Some? ==> i + ShortestFunctionMatch <= r.value
    ensures r.Some? ==> r.value == |s| || !IsWordChar(s[r.value])
    ensures r.None? ==> forall j, e :: !FunctionShape(s, i, j, e)
  {
    if OccursAt(s, FunctionKeyword, i) then
      var j := SkipWhile(s, i + |FunctionKeyword|, IsWs);
      if j > i + |FunctionKeyword| && j < |s| && IsWordChar(s[j]) then
        var e := SkipWhile(s, j, IsWordChar);
        assert FunctionShape(s, i, j, e);
        Some(e)
      else
        assert forall j', e' :: !FunctionShape(s, i, j', e') by {
          forall j': nat, e': nat ensures !FunctionShape(s, i, j', e') {
            if i + |FunctionKeyword| < j' < e' <= |s| && IsWordChar(s[j'])
               && (forall k :: i + |FunctionKeyword| <= k < j' ==> IsWs(s[k])) {
              WordCharIsNotWs(s[j']);
              SkipWhileStopsAt(s, i + |FunctionKeyword|, j', IsWs);
            }
          }
        }
        None
    else
      None
  }

  /** `function(` — an anonymous function — never starts a match, because the
      keyword must be followed by whitespace. */
  lemma AnonymousFunctionNotMatched(s: string, i: nat)
    requires OccursAt(s, FunctionKeyword + "(", i)
    ensures FunctionMatchAt(s, i) == None
  {
    assert s[i + |FunctionKeyword|] == '(';
  }

  /** The number of matches of `/function\s+(\w+)/g` in `s[i..]`, with the
      search resuming after each match. Every match spans at least ten
      characters (the keyword, one space, one word character). */
  function FunctionMatchesFrom(s: string, i: nat): (n: nat)
    requires i <= |s|
    ensures ShortestFunctionMatch * n <= |s| - i
    decreases |s| - i
  {
    if i == |s| then 0
    else
      match FunctionMatchAt(s, i)
      case Some(e) => 1 + FunctionMatchesFrom(s, e)
      case None => FunctionMatchesFrom(s, i + 1)
  }

  /** The global search finds nothing exactly when no position of `s[i..]`
      has the shape of a match. */
  lemma {:induction false} FunctionCountZeroIff(s: string, i: nat)
    requires i <= |s|
    ensures FunctionMatchesFrom(s, i) == 0 <==>
      forall p: nat, j: nat, e: nat :: i <= p ==> !FunctionShape(s, p, j, e)
    decreases |s| - i
  {
    if i < |s| {
      FunctionCountZeroIff(s, i + 1);
      match FunctionMatchAt(s, i)
      case Some(e) =>
        var j :| FunctionShape(s, i, j, e);
      case None =>
    }
  }

  /** The number of positions of `s[i..]` at which a match of
      `function\s+\w+` starts, each position counted on its own. */
  function FunctionPositionsFrom(s: string, i: nat): nat
    requires i <= |s|
    decreases |s| - i
  {
    if i == |s| then 0
    else (if FunctionMatchAt(s, i).Some? then 1 else 0) + FunctionPositionsFrom(s, i + 1)
  }

  /** Fewer positions remain the later the search starts. */
  lemma {:induction false} FunctionPositionsShrink(s: string, i: nat, k: nat)
    requires i <= k <= |s|
    ensures FunctionPositionsFrom(s, k) <= FunctionPositionsFrom(s, i)
    decreases k - i
  {
    if i < k {
      FunctionPositionsShrink(s, i + 1, k);
    }
  }

  /** The global search never counts more matches than there are positions
      where a match starts; it counts fewer when one match starts inside
      another (see `NestedFunctionSwallowed`). */
  lemma {:induction false} FunctionMatchesAtMostPositions(s: string, i: nat)
    requires i <= |s|
    ensures FunctionMatchesFrom(s, i) <= FunctionPositionsFrom(s, i)
    decreases |s| - i
  {
    if i < |s| {
      match FunctionMatchAt(s, i)
      case Some(e) =>
        FunctionMatchesAtMostPositions(s, e);
        FunctionPositionsShrink(s, i + 1, e);
      case None =>
        FunctionMatchesAtMostPositions(s, i + 1);
    }
  }

  /** `(content.match(/function\s+(\w+)/g) || []).length`. */
  function FunctionCount(s: string): nat {
    FunctionMatchesFrom(s, 0)
  }

  /** `end` occurs at `i` between two word boundaries. */
  predicate EndAt(s: string, i: nat) {
    OccursAt(s, EndKeyword, i)
    && (i == 0 || !IsWordChar(s[i - 1]))
    && (i + |EndKeyword| == |s| || !IsWordChar(s[i + |EndKeyword|]))
  }

  /** The number of matches of `/\bend\b/g` in `s[i..]`, with the search
      resuming after each match. */
  function EndMatchesFrom(s: string, i: nat): (n: nat)
    requires i <= |s|
    decreases |s| - i
  {
    if i == |s| then 0
    else if EndAt(s, i) then 1 + EndMatchesFrom(s, i + |EndKeyword|)
    else EndMatchesFrom(s, i + 1)
  }

  /** `(content.match(/\bend\b/g) || []).length`. */
  function EndCount(s: string): nat {
    EndMatchesFrom(s, 0)
  }

  /** The number of positions of `s[i..]` at which `end` stands as a whole
      word, each position counted on its own. */
  function EndPositionsFrom(s: string, i: nat): nat
    requires i <= |s|
    decreases |s| - i
  {
    if i == |s| then 0
    else (if EndAt(s, i) then 1 else 0) + EndPositionsFrom(s, i + 1)
  }

  /** `end` cannot overlap itself, so resuming after each match loses
      nothing: the global match count is the number of whole-word `end`
      occurrences, whatever keyword (`if`, `for`, `while`, `function`) opened
      the block each one closes. */
  lemma {:induction false} EndMatchesAreAllOccurrences(s: string, i: nat)
    requires i <= |s|
    ensures EndMatchesFrom(s, i) == EndPositionsFrom(s, i)
    decreases |s| - i
  {
    if i == |s| {
    } else if EndAt(s, i) {
      assert s[i..i + 3] == EndKeyword;
      assert s[i + 1] == 'n' && s[i + 2] == 'd';
      assert !EndAt(s, i + 1) && !EndAt(s, i + 2);
      assert EndPositionsFrom(s, i + 1) == EndPositionsFrom(s, i + 2);
      assert EndPositionsFrom(s, i + 2) == EndPositionsFrom(s, i + 3);
      EndMatchesAreAllOccurrences(s, i + 3);
    } else {
      EndMatchesAreAllOccurrences(s, i + 1);
    }
  }

  /** The pattern has no word boundary in front of `function`, so the tail
      of a longer word matches: in `myfunction x` a match starts at the `f`
      whatever precedes it. Whether the global search counts it depends on
      the matches before it (see `NestedFunctionSwallowed`). */
  lemma FunctionMatchInsideWord(s: string, i: nat)
    requires OccursAt(s, FunctionKeyword, i)
    requires i + |FunctionKeyword| + 1 < |s|
    requires IsWs(s[i + |FunctionKeyword|]) && IsWordChar(s[i + |FunctionKeyword| + 1])
    ensures FunctionMatchAt(s, i).Some?
  {
    WordCharIsNotWs(s[i + |FunctionKeyword| + 1]);
    SkipWhileStopsAt(s, i + |FunctionKeyword|, i + |FunctionKeyword| + 1, IsWs);
  }

  /** A script with one definition nested in the name position of another. */
  const NestedDefinitions: string := "function function x"

  /** The outer match runs from the first keyword to the end of the second. */
  lemma NestedOuterMatch()
    ensures FunctionMatchAt(NestedDefinitions, 0) == Some(17)
  {
    assert OccursAt(NestedDefinitions, FunctionKeyword, 0);
    SkipWhileStopsAt(NestedDefinitions, 8, 9, IsWs);
    SkipWhileStopsAt(NestedDefinitions, 9, 17, IsWordChar);
  }

  /** On its own, the second keyword starts a match too. */
  lemma NestedInnerMatch()
    ensures FunctionMatchAt(NestedDefinitions, 9) == Some(19)
  {
    assert OccursAt(NestedDefinitions, FunctionKeyword, 9);
    SkipWhileStopsAt(NestedDefinitions, 17, 18, IsWs);
    SkipWhileStopsAt(NestedDefinitions, 18, 19, IsWordChar);
  }

  /** Nothing is found after the outer match. */
  lemma NestedTailEmpty()
    ensures FunctionMatchesFrom(NestedDefinitions, 17) == 0
  {
    assert FunctionMatchAt(NestedDefinitions, 17) == None;
    assert FunctionMatchAt(NestedDefinitions, 18) == None;
    assert FunctionMatchesFrom(NestedDefinitions, 18) == 0;
  }

  /** The search resumes after the end of each match, so a match that starts
      inside an earlier one is not counted: `function function x` holds two
      positions where a match starts, yet the count is one. */
  lemma NestedFunctionSwallowed()
    ensures FunctionMatchAt(NestedDefinitions, 0).Some?
    ensures FunctionMatchAt(NestedDefinitions, 9).Some?
    ensures FunctionCount(NestedDefinitions) == 1
  {
    NestedOuterMatch();
    NestedInnerMatch();
    NestedTailEmpty();
  }
}
