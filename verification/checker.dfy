/** `checkLuaSyntax`: a heuristic validity check of Lua script text. It does not
    parse the script. It rejects blank text, scans the lines keeping three signed
    delimiter balances and collecting advisory warnings, judges the balances
    in a fixed order once the whole text has been scanned, and finally compares
    the number of `function name` definitions with the number of `end`
    keywords. */
module LuaChecker {
  import opened Wrappers
  import opened Text
  import opened Lines
  import opened Patterns
  import opened Warnings

  const NewLine: char := '\n'

  // ---------------------------------------------------------------------------
  // Delimiters and failures

  datatype Delimiter = Bracket | Paren | Curly

  function Opener(d: Delimiter): char {
    match d
    case Bracket => '['
    case Paren => '('
    case Curly => '{'
  }

  function Closer(d: Delimiter): char {
    match d
    case Bracket => ']'
    case Paren => ')'
    case Curly => '}'
  }

  /** Openers minus closers of kind `d` over the whole of `s`. */
  function Balance(s: string, d: Delimiter): int {
    CountChar(s, Opener(d)) - CountChar(s, Closer(d))
  }

  /** Only totals are compared, never positions: a closer that comes before
      its opener (`]` then `[`) balances as well as one that comes after. */
  lemma BalanceIgnoresOrder(a: string, b: string, d: Delimiter)
    ensures Balance(a + b, d) == Balance(b + a, d) == Balance(a, d) + Balance(b, d)
  {
    CountCharConcat(a, b, Opener(d));
    CountCharConcat(a, b, Closer(d));
    CountCharConcat(b, a, Opener(d));
    CountCharConcat(b, a, Closer(d));
  }

  /** An unbalanced delimiter needs a delimiter in the text, so the text is
      not blank. */
  lemma UnbalancedIsNotBlank(s: string, d: Delimiter)
    requires Balance(s, d) != 0
    ensures !IsBlank(s)
  {
    var c := if CountChar(s, Opener(d)) > 0 then Opener(d) else Closer(d);
    CountCharZero(s, c);
    var i :| 0 <= i < |s| && s[i] == c;
    assert !IsWs(s[i]);
  }

  /** The fatal problems the checker reports, first one found wins. For an
      unbalanced delimiter, `missing` tells a missing closer (more openers)
      from an extra closer (more closers). */
  datatype Failure = EmptyScript | Unbalanced(delimiter: Delimiter, missing: bool) | MismatchedEnds

  /** The order in which the checks run. */
  function Precedence(f: Failure): nat {
    match f
    case EmptyScript => 0
    case Unbalanced(Bracket, _) => 1
    case Unbalanced(Paren, _) => 2
    case Unbalanced(Curly, _) => 3
    case MismatchedEnds => 4
  }

  /** The exact `error` text of each failure. */
  function Message(f: Failure): (m: string)
    ensures m != []
  {
    match f
    case EmptyScript => "Empty script"
    case Unbalanced(Bracket, missing) =>
      "Unbalanced brackets: " + (if missing then "missing ]" else "extra ]")
    case Unbalanced(Paren, missing) =>
      "Unbalanced parentheses: " + (if missing then "missing )" else "extra )")
    case Unbalanced(Curly, missing) =>
      "Unbalanced curly braces: " + (if missing then "missing }" else "extra }")
    case MismatchedEnds => "Mismatched function definitions and 'end' statements"
  }

  /** Each failure has its own message, so the error text identifies the
      failure. */
  lemma MessageInjective(f: Failure, g: Failure)
    requires Message(f) == Message(g)
    ensures f == g
  {
    var m := Message(f);
    if f.Unbalanced? && g.Unbalanced? && f.delimiter == g.delimiter {
      assert m[|m| - 3] == Message(g)[|m| - 3];
    } else {
      assert m[11] == Message(g)[11];
    }
  }

  /** Failure `f` holds of `s` taken on its own, regardless of the others. */
  predicate Holds(f: Failure, s: string) {
    match f
    case EmptyScript => IsBlank(s)
    case Unbalanced(d, missing) => Balance(s, d) != 0 && (missing <==> Balance(s, d) > 0)
    case MismatchedEnds => FunctionCount(s) != EndCount(s)
  }

  /** The reference verdict, stated on whole-text counts alone: the first
      failing check in the fixed order, or None. */
  function Expected(s: string): Option<Failure> {
    if IsBlank(s) then Some(EmptyScript)
    else if Balance(s, Bracket) != 0 then Some(Unbalanced(Bracket, Balance(s, Bracket) > 0))
    else if Balance(s, Paren) != 0 then Some(Unbalanced(Paren, Balance(s, Paren) > 0))
    else if Balance(s, Curly) != 0 then Some(Unbalanced(Curly, Balance(s, Curly) > 0))
    else if FunctionCount(s) != EndCount(s) then Some(MismatchedEnds)
    else None
  }

  /** The reference verdict reports a failure exactly when it holds and every
      earlier check passes; it reports none exactly when no failure holds. */
  lemma {:induction false} ExpectedIsFirstHolding(s: string, f: Failure)
    ensures Expected(s) == Some(f) <==>
      Holds(f, s) && forall g :: Precedence(g) < Precedence(f) ==> !Holds(g, s)
    ensures Expected(s) == None <==> forall g :: !Holds(g, s)
  {
    if Expected(s) == Some(f) {
      forall g | Precedence(g) < Precedence(f) ensures !Holds(g, s) {
        if g.Unbalanced? {
          assert !Holds(Unbalanced(g.delimiter, !g.missing), s) ==> !Holds(g, s);
        }
      }
    }
    if Expected(s) != None {
      var h := Expected(s).value;
      assert Holds(h, s);
    } else {
      forall g ensures !Holds(g, s) {
      }
    }
    if Expected(s) != Some(f) && Holds(f, s) && Expected(s) != None {
      var h := Expected(s).value;
      assert Holds(h, s);
      assert Precedence(h) < Precedence(f);
    }
  }

  // ---------------------------------------------------------------------------
  // The warnings of a whole text

  /** The per-line warning lists laid end to end. */
  function Flatten(xss: seq<seq<Warning>>): seq<Warning>
    decreases |xss|
  {
    if |xss| == 0 then [] else Flatten(xss[..|xss| - 1]) + xss[|xss| - 1]
  }

  /** The list at index `i` holds warnings about line `i + 1` only, in the
      order of the checks. */
  predicate Numbered(xss: seq<seq<Warning>>) {
    forall i, j :: 0 <= i < |xss| && 0 <= j < |xss[i]| ==> xss[i][j].line == i + 1
  }

  predicate EachInScanOrder(xss: seq<seq<Warning>>) {
    forall i :: 0 <= i < |xss| ==> InScanOrder(xss[i])
  }

  lemma FlattenSnoc(xss: seq<seq<Warning>>, n: nat)
    requires 0 < n <= |xss|
    ensures Flatten(xss[..n]) == Flatten(xss[..n - 1]) + xss[n - 1]
  {
    assert xss[..n][..n - 1] == xss[..n - 1];
  }

  /** Numbered lists flatten to warnings about lines `1..|xss|`. */
  lemma {:induction false} FlattenLines(xss: seq<seq<Warning>>)
    requires Numbered(xss)
    ensures forall i :: 0 <= i < |Flatten(xss)| ==> 1 <= Flatten(xss)[i].line <= |xss|
    decreases |xss|
  {
    if |xss| > 0 {
      var init := xss[..|xss| - 1];
      var last := xss[|xss| - 1];
      assert Numbered(init);
      FlattenLines(init);
      var ws := Flatten(xss);
      assert ws == Flatten(init) + last;
      forall i | 0 <= i < |ws| ensures 1 <= ws[i].line <= |xss| {
        if i >= |Flatten(init)| {
          assert ws[i] == last[i - |Flatten(init)|];
        }
      }
    }
  }

  /** Two runs of warnings, each in scan order and the first wholly before
      the second, make one run in scan order. */
  lemma ConcatInScanOrder(a: seq<Warning>, b: seq<Warning>)
    requires InScanOrder(a) && InScanOrder(b)
    requires forall i, j :: 0 <= i < |a| && 0 <= j < |b| ==> Before(a[i], b[j])
    ensures InScanOrder(a + b)
  {
    var ab := a + b;
    forall i, j | 0 <= i < j < |ab| ensures Before(ab[i], ab[j]) {
      if j < |a| {
        assert ab[i] == a[i] && ab[j] == a[j];
      } else if i >= |a| {
        assert ab[i] == b[i - |a|] && ab[j] == b[j - |a|];
      } else {
        assert ab[i] == a[i] && ab[j] == b[j - |a|];
      }
    }
  }

  /** Numbered lists, each in check order, flatten to a list in scan order:
      by line, then by check. */
  lemma {:induction false} FlattenInScanOrder(xss: seq<seq<Warning>>)
    requires Numbered(xss) && EachInScanOrder(xss)
    ensures InScanOrder(Flatten(xss))
    decreases |xss|
  {
    if |xss| > 0 {
      var init := xss[..|xss| - 1];
      var last := xss[|xss| - 1];
      assert Numbered(init) && EachInScanOrder(init);
      FlattenInScanOrder(init);
      FlattenLines(init);
      var prev := Flatten(init);
      forall i, j | 0 <= i < |prev| && 0 <= j < |last| ensures Before(prev[i], last[j]) {
        assert prev[i].line <= |init|;
        assert last[j].line == |xss|;
      }
      ConcatInScanOrder(prev, last);
    }
  }

  /** Each list contributes its own length. */
  lemma {:induction false} FlattenLength(xss: seq<seq<Warning>>, bound: nat)
    requires forall i :: 0 <= i < |xss| ==> |xss[i]| <= bound
    ensures |Flatten(xss)| <= bound * |xss|
    decreases |xss|
  {
    if |xss| > 0 {
      FlattenLength(xss[..|xss| - 1], bound);
    }
  }

  lemma MemberOfConcat<T>(a: seq<T>, b: seq<T>, x: T)
    ensures x in a + b <==> x in a || x in b
  {
  }

  /** A warning is in the flattened numbered lists exactly when it is in
      the list of its own line. */
  lemma {:induction false} FlattenMember(xss: seq<seq<Warning>>, w: Warning)
    requires Numbered(xss)
    ensures w in Flatten(xss) <==> 1 <= w.line <= |xss| && w in xss[w.line - 1]
    decreases |xss|
  {
    if |xss| > 0 {
      var init := xss[..|xss| - 1];
      var last := xss[|xss| - 1];
      assert Numbered(init);
      FlattenMember(init, w);
      MemberOfConcat(Flatten(init), last, w);
      if w.line == |xss| {
        FlattenLines(init);
        assert w !in Flatten(init);
      } else {
        assert w !in last;
      }
    }
  }

  /** The warning lists of the lines, line `i + 1` at index `i`. */
  function PerLine(lines: seq<string>): (xss: seq<seq<Warning>>)
    ensures |xss| == |lines|
  {
    seq(|lines|, i requires 0 <= i < |lines| => LineWarnings(lines[i], i + 1))
  }

  lemma PerLineNumbered(lines: seq<string>)
    ensures Numbered(PerLine(lines))
  {
    var xss: seq<seq<Warning>> := PerLine(lines);
    forall i: nat, j: nat | i < |xss| && j < |xss[i]| ensures xss[i][j].line == i + 1 {
      LineWarningsShape(lines[i], i + 1);
    }
  }

  lemma PerLineInScanOrder(lines: seq<string>)
    ensures EachInScanOrder(PerLine(lines))
  {
    var xss: seq<seq<Warning>> := PerLine(lines);
    forall i | 0 <= i < |xss| ensures InScanOrder(xss[i]) {
      LineWarningsShape(lines[i], i + 1);
    }
  }

  /** The warnings of a whole text: every line's, in line order. */
  function ScriptWarnings(content: string): seq<Warning> {
    Flatten(PerLine(Split(content, NewLine)))
  }

  /** The warnings of the lines are in scan order: by line, then by check. */
  lemma LinesWarningsInScanOrder(lines: seq<string>)
    ensures InScanOrder(Flatten(PerLine(lines)))
  {
    PerLineNumbered(lines);
    PerLineInScanOrder(lines);
    FlattenInScanOrder(PerLine(lines));
  }

  /** Each line draws at most three warnings. */
  lemma LinesWarningsCount(lines: seq<string>)
    ensures |Flatten(PerLine(lines))| <= 3 * |lines|
  {
    FlattenLength(PerLine(lines), 3);
  }

  /** The line numbered `k` draws a warning of kind `kind` exactly when that
      kind fires on it. */
  lemma LinesWarningMember(lines: seq<string>, k: nat, kind: Kind)
    ensures Warning(k, kind) in Flatten(PerLine(lines)) <==>
      1 <= k <= |lines| && Fires(kind, lines[k - 1])
  {
    PerLineNumbered(lines);
    FlattenMember(PerLine(lines), Warning(k, kind));
    if 1 <= k <= |lines| {
      assert PerLine(lines)[k - 1] == LineWarnings(lines[k - 1], k);
      LineWarningsMembers(lines[k - 1], k, kind);
    }
  }

  // ---------------------------------------------------------------------------
  // The checker

  /** The `SyntaxCheckResult` record; `error` is absent when None. */
  datatype CheckResult = CheckResult(valid: bool, error: Option<string>, warnings: seq<string>)

  /** A verdict as a record, with the given warning texts. */
  function Verdict(f: Option<Failure>, warnings: seq<string>): (r: CheckResult)
    ensures r.valid <==> r.error == None
    ensures r.warnings == warnings
    ensures f.Some? ==> r.error == Some(Message(f.value))
  {
    match f
    case Some(failure) => CheckResult(false, Some(Message(failure)), warnings)
    case None => CheckResult(true, None, warnings)
  }

  /** What `checkLuaSyntax(content)` resolves to, stated on whole-text
      counts: the first failing check, and the warnings of every line unless
      the text is blank. */
  function CheckLuaSyntax(content: string): CheckResult {
    Verdict(Expected(content), if IsBlank(content) then [] else RenderAll(ScriptWarnings(content)))
  }

  /** The sum of the lines' own balances, as the loop accumulates it. */
  function LinesBalance(lines: seq<string>, d: Delimiter): int
    decreases |lines|
  {
    if |lines| == 0 then 0
    else LinesBalance(lines[..|lines| - 1], d) + Balance(lines[|lines| - 1], d)
  }

  /** The first `i + 1` lines add line `i`'s balance to that of the first `i`. */
  lemma LinesBalanceStep(lines: seq<string>, i: nat, d: Delimiter)
    requires i < |lines|
    ensures LinesBalance(lines[..i + 1], d) == LinesBalance(lines[..i], d) + Balance(lines[i], d)
  {
    assert lines[..i + 1][..i] == lines[..i];
  }

  /** Splitting into lines neither loses nor adds delimiters: the lines'
      balances sum to the balance of the text they join back into. */
  lemma {:induction false} LinesBalanceIsTextBalance(lines: seq<string>, d: Delimiter)
    ensures LinesBalance(lines, d) == Balance(Join(lines, NewLine), d)
    decreases |lines|
  {
    if |lines| > 0 {
      var init := lines[..|lines| - 1];
      var line := lines[|lines| - 1];
      LinesBalanceIsTextBalance(init, d);
      InitLast(lines);
      CountCharJoinSnoc(init, line, NewLine, Opener(d));
      CountCharJoinSnoc(init, line, NewLine, Closer(d));
    }
  }

  lemma RenderAllConcat(a: seq<Warning>, b: seq<Warning>)
    ensures RenderAll(a + b) == RenderAll(a) + RenderAll(b)
  {
  }

  /** Line `i + 1`'s warning texts extend those of the first `i` lines. */
  lemma WarningTextsStep(lines: seq<string>, i: nat)
    requires i < |lines|
    ensures RenderAll(Flatten(PerLine(lines)[..i + 1]))
         == RenderAll(Flatten(PerLine(lines)[..i])) + RenderAll(LineWarnings(lines[i], i + 1))
  {
    var xss: seq<seq<Warning>> := PerLine(lines);
    FlattenSnoc(xss, i + 1);
    RenderAllConcat(Flatten(xss[..i]), xss[i]);
  }

  /** Pushing a warning's text keeps the texts in step with the warnings. */
  lemma PushText(texts: seq<string>, ws: seq<Warning>, w: Warning)
    requires texts == RenderAll(ws)
    ensures texts + [Render(w)] == RenderAll(ws + [w])
  {
    RenderAllConcat(ws, [w]);
  }

  /** The body of the line loop that checks one line: the three warning
      tests, in order, each pushing its text. */
  method CheckLine(line: string, number: nat) returns (pushed: seq<string>)
    ensures pushed == RenderAll(LineWarnings(line, number))
  {
    pushed := [];
    ghost var ws: seq<Warning> := [];
    if Contains(line, "===") || Contains(line, "!==") {
      pushed, ws := [Render(Warning(number, StrictEquality))], [Warning(number, StrictEquality)];
    }
    if Contains(line, "++") || Contains(line, CommentMarker) {
      PushText(pushed, ws, Warning(number, IncrementDecrement));
      pushed, ws := pushed + [Render(Warning(number, IncrementDecrement))], ws + [Warning(number, IncrementDecrement)];
    }
    if Contains(line, ";") && !StartsWith(Trim(line), CommentMarker) {
      PushText(pushed, ws, Warning(number, Semicolon));
      pushed, ws := pushed + [Render(Warning(number, Semicolon))], ws + [Warning(number, Semicolon)];
    }
    assert ws == LineWarnings(line, number);
  }

  /** The line loop: three signed balances and the warning texts. Summed
      over the lines, the balances are those of the whole joined text. */
  method ScanLines(lines: seq<string>) returns (bracketCount: int, parenCount: int, curlyCount: int, warnings: seq<string>)
    ensures bracketCount == Balance(Join(lines, NewLine), Bracket)
    ensures parenCount == Balance(Join(lines, NewLine), Paren)
    ensures curlyCount == Balance(Join(lines, NewLine), Curly)
    ensures warnings == RenderAll(Flatten(PerLine(lines)))
  {
    warnings := [];
    bracketCount, parenCount, curlyCount := 0, 0, 0;
    var i := 0;
    while i < |lines|
      invariant 0 <= i <= |lines|
      invariant bracketCount == LinesBalance(lines[..i], Bracket)
      invariant parenCount == LinesBalance(lines[..i], Paren)
      invariant curlyCount == LinesBalance(lines[..i], Curly)
      invariant warnings == RenderAll(Flatten(PerLine(lines)[..i]))
    {
      var line := lines[i];
      LinesBalanceStep(lines, i, Bracket);
      LinesBalanceStep(lines, i, Paren);
      LinesBalanceStep(lines, i, Curly);
      WarningTextsStep(lines, i);

      bracketCount := bracketCount + CountChar(line, '[');
      bracketCount := bracketCount - CountChar(line, ']');
      parenCount := parenCount + CountChar(line, '(');
      parenCount := parenCount - CountChar(line, ')');
      curlyCount := curlyCount + CountChar(line, '{');
      curlyCount := curlyCount - CountChar(line, '}');

      var pushed := CheckLine(line, i + 1);
      warnings := warnings + pushed;
      i := i + 1;
    }
    assert lines[..|lines|] == lines;
    assert PerLine(lines)[..|lines|] == PerLine(lines);
    LinesBalanceIsTextBalance(lines, Bracket);
    LinesBalanceIsTextBalance(lines, Paren);
    LinesBalanceIsTextBalance(lines, Curly);
  }

  /** The checks after the loop, in the source's order: each balance in
      turn, then the definition and `end` counts. Given the whole-text
      balances, they reach the reference verdict. */
  method Judge(content: string, bracketCount: int, parenCount: int, curlyCount: int, warnings: seq<string>)
    returns (r: CheckResult)
    requires !IsBlank(content)
    requires bracketCount == Balance(content, Bracket)
    requires parenCount == Balance(content, Paren)
    requires curlyCount == Balance(content, Curly)
    ensures r == Verdict(Expected(content), warnings)
  {
    if bracketCount != 0 {
      return CheckResult(false, Some("Unbalanced brackets: " + (if bracketCount > 0 then "missing ]" else "extra ]")), warnings);
    }
    if parenCount != 0 {
      return CheckResult(false, Some("Unbalanced parentheses: " + (if parenCount > 0 then "missing )" else "extra )")), warnings);
    }
    if curlyCount != 0 {
      return CheckResult(false, Some("Unbalanced curly braces: " + (if curlyCount > 0 then "missing }" else "extra }")), warnings);
    }
    if FunctionCount(content) != EndCount(content) {
      return CheckResult(false, Some("Mismatched function definitions and 'end' statements"), warnings);
    }
    return CheckResult(true, None, warnings);
  }

  /** `checkLuaSyntax(content)` as the source writes it: reject blank text,
      run the line loop, then judge. It resolves to the whole-text verdict
      on every path. */
  method CheckLuaSyntaxLines(content: string) returns (r: CheckResult)
    ensures r == CheckLuaSyntax(content)
  {
    if Trim(content) == [] {
      return CheckResult(false, Some("Empty script"), []);
    }
    var lines := Split(content, NewLine);
    var bracketCount, parenCount, curlyCount, warnings := ScanLines(lines);
    r := Judge(content, bracketCount, parenCount, curlyCount, warnings);
  }

  // ---------------------------------------------------------------------------
  // Properties of the verdict

  /** Blank text (empty, or whitespace only) is rejected as an empty script
      with no warnings, and no other text draws that error. */
  lemma EmptyScriptFirst(content: string)
    ensures IsBlank(content) ==> CheckLuaSyntax(content) == CheckResult(false, Some("Empty script"), [])
    ensures CheckLuaSyntax(content).error == Some("Empty script") <==> IsBlank(content)
  {
    var f := Expected(content);
    if f.Some? && Message(f.value) == "Empty script" {
      MessageInjective(f.value, EmptyScript);
    }
  }

  /** The error text names the first failing check and only it: failure `f`
      is reported exactly when it holds and every check before it passes. */
  lemma ReportedFailure(content: string, f: Failure)
    ensures CheckLuaSyntax(content).error == Some(Message(f)) <==>
      Holds(f, content) && forall g :: Precedence(g) < Precedence(f) ==> !Holds(g, content)
  {
    ExpectedIsFirstHolding(content, f);
    var e := Expected(content);
    if e.Some? && Message(e.value) == Message(f) {
      MessageInjective(e.value, f);
    }
  }

  /** A delimiter that does not balance is reported as soon as every
      delimiter checked before it balances: a missing closer when openers
      outnumber closers, an extra closer otherwise. */
  lemma UnbalancedReported(content: string, d: Delimiter)
    requires Balance(content, d) != 0
    requires d != Bracket ==> Balance(content, Bracket) == 0
    requires d == Curly ==> Balance(content, Paren) == 0
    ensures CheckLuaSyntax(content).error == Some(Message(Unbalanced(d, Balance(content, d) > 0)))
    ensures !CheckLuaSyntax(content).valid
  {
    UnbalancedIsNotBlank(content, d);
  }

  /** A script is valid exactly when no check fails; a valid result has no
      error, and an invalid one has a non-empty error. */
  lemma ValidIff(content: string)
    ensures CheckLuaSyntax(content).valid <==>
      && !IsBlank(content)
      && Balance(content, Bracket) == 0
      && Balance(content, Paren) == 0
      && Balance(content, Curly) == 0
      && FunctionCount(content) == EndCount(content)
    ensures CheckLuaSyntax(content).valid <==> CheckLuaSyntax(content).error == None
    ensures !CheckLuaSyntax(content).valid ==> CheckLuaSyntax(content).error.value != []
  {
    ExpectedIsFirstHolding(content, EmptyScript);
  }

  /** The verdict depends on whole-text counts alone: two texts that agree
      on blankness, on every balance and on both keyword counts get the same
      verdict, however their lines and warnings differ. */
  lemma VerdictDependsOnCountsOnly(a: string, b: string)
    requires IsBlank(a) == IsBlank(b)
    requires forall d :: Balance(a, d) == Balance(b, d)
    requires FunctionCount(a) == FunctionCount(b) && EndCount(a) == EndCount(b)
    ensures CheckLuaSyntax(a).valid == CheckLuaSyntax(b).valid
    ensures CheckLuaSyntax(a).error == CheckLuaSyntax(b).error
  {
    assert Balance(a, Bracket) == Balance(b, Bracket);
    assert Balance(a, Paren) == Balance(b, Paren);
    assert Balance(a, Curly) == Balance(b, Curly);
  }

  /** A warning's text is among the texts of a list exactly when the warning
      is in the list. */
  lemma RenderAllMember(ws: seq<Warning>, w: Warning)
    ensures Render(w) in RenderAll(ws) <==> w in ws
  {
    var ss := RenderAll(ws);
    if Render(w) in ss {
      var i :| 0 <= i < |ss| && ss[i] == Render(w);
      RenderInjective(ws[i], w);
    }
    if w in ws {
      var i :| 0 <= i < |ws| && ws[i] == w;
      assert ss[i] == Render(w);
    }
  }

  /** Unless the text is blank, every path reports the warnings of every
      line, failing or not: in line order and then check order, at most
      three per line, and line `k` is reported for a check exactly when the
      check fires on it. */
  lemma ReportedWarnings(content: string, k: nat, kind: Kind)
    ensures var r := CheckLuaSyntax(content);
      var lines := Split(content, NewLine);
      && (!IsBlank(content) ==> r.warnings == RenderAll(ScriptWarnings(content)))
      && InScanOrder(ScriptWarnings(content))
      && |r.warnings| <= 3 * |lines|
      && (Render(Warning(k, kind)) in r.warnings <==>
            !IsBlank(content) && 1 <= k <= |lines| && Fires(kind, lines[k - 1]))
  {
    var lines := Split(content, NewLine);
    LinesWarningsInScanOrder(lines);
    LinesWarningsCount(lines);
    LinesWarningMember(lines, k, kind);
    RenderAllMember(ScriptWarnings(content), Warning(k, kind));
  }

  /** The status the script routes store with a script after checking it. */
  function ScriptStatus(r: CheckResult): string {
    if r.valid then "valid" else "error"
  }

  /** A script is stored as valid exactly when no check fails on it. */
  lemma StatusIsValidIff(content: string)
    ensures ScriptStatus(CheckLuaSyntax(content)) == "valid" <==> Expected(content) == None
    ensures ScriptStatus(CheckLuaSyntax(content)) == "error" <==> Expected(content).Some?
  {
  }
}
