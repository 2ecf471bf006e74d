/** The three advisory warnings the checker attaches to a line, and the text
    each one is reported as. */
module Warnings {
  import opened Text
  import opened Decimal

  /** Lua's line-comment marker, which is also JavaScript's decrement operator. */
  const CommentMarker: string := "--"

  /** What a line is warned about, in the order the checks run on a line. */
  datatype Kind = StrictEquality | IncrementDecrement | Semicolon

  /** A warning about the line with 1-based number `line`. */
  datatype Warning = Warning(line: nat, kind: Kind)

  function Rank(k: Kind): nat {
    match k
    case StrictEquality => 0
    case IncrementDecrement => 1
    case Semicolon => 2
  }

  function KindText(k: Kind): string {
    match k
    case StrictEquality => "Use '==' and '~=' for equality checks in Lua"
    case IncrementDecrement => "Lua doesn't support increment/decrement operators"
    case Semicolon => "Semicolons are optional in Lua"
  }

  /** The condition under which a line draws a warning of kind `k`. The
      increment/decrement test is a raw substring test, so it also matches a
      comment marker; the semicolon test looks at the trimmed line. */
  predicate Fires(k: Kind, line: string) {
    match k
    case StrictEquality => Contains(line, "===") || Contains(line, "!==")
    case IncrementDecrement => Contains(line, "++") || Contains(line, CommentMarker)
    case Semicolon => Contains(line, ";") && !StartsWith(Trim(line), CommentMarker)
  }

  /** `a` is reported before `b`: an earlier line, or the same line and an
      earlier check. */
  predicate Before(a: Warning, b: Warning) {
    a.line < b.line || (a.line == b.line && Rank(a.kind) < Rank(b.kind))
  }

  predicate InScanOrder(ws: seq<Warning>) {
    forall i, j :: 0 <= i < j < |ws| ==> Before(ws[i], ws[j])
  }

  /** The warnings about line `number` given which checks fired on it, in
      the fixed order equality, increment/decrement, semicolon. */
  function Collect(number: nat, equality: bool, incDec: bool, semicolon: bool): (ws: seq<Warning>)
    ensures |ws| <= 3
  {
    var afterEquality := if equality then [Warning(number, StrictEquality)] else [];
    var afterIncDec :=
      if incDec then afterEquality + [Warning(number, IncrementDecrement)] else afterEquality;
    if semicolon then afterIncDec + [Warning(number, Semicolon)] else afterIncDec
  }

  /** Which of the three flags belongs to check `k`. */
  function Selected(k: Kind, equality: bool, incDec: bool, semicolon: bool): bool {
    match k
    case StrictEquality => equality
    case IncrementDecrement => incDec
    case Semicolon => semicolon
  }

  /** The collected warnings are all about line `number`, in check order. */
  lemma CollectShape(number: nat, equality: bool, incDec: bool, semicolon: bool)
    ensures var ws := Collect(number, equality, incDec, semicolon);
      (forall i :: 0 <= i < |ws| ==> ws[i].line == number) && InScanOrder(ws)
  {
  }

  /** A check's warning is collected exactly when its flag is set. */
  lemma CollectMembers(number: nat, equality: bool, incDec: bool, semicolon: bool, k: Kind)
    ensures Warning(number, k) in Collect(number, equality, incDec, semicolon)
        <==> Selected(k, equality, incDec, semicolon)
  {
  }

  /** The warnings of the line numbered `number`: one per check that fires
      on it, so at most three. */
  function LineWarnings(line: string, number: nat): seq<Warning> {
    Collect(number, Fires(StrictEquality, line), Fires(IncrementDecrement, line), Fires(Semicolon, line))
  }

  /** The warnings of a line are all about that line, in check order. */
  lemma LineWarningsShape(line: string, number: nat)
    ensures var ws := LineWarnings(line, number);
      (forall i :: 0 <= i < |ws| ==> ws[i].line == number) && InScanOrder(ws)
  {
    CollectShape(number, Fires(StrictEquality, line), Fires(IncrementDecrement, line), Fires(Semicolon, line));
  }

  /** A line draws a warning of a kind exactly when that kind fires on it. */
  lemma LineWarningsMembers(line: string, number: nat, k: Kind)
    ensures Warning(number, k) in LineWarnings(line, number) <==> Fires(k, line)
  {
    CollectMembers(number, Fires(StrictEquality, line), Fires(IncrementDecrement, line), Fires(Semicolon, line), k);
  }

  /** A line whose trimmed text starts with the comment marker never draws
      the semicolon warning, yet always draws the increment/decrement one. */
  lemma CommentLineWarnings(line: string)
    requires StartsWith(Trim(line), CommentMarker)
    ensures !Fires(Semicolon, line)
    ensures Fires(IncrementDecrement, line)
  {
    TrimmedPrefixOccurs(line, CommentMarker);
  }

  const LinePrefix: string := "Line "

  /** The text of a warning: `Line ${n}: ` followed by the kind's message. */
  function Render(w: Warning): string {
    LinePrefix + (NatToString(w.line) + (": " + KindText(w.kind)))
  }

  /** A digit string followed by a non-digit can be cut off unambiguously. */
  lemma DigitsThenRest(da: string, ta: string, db: string, tb: string)
    requires AllDigits(da) && AllDigits(db)
    requires |ta| > 0 && !IsDigit(ta[0]) && |tb| > 0 && !IsDigit(tb[0])
    requires da + ta == db + tb
    ensures da == db && ta == tb
  {
    LeadingDigitsOfNumber(da, ta);
    LeadingDigitsOfNumber(db, tb);
    var s := da + ta;
    assert da == s[..|da|] && ta == s[|da|..];
    assert db == s[..|db|] && tb == s[|db|..];
  }

  lemma KindTextInjective(a: Kind, b: Kind)
    requires KindText(a) == KindText(b)
    ensures a == b
  {
    assert KindText(a)[0] == KindText(b)[0];
  }

  /** Distinct warnings are reported as distinct strings: the line number and
      the kind can be read back from the text. */
  lemma RenderInjective(a: Warning, b: Warning)
    requires Render(a) == Render(b)
    ensures a == b
  {
    var da, db := NatToString(a.line), NatToString(b.line);
    var ta, tb := ": " + KindText(a.kind), ": " + KindText(b.kind);
    assert da + ta == Render(a)[|LinePrefix|..];
    assert db + tb == Render(b)[|LinePrefix|..];
    DigitsThenRest(da, ta, db, tb);
    NatToStringInjective(a.line, b.line);
    assert KindText(a.kind) == ta[2..] == tb[2..] == KindText(b.kind);
    KindTextInjective(a.kind, b.kind);
  }

  /** The reported list of warning texts. */
  function RenderAll(ws: seq<Warning>): (ss: seq<string>)
    ensures |ss| == |ws|
    ensures forall i :: 0 <= i < |ws| ==> ss[i] == Render(ws[i])
  {
    seq(|ws|, i requires 0 <= i < |ws| => Render(ws[i]))
  }

  /** The reported texts determine the warnings they came from. */
  lemma RenderAllInjective(a: seq<Warning>, b: seq<Warning>)
    requires RenderAll(a) == RenderAll(b)
    ensures a == b
  {
    forall i | 0 <= i < |a| ensures a[i] == b[i] {
      RenderInjective(a[i], b[i]);
    }
  }
}
