# A Dafny model of the GrowSoft Lua script checker

The GrowSoft Lua manager checks a script before storing it with
`checkLuaSyntax(content)`. The check is a heuristic and does not parse Lua.

1. It rejects blank text.
2. It splits the text on `\n` and walks the lines. For each line it adds the
   line's openers minus its closers to three signed balances: `[]`, `()` and
   `{}`. It also collects up to three advisory warnings per line, tagged
   `Line <n>:`.
3. Once every line has been scanned, it judges the three balances in a fixed
   order.
4. Finally, it compares the number of `function\s+(\w+)` matches with the
   number of `\bend\b` matches in the whole text.

The first failing check decides the `error` text. Every path after the scan
returns the same warnings.

The project holds two descriptions of the checker:

- `LuaChecker.CheckLuaSyntax` states the verdict on whole-text counts. It
  returns the first failing check (`LuaChecker.Expected`) and the warnings of
  every line.
- `LuaChecker.CheckLuaSyntaxLines` follows the source statement by statement:
  the blank check, the line loop (`ScanLines`, whose body is `CheckLine`),
  then the checks after the loop (`Judge`). Its contract is that it computes
  `CheckLuaSyntax` on every input.

The properties below are stated and proved about `CheckLuaSyntax`.

Files:

- `wrappers.dfy`: `Option`.
- `text.dfy`: JavaScript's `\s` and `\w` classes, `trim`, `includes`,
  `startsWith`, and counting one character (`match(/c/g).length`).
- `lines.dfy`: `split('\n')` and its inverse.
- `decimal.dfy`: the decimal rendering of a line number.
- `patterns.dfy`: the two whole-text regular expressions, run as a global
  `match`. The search is leftmost, non-overlapping, and resumes after each
  match.
- `warnings.dfy`: the three per-line warnings and their texts.
- `checker.dfy`: the balances, the failures and their messages, the line
  loop, the verdict, and the status the API routes store.

## Model

| member | source | states |
|---|---|---|
| LuaChecker.CheckLuaSyntax | growsoft-lua-manager/lib/lua-checker.ts:10-98 | The whole-text description of the checker. It combines the first failing check (`Expected`) with the rendered warnings of every line, or none for blank text. The lemmas below state its properties. |
| LuaChecker.CheckLuaSyntaxLines | growsoft-lua-manager/lib/lua-checker.ts:10-98 | The statement-by-statement checker returns the whole-text verdict and the warnings of every line on every path. |
| LuaChecker.EmptyScriptFirst | growsoft-lua-manager/lib/lua-checker.ts:15-21 | Blank text gives exactly `valid=false`, `error="Empty script"` and no warnings. No other text draws that error. |
| Text.IsWs | growsoft-lua-manager/lib/lua-checker.ts:15 | JavaScript's `\s` class, which is also the set `trim()` strips: tab, line feed, vertical tab, form feed, carriage return, space, U+00A0, U+1680, U+2000-U+200A, U+2028, U+2029, U+202F, U+205F, U+3000 and U+FEFF. |
| Text.Trim | growsoft-lua-manager/lib/lua-checker.ts:15 | `trim()` returns a slice of the text with only whitespace outside it and none at its two ends. It is empty exactly when every character is whitespace. |
| Text.TrimIsUnique | growsoft-lua-manager/lib/lua-checker.ts:53 | Only one slice fits that description, so the contract of `Trim` determines what `trim()` keeps. |
| Lines.Split | growsoft-lua-manager/lib/lua-checker.ts:24 | `split('\n')` gives one more piece than there are newlines. No piece contains a newline, and joining the pieces with `\n` gives the text back. |
| Lines.SplitJoin | growsoft-lua-manager/lib/lua-checker.ts:24 | Splitting undoes joining: newline-free pieces come back unchanged. |
| LuaChecker.ScanLines | growsoft-lua-manager/lib/lua-checker.ts:24-56 | After the loop, each counter is the whole-text balance of its delimiter. The warning texts are those of every line, in line order. |
| LuaChecker.LinesBalanceIsTextBalance | growsoft-lua-manager/lib/lua-checker.ts:29-43 | Summing the lines' own balances gives the balance of the text they join into. Splitting neither loses nor adds a delimiter. |
| Text.CountChar | growsoft-lua-manager/lib/lua-checker.ts:33-42 | The length of `line.match(/c/g)`, or zero when it returns null: the number of occurrences of one character, never more than the length of the text. |
| Text.CountCharConcat | growsoft-lua-manager/lib/lua-checker.ts:33-42 | The number of matches of a one-character global pattern is additive over concatenation. |
| LuaChecker.BalanceIgnoresOrder | growsoft-lua-manager/lib/lua-checker.ts:58-81 | Only totals are judged, never positions, so a closer that comes before its opener balances too. |
| LuaChecker.UnbalancedIsNotBlank | growsoft-lua-manager/lib/lua-checker.ts:15-59 | A non-zero balance implies the text is not blank, so the empty-script check cannot hide an imbalance. |
| LuaChecker.UnbalancedReported | growsoft-lua-manager/lib/lua-checker.ts:58-81 | A delimiter whose balance is non-zero is reported once every earlier delimiter balances. The message is `missing` when openers outnumber closers and `extra` otherwise. Brackets are reported whatever the other counts. |
| LuaChecker.Message | growsoft-lua-manager/lib/lua-checker.ts:62-90 | The exact `error` texts: `Empty script`, `Unbalanced brackets/parentheses/curly braces: missing X` or `extra X`, and `Mismatched function definitions and 'end' statements`. None is empty. |
| LuaChecker.MessageInjective | growsoft-lua-manager/lib/lua-checker.ts:59-93 | The eight error texts are pairwise distinct, so the text identifies the failure and the sign. |
| LuaChecker.Expected | growsoft-lua-manager/lib/lua-checker.ts:15-93 | The first failing check, taken on whole-text counts, in the source's order: blank, brackets, parentheses, braces, definitions against `end`. |
| LuaChecker.ExpectedIsFirstHolding | growsoft-lua-manager/lib/lua-checker.ts:15-98 | The reference verdict is a failure exactly when that failure holds and every earlier check passes. It is none exactly when no failure holds. |
| LuaChecker.ReportedFailure | growsoft-lua-manager/lib/lua-checker.ts:15-93 | The order is empty, brackets, parentheses, braces, then definitions against `end`. A failure's error is reported exactly when it holds and every earlier check passes. |
| LuaChecker.Judge | growsoft-lua-manager/lib/lua-checker.ts:58-98 | The checks after the loop, given whole-text balances, reach the first failing check in order. They pass the warnings through unchanged on every path. |
| LuaChecker.ValidIff | growsoft-lua-manager/lib/lua-checker.ts:84-98 | The result is valid exactly when the text is non-blank, all three balances are zero, and the definition and `end` counts are equal. A valid result has no error; an invalid one has a non-empty error. |
| LuaChecker.VerdictDependsOnCountsOnly | growsoft-lua-manager/lib/lua-checker.ts:58-97 | Two texts that agree on blankness, the three balances and the two keyword counts get the same `valid` and `error`, whatever their lines and warnings. |
| Patterns.FunctionMatchAt | growsoft-lua-manager/lib/lua-checker.ts:84 | `function\s+\w+` matches at a position exactly when the text there has its shape. The greedy `\w+` ends the match where the word ends. |
| Text.IsWordChar | growsoft-lua-manager/lib/lua-checker.ts:84-85 | JavaScript's `\w` class, `[A-Za-z0-9_]`, which also decides where `\b` lies. |
| Patterns.FunctionMatchesFrom | growsoft-lua-manager/lib/lua-checker.ts:84 | The global search resumes after each match. Every counted match spans at least ten characters, so there are at most a tenth as many matches as characters. |
| Patterns.FunctionCountZeroIff | growsoft-lua-manager/lib/lua-checker.ts:84 | The global search finds no match exactly when no position has the `function\s+\w+` shape. |
| Patterns.FunctionMatchesAtMostPositions | growsoft-lua-manager/lib/lua-checker.ts:84 | The count is never more than the number of positions where a match starts. |
| Patterns.NestedFunctionSwallowed | growsoft-lua-manager/lib/lua-checker.ts:84 | The count can be less: in `function function x` a match starts at both keywords, yet the count is one. The first match ends after the second keyword, and the search resumes there. |
| Patterns.AnonymousFunctionNotMatched | growsoft-lua-manager/lib/lua-checker.ts:84 | `function(` never starts a match, so anonymous functions are not counted. |
| Patterns.FunctionMatchInsideWord | growsoft-lua-manager/lib/lua-checker.ts:84 | No word boundary is required before `function`, so a match starts at the `f` of `myfunction x`. Whether it is counted depends on the matches before it. |
| Patterns.EndMatchesFrom | growsoft-lua-manager/lib/lua-checker.ts:85 | The global `\bend\b` search: `end` with no word character on either side, resuming after each match. |
| Patterns.EndMatchesAreAllOccurrences | growsoft-lua-manager/lib/lua-checker.ts:85 | The global `\bend\b` count is the number of whole-word `end`s, whichever block each one closes. |
| LuaChecker.CheckLine | growsoft-lua-manager/lib/lua-checker.ts:45-55 | The three tests on a line push exactly the texts of that line's warnings, in check order. |
| Warnings.Fires | growsoft-lua-manager/lib/lua-checker.ts:45-53 | The three line tests: `===` or `!==`; `++` or `--`; `;` unless the trimmed line starts with `--`. |
| Warnings.LineWarnings | growsoft-lua-manager/lib/lua-checker.ts:45-55 | The warnings of one line: one per test that holds, in check order. |
| Warnings.CollectMembers | growsoft-lua-manager/lib/lua-checker.ts:45-55 | A check's warning is collected for a line exactly when that check fired. |
| Warnings.LineWarningsMembers | growsoft-lua-manager/lib/lua-checker.ts:45-55 | A line draws a warning of a kind exactly when that kind's test holds on it. |
| Warnings.LineWarningsShape | growsoft-lua-manager/lib/lua-checker.ts:45-55 | A line's warnings all name that line and come in check order: equality, increment/decrement, semicolon. |
| Warnings.CommentLineWarnings | growsoft-lua-manager/lib/lua-checker.ts:49-55 | A line whose trimmed text starts with `--` never draws the semicolon warning, yet always draws the increment/decrement one. |
| Text.TrimmedPrefixOccurs | growsoft-lua-manager/lib/lua-checker.ts:53 | Whatever the trimmed line starts with occurs in the line itself. |
| Text.ContainsIff | growsoft-lua-manager/lib/lua-checker.ts:45-53 | `includes(p)` holds exactly when `p` occurs at some position. |
| Decimal.NatToString | growsoft-lua-manager/lib/lua-checker.ts:46 | `${i + 1}` is a non-empty digit string with no leading zero that parses back to the number. |
| Warnings.Render | growsoft-lua-manager/lib/lua-checker.ts:46-54 | A warning's text: `Line <n>: ` followed by the kind's fixed message. |
| Warnings.RenderInjective | growsoft-lua-manager/lib/lua-checker.ts:46-54 | Distinct warnings have distinct texts: the line number and the kind can be read back from `Line <n>: <message>`. |
| Warnings.RenderAllInjective | growsoft-lua-manager/lib/lua-checker.ts:46-54 | The list of warning texts determines the list of warnings. |
| LuaChecker.LinesWarningsInScanOrder | growsoft-lua-manager/lib/lua-checker.ts:29-55 | The warnings of the lines come in line order, and within a line in check order. |
| LuaChecker.LinesWarningsCount | growsoft-lua-manager/lib/lua-checker.ts:29-55 | There are at most three warnings per line. |
| LuaChecker.LinesWarningMember | growsoft-lua-manager/lib/lua-checker.ts:29-55 | Line `k` has a warning of a kind exactly when that kind's test holds on line `k`. |
| LuaChecker.ReportedWarnings | growsoft-lua-manager/lib/lua-checker.ts:45-97 | For non-blank text, every path reports the warnings of every line. They come in scan order, at most three per line, and the text for line `k` and a kind appears exactly when that test holds on line `k`. Blank text reports none. |
| LuaChecker.StatusIsValidIff | growsoft-lua-manager/app/api/scripts/route.ts:54-55 | A script is stored with status `valid` exactly when no check fails on it, and with `error` otherwise. |

## Left out

- The `catch` branch (`lua-checker.ts:99-106`) is left out. On a string input nothing in the `try` block throws, so the model is total and that branch cannot be reached.
- `async` and the `Promise` wrapper are left out. The model returns the record itself.
- Characters are Unicode scalar values, while JavaScript strings are UTF-16 code units. The difference never reaches the checker: no astral character is whitespace, a word character, a delimiter or part of a keyword.
- Only the two regular expressions the checker uses are modelled, not a regular-expression engine. The capture group `(\w+)` is matched but its content is not used, as in the source.
- The route handlers and the UI are left out: MongoDB access and page rendering. Only the status mapping the script routes apply to the checker's result (`ScriptStatus`) is modelled.
- The AI assistant is left out. It calls external language-model services and falls back to a randomly picked canned answer.
- The documentation fetcher is left out. It serves a fixed table of mock documents.
- `console.error` logging is left out.
