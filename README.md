# code-jsonx: error location and selection remapping

code-jsonx is a VS Code extension that formats and compacts JSON documents or
selections. When `JSON.parse` rejects the text, the extension moves the cursor
to where it thinks the error is. This project models that logic and proves
properties of it:

- the error-position locator `parseJsonWithPosition`. It has four layers:
  1. the offset after `position ` in the engine's error message;
  2. the least rejected prefix;
  3. the double-comma override for `/,\s*,/`;
  4. the first non-white-space fallback.

  Three copies of the locator have all four layers. The older debug script
  has no layer 3.
- `formatJsonText` and `compactJsonText`, which re-express the locator's
  offset relative to the selection.
- the command handlers' cursor arithmetic, for both call patterns: the whole
  document parsed, or only the selection.
- `positionAt` and `offsetAt` from the debug scripts, which convert between
  offsets and (line, character) positions.

The engine's `JSON.parse` and `JSON.stringify` are not modelled. They are
an `Engine` value of total functions that every operation takes as a
parameter. Texts are sequences of UTF-16 code units, so every offset is a
code-unit index, as in JavaScript.

Modules:

- `Options`: the option type.
- `JsText`: code units, `\s`, `indexOf`, deleting one code unit.
- `JsonEngine`: the oracle.
- `ErrorMessages`: layer 1.
- `DoubleComma`: the search of layer 3.
- `ErrorLocator`: the locator.
- `SelectionTransform`: the transforms and handlers.
- `LineColumn`: `positionAt` and `offsetAt`.

Each loop of the source is a method proved equal to a specification function.
The methods are `ProbePrefixes`, `FirstNonWhiteSpaceIndex`,
`ParseJsonWithPosition`, `PositionAt` and `OffsetAt`. The properties are
proved about those functions.

## Model

| member | source | states |
|---|---|---|
| JsText.IsWhiteSpace | src/utils/jsonParser.ts:69 | the class `\s`: the ECMAScript WhiteSpace and LineTerminator code units (TAB, VT, FF, ZWNBSP, the Zs space separators, LF, CR, LS, PS), listed one by one |
| JsText.FirstNonWhiteSpaceFrom | src/utils/jsonParser.ts:67-73 | the least index at or after `from` whose code unit `\s` does not match, with everything before it white space; None only when the rest is all white space |
| JsText.IndexOf | src/utils/jsonParser.ts:42 | `indexOf(',', from)`: -1 exactly when no later index holds the unit, otherwise the least such index |
| JsText.RemoveAt | src/utils/jsonParser.ts:45-46 | deleting the unit at `k` shortens the text by one, and re-inserting it at `k` gives the original text back |
| ErrorMessages.IsDigit | src/utils/jsonParser.ts:11 | the class `\d`: the ASCII digits `0` to `9` |
| ErrorMessages.MarkerAt | src/utils/jsonParser.ts:11 | `/position (\d+)/` matches at `i`: the literal `position ` occurs there and a digit follows it |
| ErrorMessages.FindMarkerFrom | src/utils/jsonParser.ts:11 | the leftmost match of `/position (\d+)/` at or after `from`, with no match before it; None only when no match exists |
| ErrorMessages.DigitRunEnd | src/utils/jsonParser.ts:11 | the greedy `(\d+)` capture ends at the first non-digit or at the end of the message |
| ErrorMessages.DecimalValue | src/utils/jsonParser.ts:13 | `parseInt(ds, 10)` on a run of decimal digits: the value read most significant digit first, as an unbounded natural |
| ErrorMessages.DecimalDigits | src/utils/jsonParser.ts:13 | the numeral written for an offset is non-empty, all digits, and has no leading zero unless it is 0 |
| ErrorMessages.MessagePosition | src/utils/jsonParser.ts:11-15 | layer 1 yields no offset exactly when the message has no `position ` followed by a digit |
| ErrorMessages.LeftmostMarkerIsRead | src/utils/jsonParser.ts:11-13 | for every message whose leftmost match starts at `i`, layer 1 reads the decimal value of the maximal digit run after `position ` |
| ErrorMessages.DecimalRoundTrip | src/utils/jsonParser.ts:13 | `parseInt` reads back the numeral written for any offset |
| ErrorMessages.NoMarkerBefore | src/utils/jsonParser.ts:11 | no match can start in a prefix that does not contain `position ` when `position ` follows it, because the literal has no proper border |
| ErrorMessages.DigitRunOfNumeral | src/utils/jsonParser.ts:11 | a numeral followed by a non-digit is exactly the greedy capture |
| ErrorMessages.MessageLayout | src/utils/jsonParser.ts:11 | where the marker and the digits lie in `prefix + "position " + digits + suffix` |
| ErrorMessages.FirstMarkerAfter | src/utils/jsonParser.ts:11 | the search finds the first marker at the end of a prefix that does not contain `position ` |
| ErrorMessages.EmbeddedPositionIsRead | src/utils/jsonParser.ts:11-15 | a message `prefix + "position " + n + suffix` yields exactly `n`, when the prefix does not contain `position ` and the suffix does not continue the numeral |
| DoubleComma.MatchesAt | src/utils/jsonParser.ts:36-37 | `/,\s*,/` matches at `i`: a comma at `i`, a later comma, and only `\s` code units between them |
| DoubleComma.ClosedAtIffMatches | src/utils/jsonParser.ts:36-37 | the scanning test (a comma whose next non-white-space unit is a comma) holds exactly where `/,\s*,/` matches |
| DoubleComma.FindDoubleCommaFrom | src/utils/jsonParser.ts:36-38 | the leftmost match of `/,\s*,/` at or after `from`, with no match before it; None only when there is no match |
| DoubleComma.FindDoubleComma | src/utils/jsonParser.ts:36-40 | `text.match(/,\s*,/).index`: the leftmost match, or None when there is none |
| DoubleComma.IndexOfFindsClosingComma | src/utils/jsonParser.ts:40-42 | `indexOf(',', first + 1)` lands on the comma that closes the match: after the first comma, with only white space between them, and the only such comma |
| ErrorLocator.PrefixAccepted | src/utils/jsonParser.ts:26 | the probe's `JSON.parse(text.substring(0, i + 1))` returns without throwing |
| ErrorLocator.ProbeFrom | src/utils/jsonParser.ts:23-32 | layer 2: the least `i` from `from` on whose prefix `text[..i + 1]` the engine rejects, with every shorter prefix accepted; None when all are accepted |
| ErrorLocator.ProbedPosition | src/utils/jsonParser.ts:19-32 | the layer-2 position: inside a non-empty text; when non-zero, the least rejected prefix with every shorter prefix accepted; 0 when every prefix parses |
| ErrorLocator.CommaChoice | src/utils/jsonParser.ts:48-61 | the chosen comma is one of the two, and it is the first exactly when deleting the second does not make the text parse but deleting the first does |
| ErrorLocator.CommaOverride | src/utils/jsonParser.ts:36-62 | layer 3 keeps the position when there is no match, and otherwise replaces it by an index holding a comma |
| ErrorLocator.WhiteSpaceFallback | src/utils/jsonParser.ts:66-74 | layer 4 keeps a non-zero position; a zero becomes the first non-white-space index, and stays zero only for an empty or all-white-space text or when index 0 is not white space |
| ErrorLocator.HeuristicPosition | src/utils/jsonParser.ts:19-74 | layers 2 to 4 give an index into a non-empty text, and 0 for the empty text |
| ErrorLocator.Locate | src/utils/jsonParser.ts:4-80 | success exactly when the engine accepts the text, returning its value; a thrown non-Error gives `Unknown error occurred` at 0; otherwise the engine's message, at the offset the message names or, when it names none, inside the text |
| ErrorLocator.ProbePrefixes | src/utils/jsonParser.ts:19-32 | the probing loop computes the layer-2 position |
| ErrorLocator.FirstNonWhiteSpaceIndex | src/utils/jsonParser.ts:66-74 | the scanning loop computes the layer-4 position |
| ErrorLocator.ParseJsonWithPosition | src/extension.ts:6-82 | the locator as written, with or without the comma layer, returns exactly `Locate` |
| ErrorLocator.ProbeStopsInsideText | debug-position.js:24-33 | on a rejected non-empty text the probe stops inside the text, at the least rejected prefix |
| ErrorLocator.DoubleCommaOverridesProbe | debug-position-v2.js:37-63 | when `/,\s*,/` matches, the four-layer position is the second comma if deleting it makes the text parse, else the first comma if deleting that does, else the second, whatever the probe found |
| ErrorLocator.DoubleCommaPositionIsComma | src/extension.ts:38-64 | whenever the comma layer fires, the reported offset holds a comma |
| ErrorLocator.ThreeLayersAgreeWithoutDoubleComma | debug-position.js:5-51 | on a text without a match the three-layer copy and the four-layer copies agree |
| JsonEngine.Accepts | src/utils/jsonParser.ts:6 | `JSON.parse(s)` returns a value instead of throwing |
| JsonEngine.ThrownMessage | src/utils/jsonParser.ts:103-108 | a `catch` block's message: the `Error`'s own message, or the fallback text for any other thrown value |
| SelectionTransform.RemapPosition | src/utils/jsonParser.ts:86-96 | unchanged when the selection is the whole text; inside a proper selection, the distance from its start, which the start recovers; outside it, 0 |
| SelectionTransform.FormatJsonText | src/utils/jsonParser.ts:83-110 | succeeds exactly when parsing and 2-space stringifying succeed, returning the stringified text; a parse failure carries the locator's message and remapped offset; a stringify failure carries the thrown message or `Failed to format JSON`, at 0 |
| SelectionTransform.CompactJsonText | src/utils/jsonParser.ts:113-140 | the same for compact stringifying, with `Failed to compact JSON` |
| SelectionTransform.FormatAndCompactFailAlike | src/extension.ts:85-142 | on a text the engine rejects, format and compact return the same failure |
| SelectionTransform.RunCommand | src/extension.ts:179 | the handler's call: `formatJsonText` for the format command, `compactJsonText` for the compact command, with the same three arguments |
| SelectionTransform.CursorOffset | src/extension.ts:196-204 | the handler's cursor offset: selection start plus the transform's offset for a non-empty selection, the offset itself otherwise |
| SelectionTransform.CursorRecoversLocatedOffset | src/extension.ts:196-204 | for a proper selection, start plus remapped offset is the locator's offset when that offset lies in the selection, and the selection start otherwise |
| SelectionTransform.ErrorCursor | src/extension.ts:166-204 | when the whole document is parsed, the cursor moves exactly when the transform fails; on a parse failure it lands on the locator's offset if the selection is empty, covers the document or contains that offset, and on the selection start otherwise |
| SelectionTransform.SelectionOnlyCursorInsideSelection | src/commands/formatJsonCommand.ts:31-56 | when only the selection is parsed, the cursor goes to the selection start plus the locator's offset into the selection, and a heuristic offset stays inside the selection |
| SelectionTransform.ThreeLayerSelectionOffsetInside | debug-position.js:137-145 | the older script's selection start plus three-layer heuristic offset lies inside the selection |
| LineColumn.Advance | debug-position-v2.js:93-98 | one loop step: a line feed starts the next line at character 0, any other code unit moves one character right |
| LineColumn.PositionOf | debug-position-v2.js:92-99 | the running (line, character) after the first `n` code units, from (0, 0) |
| LineColumn.PositionOfCounts | debug-position-v2.js:88-102 | after `n` code units, the line is the number of line feeds read, and the character is the number of units since the last one |
| LineColumn.PositionOfIncreasing | debug-position-v2.js:92-99 | reading more code units moves the position strictly forward in reading order |
| LineColumn.LineStart | debug-position-v2.js:93-95 | the last line starts just after the last line feed, or at 0 |
| LineColumn.PositionAt | debug-position-v2.js:88-102 | the loop returns the running position after the offset clamped to `[0, length]` |
| LineColumn.OffsetFrom | debug-position-v2.js:104-125 | the least offset from `from` whose running position is the target, or the length when there is none |
| LineColumn.OffsetAt | debug-position.js:74-95 | the loop returns the least offset whose running position is the target, or the text length |
| LineColumn.OffsetAtInvertsPositionAt | debug-position-v2.js:88-125 | `offsetAt(positionAt(o)) == o` for every offset from 0 to the length |
| LineColumn.OffsetAtBeyondLastLine | debug-position-v2.js:104-125 | a line past the last one is not found, so the result is the text length |
| LineColumn.OffsetAtPastLineEnd | debug-position-v2.js:104-125 | a character past the end of its line is not clamped, so the result is the text length |

## Left out

- `JSON.parse` and `JSON.stringify` are not modelled. Which texts the engine accepts, the values it builds and the wording of its messages are an oracle, the `Engine` parameter.
- Error message wording is not modelled. Messages are Dafny strings, i.e. sequences of Unicode scalar values rather than UTF-16 code units, so a message holding a lone surrogate (for instance one quoting a fragment of the rejected input) is not represented. This does not affect layer 1, which reads only the ASCII pattern `position (\d+)`.
- The VS Code glue is left out: activation and deactivation, command registration, the language check, `editor.edit`, information, warning and error messages, `revealRange`, and the editor's own `positionAt`/`offsetAt`. The handlers' selection is modelled by its start and end offsets into the document.
- The escape, unescape, URL-encode and URL-decode commands are not part of this model. So are the debug scripts' file reading and console output, test-fix.js and the test suite.
- The handlers' `async`/`await` is not modelled: they have no concurrency that affects the offsets.
- The locator's running time is not modelled. It parses up to one prefix per code unit, which is quadratic.
- ErrorMessages.DecimalValue: `parseInt` is exact on unbounded naturals. The loss of precision beyond 2^53 of a JavaScript number is not modelled.
- LineColumn.PositionAt: the offset is an integer. A fractional or `NaN` offset, which JavaScript would also accept, is not modelled.
- ErrorLocator.ProbePrefixes, ErrorLocator.FirstNonWhiteSpaceIndex: the `break` out of each loop is a `return`, and both loops are separate methods rather than inline in the locator.
- ErrorLocator.ParseJsonWithPosition: the `try`/`catch` around `JSON.parse` is a case split on the oracle's result. An exception thrown by a later `JSON.parse` call in the probe or comma layers is caught there, so it reads as "rejected".
