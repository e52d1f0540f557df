# auto-timestamp save planner, modelled in Dafny

The VS Code extension "auto-timestamp" rewrites timestamp fields in a document just
before it is saved. On each save it:

1. checks the file name against a filter pattern, and does nothing when it fails;
2. picks a window of lines: the first `lineLimit` lines top-down, or for a limit of zero
   or below the last `-lineLimit` lines bottom-up;
3. on each line of the window, looks at three fields in a fixed order:
   - a **birth** stamp between a start delimiter (`[cC]reated *: `) and an end delimiter
     (`$`), written only when that slot is empty;
   - a **TeX** placeholder (`XXX-DATE-WHEN-CREATED-XXX`), replaced by the creation date
     in the TeX format, only for the language ids `tex`, `latex` and `doctex`;
   - a **modified** stamp between its own delimiters, rewritten on every save.
4. hands the ordered list of edits to the editor.

Birth and modified stamps use the configured token format, or ISO-8601 when the format
is empty, followed by the suffix (by default `" by "` and the user name).

The model is functional. Regular expressions are an abstract `Engine`: a function from
a pattern source and a text to an optional first match. Its only axiom, carried by its
subset type, is that a match lies inside the text. The anchor `$` and a literal leftmost
search are modelled concretely. Date formatting is an abstract `Formatter` with a
token-format function and an ISO function. The file's creation instant and the current
instant are parameters of a `Pass`.

Modules, leaf first:

- `Matching` (matching.dfy): matches, matchers, engines, the `$` anchor and literal search.
- `LineWindow` (line_window.dfy): the window of scanned lines.
- `RangeExtract` (range_extract.dfy): the delimited range and the exact-match range on one line.
- `Configuration` (configuration.dfy): settings with defaults, and the formatter.
- `EditPlanner` (edit_planner.dfy): the per-field overwrite policy and the save hook.
- `PlanProperties` (plan_properties.dfy): order, membership and policy over whole documents.
- `Scenarios` (scenarios.dfy): concrete lines and windows.

Two facts about the code shape the model:

- The fields of a line are checked in the fixed order birth, TeX, modified
  (src/extension.ts:39-72), so the edits of one line always come in that order.
- A malformed pattern makes `new RegExp` throw when its getter first compiles it
  (src/extension.ts:146-198), and a file without metadata makes `fs.statSync` throw
  (src/extension.ts:42, :56). A throw, when it happens, comes before `waitUntil`, so
  nothing from that save is applied. Neither failure path is modelled (see below).

## Model

| member | source | states |
|---|---|---|
| `Matching.FindLiteral` | src/extension.ts:108 | the leftmost occurrence of a literal at or after a position: it occurs there, nowhere earlier, and `None` means it occurs nowhere |
| `Matching.LiteralMatch` | src/extension.ts:108 | the first match of a metacharacter-free pattern spans the literal at its leftmost occurrence, and is absent exactly when the literal never occurs |
| `LineWindow.Window` | src/extension.ts:77-93 | every index lies in `[0, count)`; the window runs strictly ascending for a positive limit and strictly descending otherwise; it holds exactly the lines `[0, min(limit, count))` or `[max(count + limit, 0), count)`; its length is `min(limit, count)` or `min(-limit, count)` |
| `LineWindow.WindowElements` | src/extension.ts:79-91 | position `k` holds line `k` for a positive limit and line `count - 1 - k` otherwise |
| `LineWindow.WindowEmpty` | src/extension.ts:79-91 | the window is empty exactly when the limit is 0 or the document has no lines |
| `LineWindow.WindowHasNoDuplicates` | src/extension.ts:79-91 | no line index appears twice in either direction |
| `LineWindow.GetIndexRangeUntil` | src/extension.ts:77-93 | the two counting loops of the source produce exactly the window |
| `RangeExtract.TextRangeBetween` | src/extension.ts:95-105 | none exactly when the start pattern fails or the end pattern fails on the rest of the line; otherwise a range on the given line that starts where the start match ends, ends where the end match begins in the rest, and satisfies `start <= end <= length` |
| `RangeExtract.TextRange` | src/extension.ts:107-115 | found exactly when the pattern matches; then the range is the match's exact span, inside the line |
| `RangeExtract.BetweenEndAnchor` | src/extension.ts:95-105 | with the end delimiter `$`, the range is found exactly when the start delimiter matches, always ends at the line's end, and is empty exactly when the start match ends the line |
| `RangeExtract.LiteralRange` | src/extension.ts:107-115 | for a literal pattern the range is found exactly when the literal occurs, holds that literal, and no earlier occurrence exists |
| `Configuration.Resolve` | src/extension.ts:137-205 | for each of the ten settings, a stored value is used as it is (a stored empty format included) and an unset one takes its literal default (`.*`, 5, `[cC]reated *: `, `$`, `[lL]ast[ -][mM]odified *: `, `$`, `yyyy/MM/dd HH:mm:ss`, `" by " + user`, the TeX placeholder and format); with nothing stored the result is the defaults |
| `Configuration.ResolvedRendering` | src/extension.ts:137-141 | a stamp is ISO-8601 exactly when the stored format is the empty string; an unset format renders with the default token format and any other stored format is used as it is |
| `EditPlanner.BirthPolicy` | src/extension.ts:39-50 | a birth edit exists exactly when the birth slot is found and holds nothing; it replaces that slot with the creation instant, ISO-8601 when the format is empty and the token format otherwise, followed by the suffix |
| `EditPlanner.TexPolicy` | src/extension.ts:52-60 | a TeX edit exists exactly when the language id is `tex`, `latex` or `doctex` and the placeholder matches; it replaces the placeholder with the creation instant in the TeX format, with no suffix |
| `EditPlanner.ModifiedPolicy` | src/extension.ts:62-72 | a modified edit exists exactly when the modified slot is found, whatever it holds; it replaces the slot with the current instant, ISO-8601 when the format is empty and the token format otherwise, followed by the suffix |
| `EditPlanner.LineEditsShape` | src/extension.ts:36-73 | at most three edits per line, all on that line and inside it, fields strictly in the order birth, TeX, modified, and exactly the edits the three field checks call for |
| `EditPlanner.PlanLinesShape` | src/extension.ts:36-73 | in all, at most three times as many edits as scanned lines, each on a scanned line and inside that line's text; the bound of three per line comes from `LineEditsShape` and `OneEditPerFieldPerLine` |
| `EditPlanner.PlanShape` | src/extension.ts:35-73 | in all, at most three times as many edits as window lines; every edit lies on a line of the window and inside its text |
| `EditPlanner.CheckLine` | src/extension.ts:37-72 | the three pushes of the loop body yield exactly the line's edits |
| `EditPlanner.OnWillSaveTextDocument` | src/extension.ts:30-75 | the filter check and the loop over the index range yield exactly the planned edits |
| `PlanProperties.PlanLinesMembership` | src/extension.ts:36-73 | an edit is planned for a list of lines exactly when one of those lines calls for it |
| `PlanProperties.PlanMembership` | src/extension.ts:30-75 | an edit is planned exactly when the file name passes the filter and some window line calls for it |
| `PlanProperties.PlanLinesInScanOrder` | src/extension.ts:36-73 | lines scanned in a strictly monotone order yield edits line after line, and birth, TeX, modified within a line |
| `PlanProperties.PlanInScanOrder` | src/extension.ts:35-73 | the edits of a save are ordered top-down for a positive limit and bottom-up otherwise, and birth, TeX, modified within a line |
| `PlanProperties.OneEditPerFieldPerLine` | src/extension.ts:36-73 | no two edits share both a line and a field |
| `PlanProperties.EditOrigin` | src/extension.ts:36-73 | every planned edit lies on a window line and is the edit its own field's check makes for that line |
| `PlanProperties.BirthNeverOverwrites` | src/extension.ts:39-50 | every birth edit replaces a birth slot whose current content is empty, with the creation stamp and suffix |
| `PlanProperties.EmptyBirthSlotFilled` | src/extension.ts:39-50 | every empty birth slot on a window line of an accepted document gets the creation stamp |
| `PlanProperties.ModifiedAlwaysRefreshed` | src/extension.ts:62-72 | every modified slot found on a window line of an accepted document is rewritten with the current stamp, whatever it holds |
| `PlanProperties.ModifiedEditsAreSlots` | src/extension.ts:62-72 | every modified edit replaces a modified slot with the current stamp and suffix |
| `PlanProperties.TexOnlyInTexDocuments` | src/extension.ts:52-60 | every TeX edit belongs to a TeX document, replaces the placeholder's span, and writes the creation instant in the TeX format without suffix |
| `PlanProperties.NoTexEditOutsideTex` | src/extension.ts:53-59 | a document of any other language id gets no TeX edit |
| `PlanProperties.FilteredOutGetsNothing` | src/extension.ts:31 | a document whose file name fails the filter gets no edits, whatever its lines hold |
| `PlanProperties.DefaultBirthEnd` | src/extension.ts:39-50 | with the end delimiter `$`, a birth stamp is written exactly when the start delimiter's first match ends the line, and the slot ends at the line's end |
| `PlanProperties.DefaultModifiedEnd` | src/extension.ts:62-72 | with the end delimiter `$`, the modified slot is rewritten exactly when its start delimiter matches, from the match's end to the line's end |
| `PlanProperties.DefaultSettingsOnLine` | src/extension.ts:39-72 | under the default settings, a birth stamp is written exactly when the first `[cC]reated *: ` match ends the line, a modified slot is rewritten exactly when `[lL]ast[ -][mM]odified *: ` matches, and both stamps run to the line's end as the default token format followed by `" by "` and the user |
| `PlanProperties.LiteralTexPlaceholder` | src/extension.ts:195-201 | with a metacharacter-free placeholder, a TeX document's line is edited exactly when the placeholder occurs, at its leftmost occurrence and over exactly its text |
| `Scenarios.WindowExamples` | src/extension.ts:77-93 | limits 5, -3, 0 and 100 give `[0..4]`, `[9, 8, 7]` and `[]` on ten lines, and `[0, 1, 2]` on three lines |
| `Scenarios.CreatedSlotExample` | src/extension.ts:95-105 | `Created: ` with itself as start and `$` as end gives the empty range at column 9 |
| `Scenarios.EmptyCreatedIsStamped` | src/extension.ts:39-50 | an empty `Created: ` line receives the creation stamp at column 9 |
| `Scenarios.FilledCreatedIsKept` | src/extension.ts:39-50 | a `Created:` line that already holds a date gets no birth edit |
| `Scenarios.FilledModifiedIsRewritten` | src/extension.ts:62-72 | a `Last-Modified:` line holding a date is rewritten from column 15 to its end |
| `Scenarios.TexPlaceholderOnlyInTex` | src/extension.ts:53-59 | a matching placeholder is replaced for `latex` and not for `markdown` |

## Left out

- Host plumbing (`activate`, `deactivate`, the event subscriptions, `waitUntil`, the
  `TextEdit`, `Position` and `Range` classes) is host glue. A range is a plain
  `(line, start, end)` record, and an edit also carries the field it fills so that the
  order within a line can be stated.
- JavaScript regular-expression semantics are a foreign engine, abstracted as `Engine`.
  Only `$` and metacharacter-free patterns are modelled concretely.
- Pattern compilation errors are not modelled. In the source, `new RegExp` runs when a
  pattern is first used. A malformed `filenamePattern` throws on every save
  (src/extension.ts:31). A malformed birth or modified pattern throws only when the window
  has a line (src/extension.ts:36, :39-40, :62-63). A malformed `texPlaceholder` throws
  only in TeX documents (src/extension.ts:53-54). When a throw happens, nothing from that
  save is applied; otherwise the save goes ahead as modelled.
- The lazy pattern cache and its reset on configuration change (src/extension.ts:127-135)
  are not modelled. `Config` is an immutable record per save.
- `process.env.USER` for the default suffix is the `user` parameter of `Resolve`.
- `fs.statSync` and `DateTime.now()` are I/O and the wall clock. They are the `birth` and
  `now` instants of a `Pass`. A failing `statSync` (a file not yet on disk) is not modelled.
- EditPlanner.ModifiedPolicy: uses one current instant for the whole save. The source calls
  `DateTime.now()` once per modified edit, so stamps on different lines may differ by the
  milliseconds between the calls.
- EditPlanner.BirthPolicy: uses one creation instant for the whole save. The source calls
  `fs.statSync` once per birth or TeX edit, which gives the same instant unless the file
  is replaced during the save.
- luxon's `toFormat` and `toISO` are a foreign library, the abstract `Formatter`. The
  claim that ISO output parses back to the same instant is about that library and is not
  modelled.
- LineWindow.Window: takes an integer limit. The setting is a JavaScript number, and a
  fractional or NaN limit is not modelled.
- Columns count Dafny characters. VS Code counts UTF-16 code units.
- Overlapping edits from patterns that overlap on one line are passed on as computed. The
  host's reaction to them is not modelled.
