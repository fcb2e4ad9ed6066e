# Fill-dummy-data decision engine of an ExcelJS upload form

This project models the logic inside the `Home` component of a Next.js page.
The page lets a user load a spreadsheet, see its header row, and fill the
selected worksheet with random rows before downloading it again. The model
covers the following parts, and proves their properties:

- the session state the component keeps (`userDecisionMade`, `replaceMode`,
  `showModal`, `selectedSheet`, `worksheet`, `error`, ...);
- the occupancy scan over the data rows;
- the Replace/Append decision gate;
- the header's column count and the row a fill starts at;
- the row-writing loop;
- the random value helpers;
- the way the header row is turned into labels for display.

Modules, one per file:

- `Cells` (cells.dfy): cell values, with null/undefined as `None`, and rows
  as `row.values` (column c is element c - 1).
- `Header` (header.dfy): the column count `filledColumns.length`, and the
  header labels shown by `handleSubmit`.
- `Random` (random.dfy): `Math.random` as an injected stream of draws in
  [0, 1) (class `MathRandom`). Also `getRandomString`, `getRandomNumber`,
  `getRandomBoolean`, and the function that produces each synthesized cell.
- `Sheets` (sheets.dfy): the `Worksheet` and `Workbook` classes. A
  worksheet's `rows` is ExcelJS's row list: row r is element r - 1,
  `rowCount` is its length, and `lastRow` is row `rowCount` when the list is
  not empty. Reading a row past the end gives a row with no cells. Writing
  one there creates the missing rows empty. The module also holds the
  occupancy scan (`HasData`), the start-row rule (`StartRow`) and the write
  loop (`WriteRandomRows`). The predicate `Filled` states the whole effect
  of a fill on a sheet's rows.
- `Gate` (gate.dfy): the three decision flags as a value, the events that
  move them, and lemmas over whole sequences of events.
- `Home` (home.dfy): the component's state as the class `Session`, one
  method per handler. Each handler that moves the flags (file load, sheet
  selection, dismissal, the fill request past its guard, and the two
  choices) states its update as `Gate.Step`; the others leave the flags
  unchanged. So the sequence lemmas of `Gate` apply to the handlers.

In three places the code behaves in a way a reader might not expect, and the
model follows the code:

- The column count is the number of non-null entries anywhere in row 1, not
  the length of a contiguous run from column 1. `LeadingRunAgreement` states
  when the two agree.
- Random strings use the 52 ASCII letters, not letters and digits.
- A recorded choice survives loading a new file, as well as selecting
  another sheet. `handleFileChange` never resets the flags.

## Model

| member | source | states |
|---|---|---|
| `Home.Session.constructor` | app/page.tsx:24-38 | the initial session: no file, error, header, sheets or workbook; 10 rows per fill; all three decision flags false |
| `Home.Session.HandleFileChange` | app/page.tsx:40-62 | with no file chosen, nothing changes; otherwise the file is recorded and the error cleared; if loading fails nothing else changes; on success the sheet names and the workbook are stored, and, when there is a sheet, the first one is selected and held; the decision flags, row count and displayed header are never reset |
| `Home.Session.HandleSheetSelection` | app/page.tsx:64-71 | the name is selected; the held worksheet becomes the workbook's sheet of that name (null when there is none) if a workbook is loaded, and stays as it was otherwise; the decision flags do not change |
| `Home.Session.HandleRowCountChange` | app/page.tsx:175-177 | only the number of rows to write changes |
| `Home.Session.CloseModal` | app/page.tsx:347 | dismissing the dialog closes it and records no decision |
| `Home.Session.HandleDummyDataFill` | app/page.tsx:73-110 | with no file or no selected sheet (no name, or the empty name, which is falsy), only the error "select a file and worksheet" is set; with no worksheet, only the no-worksheet error is set; otherwise the flags move as `Gate.Step` on the scan's answer; a prompt changes no row; a fill writes the sheet per `Filled` in the remembered mode |
| `Home.Session.FillRandomData` | app/page.tsx:112-173 | with a worksheet and a workbook, the sheet's rows change exactly as `Filled` says for the given mode and the current row count; the error becomes "file missing" only when there is no file; nothing happens without a worksheet or a workbook |
| `Home.Session.Choose` | app/page.tsx:229-267 | records the decision in the chosen mode and closes the dialog; with a workbook and a selected (non-empty) sheet name, re-fetches that sheet; fills it per `Filled` in that mode; sets the workbook-unavailable or sheet-not-found error instead when the sheet cannot be fetched; no other sheet of the workbook changes |
| `Home.Session.HandleReplace` | app/page.tsx:229-247 | the flags move as `Gate.Step` on a Replace choice: a decision is recorded, the mode is Replace and the dialog is closed; the re-fetched sheet is filled per `Filled` in Replace mode with the unchanged row count, or the workbook-unavailable or sheet-not-found error is set; the error becomes "file missing" on a fill only without a file; the row count, header, sheet names, file, selection and every other sheet of the workbook stay as they were |
| `Home.Session.HandleAppend` | app/page.tsx:249-267 | the flags move as `Gate.Step` on an Append choice: a decision is recorded, the mode is Append and the dialog is closed; the re-fetched sheet is filled per `Filled` in Append mode with the unchanged row count, or the workbook-unavailable or sheet-not-found error is set; the error becomes "file missing" on a fill only without a file; the row count, header, sheet names, file, selection and every other sheet of the workbook stay as they were |
| `Home.Session.HandleSubmit` | app/page.tsx:179-215 | the same guard (the empty sheet name counts as none) and errors as the fill request; with a worksheet, the displayed header becomes `DisplayHeader` of row 1; nothing else changes |
| `Home.StickyChoiceScenario` | app/page.tsx:40-71 | after Replace, loading another workbook whose sheets the choice did not touch, selecting a non-empty sheet name and asking for a fill again leaves the dialog closed and the decision recorded, and the picked sheet's rows are those of the freshly loaded sheet filled per `Filled` in Replace mode with the session's row count |
| `Sheets.Worksheet.HasData` | app/page.tsx:81-97 | reports data exactly when some row r with 2 <= r <= rowCount has a non-null cell; false when rowCount < 2; it stops at the first such row, and every row scanned before it is empty |
| `Sheets.StartRow` | app/page.tsx:126-130 | never row 1; Replace starts at 2; Append starts at lastRow + 1, or at 2 when there is no last row |
| `Sheets.StartRowOnSheet` | app/page.tsx:126-130 | on a sheet, Append starts right below both the last existing row and the header (max(rowCount, 1) + 1), so it never overwrites a row |
| `Sheets.SetRow` | app/page.tsx:133-134 | assigning a row's values replaces all its cells; every other row is kept; missing rows before it are created empty; the row count reaches the written row |
| `Sheets.Worksheet.WriteRandomRows` | app/page.tsx:132-153 | rows start..start+count-1 become rows of exactly `width` non-empty random cells; every other row is unchanged; the row count becomes max(rowCount, start + count - 1), or stays the same when count = 0 |
| `Sheets.Worksheet.RandomCells` | app/page.tsx:134-149 | `Array(width).fill(null).map(...)` yields exactly `width` cells, each a random string, number or boolean |
| `Sheets.ReplaceKeepsLaterRows` | app/page.tsx:126-153 | Replace overwrites rows 2..count+1; it keeps row 1 and every row after them, so nothing is truncated; the row count becomes max(rowCount, count + 1) |
| `Sheets.AppendKeepsExistingRows` | app/page.tsx:126-153 | Append keeps rows 1..lastRow and adds `count` random rows directly after max(lastRow, 1) |
| `Sheets.FilledSheetIsOccupied` | app/page.tsx:85-97 | a fill of at least one row over a header with at least one filled column leaves the sheet occupied for the next scan |
| `Sheets.ZeroWidthFillLeavesNoData` | app/page.tsx:119-153 | over a header with no filled column, a Replace that covers every data row leaves the sheet without data |
| `Sheets.Workbook.SheetNames` | app/page.tsx:50 | one name per worksheet, in order |
| `Sheets.Workbook.GetWorksheet` | app/page.tsx:56 | null exactly when no sheet has the name; otherwise the first sheet with that name |
| `Sheets.FindSheet` | app/page.tsx:67 | sheet lookup by name: null exactly when no sheet has it; otherwise the first match |
| `Header.FilledColumns` | app/page.tsx:119-124 | the column count is at most the length of row 1's values |
| `Header.FilledColumnsIsCardinality` | app/page.tsx:119-124 | the column count equals the number of positions in row 1 holding a non-null value |
| `Header.FilledColumnsAppend` | app/page.tsx:119-124 | the count over two consecutive parts of the row is the sum of their counts |
| `Header.FilledColumnsZero` | app/page.tsx:119-124 | the column count is 0 exactly when row 1 is empty |
| `Header.FilledColumnsFull` | app/page.tsx:119-124 | the column count equals the row's length exactly when no entry is null |
| `Header.FilledColumnsIgnoresGaps` | app/page.tsx:119-124 | an absent cell anywhere in row 1 leaves the count unchanged: it counts entries, not a contiguous prefix |
| `Header.LeadingRun` | app/page.tsx:117-124 | the length of the non-null run from column 1; the cell after it is absent |
| `Header.LeadingRunAgreement` | app/page.tsx:117-124 | the leading run is at most the column count; they are equal exactly when no non-null cell follows the first gap |
| `Header.JoinLength` | app/page.tsx:202-205 | a flattened rich-text value is "" exactly when all its runs are "" |
| `Header.DisplayHeader` | app/page.tsx:199-211 | the header labels are never more than the column count, and each of them is truthy |
| `Header.DisplayHeaderAppend` | app/page.tsx:199-211 | mapping then filtering keeps the column order: the labels of two consecutive parts of the row are the first part's labels followed by the second's |
| `Header.DisplayHeaderMembers` | app/page.tsx:199-211 | a label is shown exactly when it is truthy and some non-null cell of row 1 maps to it (rich text joined, objects stringified) |
| `Header.DisplayHeaderKeepsAll` | app/page.tsx:199-211 | every non-null header cell is shown exactly when none of them maps to "", 0 or false |
| `Random.MathRandom.Next` | app/page.tsx:137 | each call returns the next draw of the stream, a value in [0, 1) |
| `Random.Scale` | app/page.tsx:221 | `Math.floor(u * n)` for a draw u is an index below n, and is the floor of u * n |
| `Random.LettersAreAsciiLetters` | app/page.tsx:218 | the alphabet has 52 characters, and a character is in it exactly when it is an ASCII letter |
| `Random.GetRandomString` | app/page.tsx:217-224 | a string of exactly `length` characters, each the alphabet letter its draw picks, so each an ASCII letter; it takes `length` draws |
| `Random.GetRandomNumber` | app/page.tsx:226 | an integer in [0, 1000), from one draw |
| `Random.GetRandomBoolean` | app/page.tsx:227 | true exactly when the draw is below 0.5 |
| `Random.RandomValue` | app/page.tsx:136-149 | the first draw picks the kind: 0 gives a 5-letter string, 1 a number in [0, 1000), 2 a boolean; the value is always one of these |
| `Gate.Run` | app/page.tsx:99-106 | one effect per event |
| `Gate.FillRequestGate` | app/page.tsx:99-106 | a fill request opens the dialog exactly when the sheet has data and no decision is recorded; otherwise it fills with the current `replaceMode` and changes no flag |
| `Gate.ConsistentPreserved` | app/page.tsx:100-102 | the dialog is never open while a decision is recorded, over any sequence of events |
| `Gate.DecisionIsFinal` | app/page.tsx:229-267 | once a decision is recorded it stays recorded, and no later event opens the dialog; loading files and selecting sheets included |
| `Gate.ModeIsSticky` | app/page.tsx:100-106 | after a decision, the flags never change again, and every later fill uses the recorded mode |
| `Gate.ReplaceOnlyAfterPrompt` | app/page.tsx:34 | starting in Append mode with the dialog closed, a fill in Replace mode is always preceded by a prompt |
| `Gate.NoPromptWhileOpen` | app/page.tsx:347-367 | while the dialog is open and undecided, a further prompt needs the dialog to be dismissed first |
| `Gate.PromptsSeparatedByClose` | app/page.tsx:100-102 | between any two prompts of a run there is a dismissal of the dialog without a choice |

## Left out

- Rendering: the JSX, the cards, selects, alerts and dialog, and the status
  messages. Only the error kinds are kept, as `ErrorKind`; the error texts
  are not.
- File reading: `arrayBuffer` and `xlsx.load` are foreign calls. The
  parsed workbook is a parameter of `HandleFileChange`, and null stands for
  a failed load. The file itself is reduced to its name.
- Download: `xlsx.writeBuffer`, the Blob, the object URL and the anchor
  click are I/O. After the rows are written, only the missing-file error
  branch is modelled.
- `Math.random` and floating point: draws are exact reals in [0, 1), and
  `Math.floor(u * n)` is exact. Double rounding is not modelled.
- Asynchrony and React state batching: each handler is one atomic update.
  In the source, `fillRandomData` reads the worksheet captured when the
  component last rendered. The model uses the sheet that `handleReplace` or
  `handleAppend` just re-fetched, which is the same sheet whenever the held
  worksheet and the selected sheet name agree.
- `JSON.stringify` of other object cells: the model treats it as opaque,
  through the `json` field of `Composite`.
- NaN header values (falsy in JavaScript) are not modelled, because numbers
  are reals.
- ExcelJS internals are not part of this model. `getRow` creating row
  objects while reading is not modelled, because it changes none of the
  rows the fill leaves behind. `row.values` always being an array, with
  index 0 meaning no column, is also assumed.
- `Gate.Feasible`: the dialog blocks the page while open, and its buttons
  exist only inside it. Lemmas that rely on this take it as a precondition.
- `Home.StickyChoiceScenario` requires at least one chosen file, because
  with none the handler does nothing. It also requires a non-empty sheet
  name, because the empty name fails the fill request's guard, and a loaded
  workbook that shares no sheet object with the previous one, so that the
  Replace fill cannot have touched the sheet the scenario fills.
