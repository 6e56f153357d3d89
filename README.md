# Material checker: scan-verification controller

A Dafny model of the checking logic in `sistema.py`, a Streamlit page. An
operator loads a spreadsheet of materials (`id_codigo`, `etapa_programa`,
`trait`, `avanco`). The operator picks the status (`avanco`) to look for and
scans or types identifiers. Each scan is matched against the filtered table. A
wrong status or an unknown identifier goes into the check history at once. A
match opens a card first, and the "Sim" entry is written only when the
operator presses Confirm. Skip closes the card without recording anything. The
statistics panel counts the rows with the target status and the confirmed
entries for it.

Modules, one per component of the page:

- `Text` (text.dfy): Python's `str.strip()` and a case-insensitive substring
  test.
- `Sequences` (sequences.dfy): order-preserving selection `Where`. It models a
  pandas boolean mask and a list comprehension with an `if`.
- `Inventory` (inventory.dfy): the `Material` record, `filter_materials`, and
  the exact first-match lookup the scan uses.
- `Loading` (loading.dfy): the required-column check, the `trait` default and
  `validate_excel_data`.
- `Ledger` (ledger.dfy): history entries, verdict labels and the progress
  counters.
- `SessionSpec` (session_spec.dfy): the session fields as a value, and the
  effect of the scan callback and of each button as a function.
- `Scanner` (scanner.dfy): the class `ScanSession`. It holds the session
  fields and updates them in place. Each method is proved to make exactly
  the transition `SessionSpec` defines. `ScanWalkthrough` is a client run
  through match, confirm, wrong status, not found and a repeated scan.

Two behaviours of the code that shape the model:

- A match is not recorded when it is scanned. The scan only opens the card
  (sistema.py:150-162). The "Sim" entry is written by Confirm
  (sistema.py:778-787), and Skip writes nothing.
- Reset scanner clears `last_processed` as well: its loop sets every key whose
  name contains "processed" to `""` (sistema.py:893-901). So the guard is
  cleared by Confirm, Skip and Reset scanner. As written, the reset completes
  only when the scanner field is not on the page (see "## Findings").

## Model

| member | source | states |
|---|---|---|
| `Text.TrimStartSpec` | sistema.py:134-139 | the result is a suffix of the input, everything cut is whitespace, and it does not start with whitespace |
| `Text.TrimEndSpec` | sistema.py:134-139 | the result is a prefix of the input, everything cut is whitespace, and it does not end with whitespace |
| `Text.TrimSlice` | sistema.py:134-139 | `strip()` keeps one contiguous slice, cuts only whitespace around it, and leaves no whitespace at either end |
| `Text.TrimEmptyIff` | sistema.py:134-135 | the stripped input is empty exactly when every character is whitespace (the empty input included) |
| `Text.TrimIdempotent` | sistema.py:137-141 | stripping an already stripped identifier changes nothing |
| `Text.TrimUnpadded` | sistema.py:139-141 | a non-empty identifier without surrounding whitespace is kept as is and is not blank |
| `Text.LowerChar` | sistema.py:121-125 | an ASCII or Latin-1 capital (`A`–`Z`, U+00C0–U+00DE except `×`) moves 32 code points to its small letter, every other character is unchanged, and the result is never such a capital |
| `Text.LowerIdempotent` | sistema.py:121-125 | lower-casing an already lower-cased text changes nothing |
| `Text.LowerCharFoldsCase` | sistema.py:121-125 | two characters lower-case alike exactly when they are equal or the two cases of one letter, the cases given by an independent upper-casing `UpperChar` |
| `Text.LowerFoldsCase` | sistema.py:121-125 | two strings lower-case alike exactly when they have the same length and differ only in the case of their letters |
| `Text.ContainsIgnoreCaseFoldsCase` | sistema.py:121-125 | changing the case of letters in the id, the stage or the search term never changes whether the search keeps a row |
| `Text.ContainsIff` | sistema.py:121-125 | the substring test holds exactly when the term occurs at some position |
| `Sequences.Where` | sistema.py:119 | a boolean-mask selection is never longer than the table it selects from |
| `Sequences.WhereSpec` | sistema.py:119 | a boolean-mask selection is an order-preserving subsequence, holding exactly the elements that pass the mask |
| `Sequences.WhereAppend` | sistema.py:824-825 | selecting from a list extended by one element extends the selection by that element only if it passes |
| `Sequences.WhereCongruent` | sistema.py:119-126 | masks that agree on the elements present select the same rows |
| `Sequences.WhereWhere` | sistema.py:118-126 | applying a mask to an already masked table equals one mask by the conjunction |
| `Sequences.WhereAll` | sistema.py:117 | a mask that every row passes keeps the whole table |
| `Sequences.WhereFirst` | sistema.py:150-155 | the selection is empty iff no element passes; otherwise its first element is the first passing element of the input |
| `Inventory.FilterMaterialsIsSelection` | sistema.py:115-127 | the status step followed by the search step equals one selection by "passes both active criteria" |
| `Inventory.FilterMaterialsSpec` | sistema.py:115-127 | the filtered table is an order-preserving subsequence; a row is kept iff it passes both active criteria; a real status filter keeps only that status; a search keeps only rows whose id or stage contains the term, ignoring case; no criterion or "Todos" keeps the table whole |
| `Inventory.LookupFirst` | sistema.py:150-155 | the lookup finds nothing iff no row has exactly that id; otherwise it returns the first row in table order with that id |
| `Inventory.LookupAt` | sistema.py:150-155 | when row `i` is the first with the id, the lookup returns row `i` |
| `Loading.Duplicated` | sistema.py:85 | pandas' `duplicated()` list is never longer than the id column |
| `Loading.RepeatedInSnoc` | sistema.py:85 | adding one id makes its value repeated exactly when that value was already in the column |
| `Loading.DuplicatedSpec` | sistema.py:85-88 | a value is listed as duplicated iff it occurs at two positions, so the list is empty iff the ids are pairwise distinct |
| `Loading.Validate` | sistema.py:83-95 | there are at most two advisory findings |
| `Loading.ValidateSpec` | sistema.py:83-95 | no finding iff every id is present and the ids are pairwise distinct; a duplicate finding iff some id repeats; an empty-id finding iff some id is null; the duplicate finding comes before the empty-id finding |
| `Loading.LoadSpec` | sistema.py:195-215 | the load fails iff `etapa_programa`, `id_codigo` or `avanco` is missing, and then names exactly the missing ones; otherwise every row is returned in order, changed only by `trait` defaulting to "N/A" when the column is absent, and the findings never block the load |
| `Ledger.LabelIsSimIff` | sistema.py:824-825 | only a confirmed check carries the label "Sim" that the progress counter looks for |
| `Ledger.Progress` | sistema.py:822-827 | the total never exceeds the filtered table's size and the verified count never exceeds the history's length |
| `Ledger.ProgressSpec` | sistema.py:822-827 | `faltantes = total - encontrados` with no clamping; `encontrados` is zero iff no entry is a confirmation under the target; `total` is zero iff no filtered row has the target status |
| `Ledger.ProgressAppend` | sistema.py:822-827 | appending an entry leaves the total unchanged, and raises `encontrados` by one exactly for a confirmation under the target |
| `Ledger.ProgressNotClamped` | sistema.py:827 | confirming one material twice makes `faltantes` equal to -1 |
| `SessionSpec.WrongStatusMessageNames` | sistema.py:173 | the wrong-status error names both the expected and the actual status |
| `SessionSpec.NotFoundMessageNames` | sistema.py:184 | the not-found error names the scanned identifier |
| `SessionSpec.Scan` | sistema.py:130-186 | a scan never removes history and adds at most one entry |
| `SessionSpec.ScanIgnoresBlankAndRepeat` | sistema.py:134-138 | empty or whitespace-only input, and an id equal to `last_processed`, leave every session field unchanged |
| `SessionSpec.ScanIdempotent` | sistema.py:137-140 | scanning the same text twice in a row leaves the session as after the first scan, whatever the table, target and time at the second |
| `SessionSpec.ScanEmptyTable` | sistema.py:140-148 | with an empty filtered table, a new id only sets `last_processed`; history and input are untouched |
| `SessionSpec.ScanMatched` | sistema.py:150-162 | a new id whose first row has the target status moves to "found" with that row, sets `scan_success`, clears the input and appends nothing |
| `SessionSpec.ScanWrongStatus` | sistema.py:163-173 | a new id whose first row has another status appends exactly one entry with the row's actual status and verdict "Não - Avanço incorreto", sets the error "Avanço incorreto! Esperado: …, Atual: …", which names both statuses, clears the input, sets `last_processed`, and changes no other field |
| `SessionSpec.ScanNotFound` | sistema.py:174-186 | a new id absent from a non-empty table appends exactly one entry ("Não encontrado", "N/A", "N/A", "Não"), sets the error "ID '…' não encontrado!", which names the id, clears the input, sets `last_processed`, and changes no other field |
| `SessionSpec.ConfirmOrSkipAfterMatch` | sistema.py:778-811 | after a match, Confirm appends exactly one "Sim" entry for that row and Skip appends nothing; both return to "ready" with input and `last_processed` cleared |
| `SessionSpec.InvPreserved` | sistema.py:564-578 | the defaults and every event keep the rule that a material is on the card exactly in the "found" phase, and that it is the row with the scanned id |
| `SessionSpec.HistoryOnlyGrows` | sistema.py:885-888 | only Clear history removes entries; a scan keeps the history as a prefix, Confirm adds exactly one entry, and Skip and Reset scanner leave it |
| `SessionSpec.LastProcessedUpdates` | sistema.py:891-904 | a scan sets `last_processed` only to the stripped id; Confirm, Skip and Reset scanner set it to ""; Clear history leaves it |
| `SessionSpec.ProgressUnderScan` | sistema.py:822-827 | no scan changes the progress counters |
| `SessionSpec.ProgressUnderButtons` | sistema.py:778-904 | Confirm raises `encontrados` by one when the confirmed row has the counted status; Skip and Reset scanner leave the counters; Clear history makes `encontrados` zero and `faltantes` the whole total |
| `Scanner.ScanSession.constructor` | sistema.py:564-578 | the session starts from the defaults: "ready", empty guard and input, no card, no error, no success, empty history |
| `Scanner.ScanSession.ProcessScan` | sistema.py:130-186 | updating the fields in place has exactly the effect of `SessionSpec.Scan`, and it keeps the card invariant |
| `Scanner.ScanSession.Confirm` | sistema.py:778-801 | in place, exactly `SessionSpec.Confirm`: one "Sim" entry for the carded row, then back to "ready" with input and guard cleared |
| `Scanner.ScanSession.Skip` | sistema.py:804-811 | in place, exactly `SessionSpec.Skip`: back to "ready" with input and guard cleared, history unchanged |
| `Scanner.ScanSession.ClearHistory` | sistema.py:885-888 | in place, exactly `SessionSpec.ClearHistory`: the history emptied, nothing else changed |
| `Scanner.ScanSession.ResetScanner` | sistema.py:891-904 | in place, exactly `SessionSpec.ResetScanner`, the complete reset the button is meant to perform: every scanner field back to its default, history kept |
| `SessionSpec.ResetAsWrittenKeepsGuard` | sistema.py:891-901 | as written, with the scanner field on the page, the reset changes no field, so scanning the last id again is still ignored |
| `SessionSpec.ResetReenablesScan` | sistema.py:891-904 | after the complete reset the card invariant holds, the guard is empty, and any non-blank scan is processed afresh |
| `SessionSpec.ResetAsWrittenElsewhere` | sistema.py:891-904 | where the scanner field is not on the page (the "found" phase, or an empty filtered table) the reset as written is the complete reset |

## Findings

| source | as written | input that shows it | evidently intended | confidence | as-written member | corrected member |
|---|---|---|---|---|---|---|
| sistema.py:891-901 | the Reset-scanner loop writes `scanner_input`, its fourth key, after the `scanner_input` text field was drawn in the same run (sistema.py:722-728); Streamlit refuses a write to a drawn widget's key, so the run stops after `found_material_data`, and `last_processed`, `scan_error` and `scan_success` keep their values | phase "ready", a non-empty filtered table, and `last_processed` = "X" after an unknown id "X" was scanned (so the history is non-empty and the button shows); press Reset scanner, then scan "X" again: nothing is recorded | the complete reset the loop spells out: every scanner field back to its default, so "X" can be scanned again | not executed; rests on Streamlit's rule for widget keys | `SessionSpec.ResetAsWrittenKeepsGuard` (on `SessionSpec.ResetScannerAsWritten`) | `SessionSpec.ResetReenablesScan` (on `SessionSpec.ResetScanner`, which `Scanner.ScanSession.ResetScanner` performs) |

## Left out

- Rendering is not modelled. This covers CSS, cards, `visual_feedback`, balloons, `st.rerun`, and the animations switch with its `show_animations` default. It also covers the page consuming `scan_success` and `scan_error` when it shows them (sistema.py:709-719). These are presentation only.
- Reading the spreadsheet (`pd.read_excel`) is not modelled. Neither is its exception path, nor `export_report`. These are file I/O. A sheet is given as its column names and rows.
- Logging (`log_material_check`, `setup_logging`) is not modelled. It only writes a log file.
- Check times come from the clock. They are opaque strings supplied by the caller.
- The progress ratio and percentage are not modelled. They are floating point. Only the integer counts are.
- The text field's own write of the typed text into `scanner_input` is not modelled. It happens before the callback runs. `ProcessScan` receives that text as `input` and clears the field where the code does.
- How often Streamlit fires the `on_change` callback is not modelled. The de-duplication guard on `last_processed` is the contract.
- `ContainsIgnoreCase`: pandas' `str.contains` reads the term as a regular expression. The model reads it as a literal substring.
- `LowerChar`: case is folded only for ASCII and Latin-1 letters, not for full Unicode case folding.
- pandas' NaN handling and `astype(str)` coercion are not modelled. Inventory ids are plain strings. A null id appears only in the load-time validation, as `None`. Turning loaded rows into inventory records is not modelled.
- `Validate` gives the text of its findings as data, not as the formatted warning string. The duplicate finding carries the list that `duplicated()` yields.
- The fallbacks "Sem etapa", "Sem trait" and "N/A" in the history entries are not modelled. The code passes them to `.get` on a found row (sistema.py:167-168, sistema.py:783-784). A loaded table always has the `etapa_programa` and `trait` columns, so these fallbacks never apply, and entries take the row's own values.
- The search step checks that an `etapa_programa` column exists (sistema.py:123). That column is required at load time, so the search always looks at both the id and the stage.
- Persisting and restoring the history is not modelled. This file has no such code.
- `ResetScanner`: the class performs the complete reset. The as-written reset, which stops at the write to the drawn scanner field, is modelled only as `ResetScannerAsWritten`. Every other session write is taken to succeed: Confirm and Skip write `scanner_input` only in the "found" phase, when the field is not drawn.
