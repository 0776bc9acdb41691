# Driver check-in and sheet mirror: a Dafny model

The application is a small Streamlit app for a distribution centre. It records truck drivers' check-ins in a local SQLite table, `motoristas`, in three stages:

- **"Chegada CD"** (arrival). This inserts a row with unit, upper-cased name and plate, and the arrival time. The load start and load end are `''` and the shipment count is 0.
- **"Início do Carregamento"** (load start). This stamps the load-start time on every row with the typed plate.
- **"Fim do Carregamento"** (load end). This stamps the load-end time and the shipment count on every row with the typed plate.

Each stage does nothing but report an error when the plate field is empty.

The "Visualização de Registros" page does the following:

1. Reads the table and keeps only the last row of each plate (`drop_duplicates(subset='Placa', keep='last')`).
2. Optionally filters by unit ("Todas" shows all).
3. Asks `dados_existentes` for each remaining row whether the Google worksheet already holds its (Unidade, Nome, Placa). That check fails closed: when the read raises or a key column is missing, it answers "exists".
4. Hands the rest to `enviar_dados_em_batch`. That function keeps the rows whose fields after Unidade are all non-null and whose count is positive, and appends their lines in one `append_rows` call.

The model is organised as follows:

- `Records`: the rows, ASCII upper-casing, and the two UPDATE statements as functions.
- `Checkin`: the table as a class whose stage methods change its `rows`, and the same handlers as a function `Apply` on the table, with `Replay` for a sequence of presses.
- `Views`: the per-plate reduction and the unit filter.
- `Mirror`: the worksheet as a header plus stored lines, `get_all_records`, the existence check, and the worksheet as a class that only grows by appending.
- `Sync`: the two loops (candidate collection and batch building), the send, the page handler, and the properties of one run.
- `Lifecycle`: one check-in followed through any sequence of stage presses up to the worksheet.
- `Seqs`: order-preserving filtering and the subsequence relation.
- `Wrappers`: `Option`.

The main results are:

- **No duplicates.** A row whose key the sheet already holds is never sent, whichever reads fail (`MirroredNeverSent`).
- **Idempotence.** After one run's batch is appended, a second run sends none of it again (`SecondRunResendsNothing`).
- **End to end.** Take any table and run any sequence of stage presses on it (`Checkin.Replay`). Consider a check-in whose arrival is followed by other drivers' stages, by its own load start and load end (in any letter case), and by a positive count. Its row is sent exactly once by a run in which every read succeeds, or not at all if the sheet already has its key. A second run never sends it again. This holds as long as no later press inserts its plate again (`Lifecycle.CompletedCheckinMirroredOnce`).

Choices made where the code is the only authority:

- **Arrival always inserts.** A returning plate gets a new row, and the reduction shows only its newest row.
- **The two updates touch every row with the plate, not only the newest.** When no row matches, they change nothing and report no error (`StampWithoutMatchIsNoOp`).
- **The empty string counts as present for eligibility.** A row whose load start was never stamped is still sent once its load end and a positive count are in (`EmptyLoadStartIsEligible`).
- **No upper bound on the count.** The form only sets a minimum of 0.
- **No ordering of the three timestamps.** Nothing in the code requires one.
- **No sent/failed tallies.** The code keeps none; it reports only through UI messages.

## Model

| member | source | states |
|---|---|---|
| Records.UpperChar | scripts/app.py:111-112 | a lower-case ASCII letter becomes its capital (32 code points lower); every other character is kept |
| Records.Upper | scripts/app.py:111-112 | the typed text keeps its length; each lower-case ASCII letter becomes its capital and every other character is kept, so no lower-case ASCII letter remains |
| Records.UpperIdempotent | scripts/app.py:111-112 | upper-casing an already upper-cased input changes nothing, so a plate typed again matches the stored one |
| Records.UpperMatchesIgnoringCase | scripts/app.py:112-143 | two plates upper-case alike if and only if they differ only in the case of ASCII letters, so a plate typed in lower case at a later stage finds the stored row |
| Records.StampLoadStart | scripts/app.py:142-143 | every row whose plate equals the typed plate gets the new load-start time; every other row and every other field are unchanged; the row count is kept |
| Records.StampLoadEnd | scripts/app.py:161-162 | every row with the typed plate gets the new load-end time and count; all other rows and fields are unchanged; the row count is kept |
| Records.StampWithoutMatchIsNoOp | scripts/app.py:142-143 | an update whose plate matches no row leaves the table exactly as it was |
| Records.StampKeepsPlates | scripts/app.py:142-143 | neither update adds or removes a plate |
| Checkin.Apply | scripts/app.py:108-166 | one stage press: an empty plate changes nothing; only an arrival adds a row, exactly one, carrying the upper-cased plate; existing rows keep everything but their load times and count |
| Checkin.Replay | scripts/app.py:108-166 | a sequence of presses never removes a row and never changes the plate of an existing row |
| Checkin.ReplayAppend | scripts/app.py:108-166 | replaying two sequences of presses one after the other is replaying their concatenation |
| Checkin.CheckinTable.Insert | scripts/app.py:46-59 | one row is appended; absent optional keys are stored as '' and 0 |
| Checkin.CheckinTable.Arrival | scripts/app.py:108-129 | refuses exactly when the plate is empty and then changes nothing; otherwise appends one row with the unit, upper-cased name and plate, the arrival time, '' for both load times and 0 shipments, keeping every earlier row; the new table is `Apply` of the arrival |
| Checkin.CheckinTable.LoadStart | scripts/app.py:131-146 | refuses exactly when the plate is empty and then changes nothing; otherwise the table becomes the load-start update of the old table by the upper-cased plate; the new table is `Apply` of the press |
| Checkin.CheckinTable.LoadEnd | scripts/app.py:148-166 | refuses exactly when the plate is empty and then changes nothing; otherwise the table becomes the load-end update of the old table by the upper-cased plate and the count; the new table is `Apply` of the press |
| Views.KeepLast | scripts/app.py:177-180 | the definition of `drop_duplicates(subset='Placa', keep='last')`; its contract says the result is never longer than the table and is empty exactly when the table is (the `if registros` and `df_registros.empty` tests) |
| Views.LastOfEachPlate | scripts/app.py:179 | independent reference reading of `keep='last'`: a row stays exactly when no later row carries its plate (definition, no contract of its own) |
| Views.KeepLastIsLastOfEachPlate | scripts/app.py:179 | the reduction equals the reference reading, which fixes the reduced table itself, even when two rows are equal values |
| Views.KeepLastMembers | scripts/app.py:179 | a row is in the reduced table if and only if it is the last row of the table with its plate |
| Views.KeepLastIsSubseq | scripts/app.py:179 | the reduction only deletes rows and keeps table order |
| Views.KeepLastDistinct | scripts/app.py:179 | the reduced table has at most one row per plate |
| Views.KeepLastPlates | scripts/app.py:179 | the reduced table has exactly the plates of the table |
| Views.UnitIs | scripts/app.py:223 | the definition of the test `df_registros['Unidade'] == unidade_selecionada`; `FilterUnit` states what it keeps (definition, no contract of its own) |
| Views.FilterUnit | scripts/app.py:222-223 | "Todas" keeps every row; any other selection keeps exactly the rows of that unit |
| Views.FilterUnitAppend | scripts/app.py:222-223 | the unit filter distributes over concatenation, so it keeps table order |
| Views.FilterUnitIsSubseq | scripts/app.py:222-223 | the unit filter only deletes rows |
| Views.SelectedLastRowInView | scripts/app.py:179-223 | a row that is the last of its plate and of the selected unit (or "Todas") is in the shown view, and the view has at most one row per plate |
| Mirror.LastIndexOf | scripts/app.py:63 | the index found holds the column name and no later header cell does (a duplicated name keeps its last cell) |
| Mirror.RecordOf | scripts/app.py:63-64 | the definition of one record of `get_all_records`: header names zipped with the row's cells, a blank or missing cell as ''; `FixedHeaderRoundTrip` states what it reads back (definition, no contract of its own) |
| Mirror.Read | scripts/app.py:63-64 | the definition of a successful read: the header's column names and one record per stored row, in order (definition, no contract of its own) |
| Mirror.AlreadyMirrored | scripts/app.py:61-84 | the definition of `dados_existentes`: true when the read raised, false on an empty sheet, true when a key column is missing, otherwise whether some record carries the key; its meaning is stated by the four lemmas below (definition, no contract of its own) |
| Mirror.HeldIsReported | scripts/app.py:61-84 | a key the sheet holds is reported as existing whether or not the read raises |
| Mirror.ReadIsExact | scripts/app.py:72-81 | with the three key columns present, a successful read reports a key if and only if some stored row carries it |
| Mirror.MissingColumnFailsClosed | scripts/app.py:72-74 | on a non-empty sheet missing a key column, every candidate is reported as existing |
| Mirror.EmptySheetHoldsNothing | scripts/app.py:66-69 | a sheet without data rows reports nothing as existing and holds no key |
| Mirror.FixedHeaderRoundTrip | scripts/app.py:63 | under the seven-column header, each column name reads back the cell at its own position |
| Mirror.FixedHeaderDistinct | scripts/app.py:191-199 | the seven column names are distinct |
| Mirror.Worksheet.AppendRows | scripts/app.py:203 | the new lines land below the existing ones, in order, and the header is unchanged |
| Sync.LineOf | scripts/app.py:191-199 | the definition of `linha_dados`; its contract says a line has one cell per column of the fixed header, and `LineOfInjective` and `LineReadsBack` state what it keeps |
| Sync.Eligible | scripts/app.py:190 | the definition of the eligibility test: every field after Unidade non-null and a positive count; `EmptyLoadStartIsEligible` and `BatchMembers` state its effect (definition, no contract of its own) |
| Sync.Batch | scripts/app.py:186-200 | the definition of `batch_requests`: the lines of the eligible rows in order; `BatchMembers` and `BatchAppend` state its contents and order (definition, no contract of its own) |
| Sync.ReadAt | scripts/app.py:242 | the read made for the candidate at one position, which may raise on its own (definition, no contract of its own) |
| Sync.Unsent | scripts/app.py:228-245 | the definition of `dados_para_enviar`; `UnsentMembers` and `UnsentAppend` state its contents and order (definition, no contract of its own) |
| Sync.LineOfInjective | scripts/app.py:191-199 | two rows with the same line are the same row |
| Sync.LineReadsBack | scripts/app.py:191-199 | a line appended under the fixed header reads back its unit, name and plate under their column names, a null as '' |
| Sync.StagesReadBack | scripts/app.py:191-199 | the same read-back for the three timestamps and the count |
| Sync.BatchMembers | scripts/app.py:188-200 | a line is in the batch if and only if it is the line of an eligible row of the data |
| Sync.BatchAppend | scripts/app.py:188-200 | the batch of a concatenation is the concatenation of the batches, so batch order is candidate order |
| Sync.BatchSnoc | scripts/app.py:188-200 | an eligible row added at the end of the data adds its line at the end of the batch |
| Sync.EmptyLoadStartIsEligible | scripts/app.py:190 | the eligibility test accepts '' as present: an unstamped load start with a positive count passes |
| Sync.UnsentMembers | scripts/app.py:231-245 | a candidate is kept if and only if the existence check made at its position did not find it |
| Sync.UnsentAppend | scripts/app.py:231-245 | when every read succeeds, the candidates kept from a concatenation are those kept from each part, in order |
| Sync.UnsentNeverHeld | scripts/app.py:242-243 | no kept candidate has a key the sheet holds, whichever reads fail |
| Sync.MirroredNeverSent | scripts/app.py:242-248 | the line of a row whose key the sheet holds is never in the batch |
| Sync.HeldAfterAppend | scripts/app.py:203 | appending never removes a key from the sheet |
| Sync.AppendedIsHeld | scripts/app.py:191-203 | once an eligible row with a unit is appended under the fixed header, the sheet holds its key |
| Sync.SecondRunResendsNothing | scripts/app.py:231-248 | after a run's batch is appended, a second run over the same view sends none of its lines again |
| Sync.FirstRunSendsOnce | scripts/app.py:231-248 | in a view with one row per plate, an eligible row is sent exactly once by a run whose reads all succeed when the sheet lacks its key, and not at all when the sheet has it |
| Sync.ViewWithSentOnce | scripts/app.py:231-248 | the same, and in addition a second run after the batch is appended never sends the row again |
| Lifecycle.ApplyKeepsRow | scripts/app.py:108-166 | a press that inserts no new row with the plate keeps the row the last of its plate and changes only its load times and count; a load end with its plate stamps the time and count |
| Lifecycle.ReplayKeepsRow | scripts/app.py:108-166 | the same through any sequence of such presses; without a load end of its plate, its load end and count stay as they were |
| Lifecycle.CompletedRow | scripts/app.py:108-166 | after its arrival, any presses that do not insert its plate again, its load end and any presses that neither insert nor finish its plate, the check-in's row is the last of its plate, carries its arrival data, a load start, the load-end time and the count |
| Lifecycle.CompletedCheckinMirroredOnce | scripts/app.py:108-248 | such a completed check-in with a positive count, in the selected unit or under "Todas", is sent exactly once by a run whose reads all succeed unless the sheet already has it, then not at all, and never again in a later run |
| Sync.CollectUnsent | scripts/app.py:228-245 | the loop collects exactly the candidates, in view order, that the existence check did not find |
| Sync.BuildBatch | scripts/app.py:185-200 | the loop builds exactly the lines of the eligible rows, in order |
| Sync.SendBatch | scripts/app.py:185-206 | the batch is appended to the worksheet in one call, and nothing changes when it is empty |
| Sync.ViewRecords | scripts/app.py:209-250 | the lines sent, and appended, are the batch of the unsent candidates of the reduced, unit-filtered table, judged against the sheet as it was before the send |

## Left out

- **The Streamlit UI.** Pages, selectboxes, buttons, messages, `st.dataframe`, login and logout are left out, as are the page routing and session state. The stage handlers take the typed inputs as parameters.
- **The unit list.** The branch list `lista_filiais` only feeds a selectbox, so the unit is any string.
- **The `None` unit selection.** The unit selector is a string. A selection matching null units (the "Todas" list built from `unique()`) cannot be expressed.
- **SQLite.** Connections, the CREATE TABLE DDL and the `id` column are left out. The table is a sequence in id order, and SQL NULL is `None`.
- **The clock.** `registrar_horario` (pytz, `datetime.now`) is left out. Timestamps are opaque string parameters.
- **Environment and credentials.** `load_dotenv`, credentials and gspread authentication are left out.
- **Worksheet reads and appends.** The network reads become the `Sheet` value. A read that raises is a `failures` set of candidate positions. An `append_rows` call that raises is not modelled.
- Mirror.Worksheet.AppendRows: keeps the header unchanged. This assumes the sheet's first row already holds the column names. Data appended to a sheet without one would have its first line read as the header.
- **gspread's `numericise`.** It turns numeric-looking text cells into numbers. It is not modelled: text cells read back as text. A consequence is that `Sync.MirroredNeverSent`, `Sync.SecondRunResendsNothing` and `Lifecycle.CompletedCheckinMirroredOnce` say nothing about digits-only values. With a digits-only plate, name or unit, the real read returns a number, and the comparison in `dados_existentes` never matches the candidate's text. The program would then send such a row again on every run.
- **Duplicate header names.** gspread raises for them. The model keeps the last cell for a repeated name instead.
- **Upper-casing.** `Records.Upper` covers ASCII letters only; Python's full Unicode upper-casing is not modelled.
- Sync.SecondRunResendsNothing: requires the worksheet header to be exactly the seven columns and the row to have a non-null unit. A null unit is appended as a blank cell, which reads back as '' and never equals a null candidate field, so such a row is sent again on every run.
- Lifecycle.CompletedCheckinMirroredOnce: states "exactly once" for a run in which every existence check succeeds. With failing reads it still never duplicates (`MirroredNeverSent`), but it may send nothing. It excludes any later arrival with the same plate, because that arrival is a new check-in that supersedes this one in the view. It excludes any load end of the plate after the one it names, because that load end re-stamps the row. Like `SecondRunResendsNothing`, it needs the fixed seven-column header.
