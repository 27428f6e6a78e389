# 1C event log to ClickHouse: a verified model

The converter `main.go` runs in two phases.

It first takes a 1C:Enterprise XML event log. It flattens each `<Event>` into a row of 22 text fields: the `-b` database name, then the 21 event fields in declaration order. It writes a header row and those rows to the intermediate file `<db>_eventlog.csv`, using a buffered CSV writer with the `;` delimiter.

It then creates the table `<db>_events` if it is absent. It reads the file back with the same delimiter and drops the header row. It appends positions 0..21 of every remaining record to one prepared INSERT batch, and sends the batch.

Every failure ends the run at once. The store sees rows only from the final Send.

This project models that run in Dafny and proves what it guarantees:

- **Row shape.** Every row has 22 fields, aligned with the header, the CREATE TABLE list and the INSERT list.
- **Sheet.** The sheet is the header followed by one row per event, in order.
- **Round trip.** The flushed text reads back as the sheet whenever no field needs quoting. The writer quotes a field that holds `;`, a quote mark, CR or LF, a field that starts with white space, and the field `\.`. A log with such a field, a 1C comment that starts with a space for instance, is outside the proved round trip.
- **Positional binding.** Value k lands in column k.
- **Commit.** Rows are committed only all together, after every Append succeeded.
- **Errors.** A refused row is reported by its 1-based number, and each early exit leaves the store as described below.

The model also shows that the run as written reads the file back before the buffered writer is flushed (see Findings).

Modules, in dependency order:

- `EventRecords` (records.dfy): the Event, the columns, the header, the row, the sheet, and the file and table names.
- `Schema` (schema.dfy): the CREATE TABLE and INSERT column lists, and positional binding of a row of values to column names.
- `Delimited` (delimited.dfy): the writer's field quoting, lines and text, the reader on text without quote marks or CRs, and the round trips.
- `CsvFile` (csvfile.dfy): files, the disk, and the buffered `;` CSV writer (a `class` whose buffer reaches the file only when it runs full, or on Flush).
- `Store` (store.dfy): tables, create-if-absent, the `Store` and `Batch` classes, and the append loop `AppendRecords`.
- `Pipeline` (pipeline.dfy): the flags, the environment, the outcomes, their reference functions, and the methods `Run` (flush before reading back) and `RunAsWritten` (deferred flush).
- `PlainHeader` (plainheader.dfy): no header name needs quoting.
- `RunProperties` (properties.dfy): run-level guarantees.
- `Scenario` and `ScenarioRuns` (scenario.dfy): the one-event run that exhibits the deferred flush.

The surroundings are parameters of type `Env`:

- whether the file can be created;
- whether the store connects;
- whether CREATE TABLE runs;
- whether the file opens and reads;
- whether the batch prepares;
- whether Send succeeds;
- which rows the store takes (`accepts`, covering the driver's DateTime and UInt16 coercion);
- how much of its buffer the buffered writer hands to the file (`drain`);
- what the reader yields for a file holding a quote mark or a CR (`quotedRead`).

The decoded XML is given as `XmlInput`: the file failed to open, it is malformed, or it decodes to a sequence of events.

## Model

| member | source | states |
|---|---|---|
| EventRecords.ColumnsEnumerate | main.go:92-99 | the 22 columns are listed once each, in row order, each at its own position |
| EventRecords.FromElement | main.go:20-42 | unmarshalling an `<Event>` fills every field with the text of the element its tag names, and leaves it empty when that element is absent |
| EventRecords.MissingElementIsEmpty | main.go:20-42 | an absent child element is no error: its field is the empty string |
| EventRecords.HeaderNamesColumns | main.go:92-99 | the header has 22 cells, and the cell at a column's position is that column's name, `DatabaseName` first |
| EventRecords.HeaderDistinct | main.go:92-99 | no name occurs twice in the header |
| EventRecords.Row | main.go:104-127 | the row of an event has exactly 22 fields |
| EventRecords.RowByColumn | main.go:104-127 | the row is as long as the header; its first field is the `-b` database name, and field k is the value of the k-th column, the event's fields in declaration order |
| EventRecords.Rows | main.go:103-129 | one row per event, each of 22 fields |
| EventRecords.RowsInOrder | main.go:103-129 | data row i is the row of event i: nothing is dropped, reordered or repeated |
| EventRecords.Sheet | main.go:92-129 | the sheet has one line more than the log, starts with the header, and continues with the rows of the events |
| EventRecords.SheetOfOne | main.go:100-129 | the sheet of a one-event log is the header and that event's row |
| EventRecords.FileName | main.go:78 | the intermediate file name is the database name followed by `_eventlog.csv` |
| EventRecords.TableName | main.go:149 | the table name is the database name followed by `_events` |
| EventRecords.NamesDetermineDatabase | main.go:149 | file name and table name each determine the database name, and are determined by it |
| Schema.CreateColumnsNamed | main.go:151-177 | the CREATE TABLE list names the columns in header order |
| Schema.CreateColumnsTyped | main.go:151-177 | the CREATE TABLE list declares Date as DateTime, Port and SyncPort as UInt16, and every other column as String |
| Schema.InsertColumnsAreHeader | main.go:191-199 | the INSERT column list is the header, column for column, 22 long |
| Schema.PlaceholdersMatchColumns | main.go:198 | the VALUES list has one `?` per INSERT column |
| Schema.Zip | main.go:226-249 | pairing names with values gives a map over exactly those names, with the k-th name holding the k-th value when the names are distinct |
| Schema.BindByPosition | main.go:226-249 | binding 22 values stores value k under the k-th INSERT column, over exactly the INSERT columns |
| Schema.StoredRowByName | main.go:226-249 | an event's stored row holds the database name under `DatabaseName` and every field under the column of its own name |
| Delimited.FieldText | main.go:87-88 | a plain field is written as it is; a field that needs quoting is written between quote marks with its body reading back as the field |
| Delimited.Escape | main.go:87-88 | the body of a quoted field is the field with every quote mark doubled: one character longer per quote mark, and the field itself when it holds none |
| Delimited.UnescapeEscape | main.go:87-88 | doubling quote marks inside a quoted field loses nothing |
| Delimited.Encode | main.go:100 | a record is written field for field, unchanged when every field is plain |
| Delimited.JoinSplit | main.go:209-213 | splitting at `;` and re-joining gives back the text, and no piece holds `;` |
| Delimited.SplitJoin | main.go:209-213 | splitting at `;` undoes joining for pieces free of `;` |
| Delimited.Records | main.go:209-213 | the reader skips empty lines and only those: no more records than lines, one per line when no line is empty, none when every line is |
| Delimited.RenderCons | main.go:100-129 | the written text is the first record's line followed by the text of the rest |
| Delimited.LineRoundTrip | main.go:209-213 | a plain record of two or more fields is written as one non-empty line without LF that splits back into exactly its fields |
| Delimited.ParseRender | main.go:209-213 | the text of records of two or more plain fields splits back into exactly those records, in order |
| Delimited.ReadAll | main.go:209-213 | on text without a quote mark or a CR, each record the reader yields, joined at `;`, is the matching non-empty line of the text, in order, and no field holds `;` or LF |
| Delimited.RecordsOfLines | main.go:209-213 | the reader keeps one record per non-empty line, which joins back to that line, with no field holding `;` or a character the lines do not hold |
| Delimited.SplitAvoids | main.go:209-213 | a piece of a split holds no character the text does not hold |
| Delimited.PlainLine | main.go:100 | the line of a record of plain fields holds no quote mark and no CR |
| Delimited.PlainRender | main.go:100-129 | the text of records of plain fields holds no quote mark and no CR, so the reader treats it as plain text |
| Delimited.ParseEmpty | main.go:213 | reading an empty file yields no records at all, whatever the reader does with quoted text |
| CsvFile.Disk.Create | main.go:80-85 | creating the file leaves a new empty file at that path and changes no other path |
| CsvFile.CsvWriter.constructor | main.go:87-88 | a new writer over an empty file has written nothing and holds nothing |
| CsvFile.CsvWriter.Write | main.go:100 | the written text grows by exactly the record's line; file and buffer together hold it; the file only grows, and before the first Flush it receives text only once that text outgrows the buffer |
| CsvFile.CsvWriter.Flush | main.go:89 | after Flush the file holds exactly the text of all records written, and the buffer is empty |
| CsvFile.WriteRecords | main.go:100-129 | writing the records one after the other leaves the writer holding exactly their text |
| Store.EnsureTable | main.go:151-152 | CREATE TABLE IF NOT EXISTS adds an empty table with the declared columns when the name is absent, and leaves every existing table as it is |
| Store.EnsureTableIdempotent | main.go:151-152 | creating the table again changes nothing, whatever columns the second statement declares |
| Store.Commit | main.go:257-261 | Send appends the rows to the one table, after its rows, and changes no other table |
| Store.Store.CreateTableIfNotExists | main.go:184-188 | executing the CREATE statement updates the store to EnsureTable of its tables |
| Store.FirstBad | main.go:225-254 | every record before the index can be appended, and the record at it cannot |
| Store.FirstBadIs | main.go:225-254 | FirstBad is the one index with that property |
| Store.Heads | main.go:226-249 | the loop appends positions 0..21 of each record, 22 values each |
| Store.Batch.constructor | main.go:219-223 | a prepared batch for the table holds no rows |
| Store.Batch.Append | main.go:226-249 | an Append adds the row exactly when the store takes it |
| Store.Batch.Send | main.go:257-261 | a successful Send commits every appended row to the table, all together; a failed one commits none |
| Store.AppendRecords | main.go:225-254 | the loop appends every record when it can; otherwise it stops at the first record it cannot append, reporting a short record by its index and a refused one by its 1-based number, with the batch holding exactly the records before it |
| Pipeline.WriteSheet | main.go:92-129 | writing the header and then one row per event leaves the writer holding exactly the sheet's text |
| Pipeline.WriteFile | main.go:77-129 | a new file `<db>_eventlog.csv` replaces whatever the path named, and the new writer over it holds the sheet's text unflushed |
| Pipeline.Load | main.go:133-261 | the load phase ends as LoadOutcome of the file's text says, and leaves the store's tables as LoadTables says |
| Pipeline.Run | main.go:44-264 | with the flush before the load phase, a run ends as Expected says and leaves the tables as ExpectedTables says; it writes only `<db>_eventlog.csv`, holding exactly the sheet's text, and only when it gets that far |
| Pipeline.RunAsWritten | main.go:89-213 | as written, the load phase reads back only a prefix of the sheet, which is empty when the sheet fits in the writer's buffer, and the run ends as loading that prefix does; the file holds the whole sheet only after the run |
| PlainHeader.HeaderPlain | main.go:92-100 | no header name needs quoting |
| RunProperties.SheetReadsBack | main.go:100-225 | once flushed, the sheet of a log of plain rows reads back as exactly that sheet, whatever the reader would do with quoted text |
| RunProperties.BoundRows | main.go:225-249 | binding positions 0..21 of the log's rows gives the log's stored rows, one per event, in order |
| RunProperties.FirstBadOfRows | main.go:225-254 | the append loop over a log's rows stops at the first event whose row the store refuses |
| RunProperties.LoadOutcomeOfSheet | main.go:202-261 | loading the flushed sheet of a plain log ends as the batch of the log's rows does |
| RunProperties.LoadTablesOfSheet | main.go:202-261 | loading the flushed sheet of a plain log commits its stored rows when every row was taken and sent, and otherwise only creates the table |
| RunProperties.ExpectedOfLog | main.go:55-131 | a run over a decoded log that gets to write the file ends as the load phase over the sheet's text does |
| RunProperties.ExpectedTablesOfLog | main.go:55-131 | likewise, that run leaves the tables as loading the sheet's text does |
| RunProperties.RunOutcomeOfPlainLog | main.go:44-264 | a run over a plain log that reaches the batch ends as the batch of its rows does |
| RunProperties.RunTablesOfPlainLog | main.go:44-264 | such a run commits the log's stored rows exactly when every row was taken and the batch was sent |
| RunProperties.RunLoadsEveryEvent | main.go:100-263 | with every step ok, a plain log the store takes is loaded completely: the run reports every event loaded into `<db>_events`, that table ends with its old rows followed by one stored row per event in order, and no other table changes |
| RunProperties.FirstRunLoadsEveryEvent | main.go:100-263 | on a store with no tables, that run leaves exactly one table, `<db>_events`, holding one stored row per event in order |
| RunProperties.BatchOfRows | main.go:225-254 | the batch of a log's rows never panics on a short record; it reports an append error exactly when some row is refused, numbered by the first refused event |
| RunProperties.RefusedRowIsReported | main.go:225-254 | with every earlier step ok, a run over a plain log never panics, reports an append error exactly when the store refuses some event's row, and names the first refused event by its 1-based number |
| RunProperties.CommitOnlyWhenLoaded | main.go:184-261 | whatever the file holds, the load phase commits only when it reports Loaded, and then exactly the reported number of rows, after the table's old rows, to `<db>_events` alone; otherwise the store is unchanged or just gains the empty table |
| RunProperties.FailedRunCommitsNothing | main.go:55-261 | a run that does not load leaves the store unchanged, or with just the empty table added |
| RunProperties.MissingArgumentLoadsNothing | main.go:55-58 | without `-f` or `-b` the run prints its usage, writes no file and leaves the store alone |
| RunProperties.LoadKeepsSchema | main.go:151-188 | every table keeps its declared columns; once the store was reached and the schema statement ran, `<db>_events` exists, with the CREATE TABLE columns if it is new |
| RunProperties.SecondRunCreatesNoTable | main.go:151-188 | two runs for the same database against an empty store leave exactly one table, `<db>_events`, with the CREATE TABLE columns |
| Scenario.ScenarioDecodes | main.go:20-42 | an `<Event>` with only Level, Date and Port decodes to the scenario's event |
| Scenario.ScenarioRowPlain | main.go:104-127 | the scenario's row needs no quoting, and none of its fields is longer than 19 characters |
| Scenario.ScenarioLogPlain | main.go:103-129 | the scenario's log is a log of plain rows |
| Scenario.ScenarioSheetFitsBuffer | main.go:87-129 | the scenario's sheet is at most DrainThreshold (4092) bytes, so none of it reaches the file before the flush |
| ScenarioRuns.AsWrittenScenarioPanics | main.go:89-225 | as written, the scenario's run writes its file, but the load phase reads it back empty, yields no records, panics slicing them, and leaves only the empty table |
| ScenarioRuns.CorrectedScenarioLoads | main.go:89-263 | with the flush before the load phase, the scenario's run loads its one event: one stored row, in a table that did not exist before |
| ScenarioRuns.AsWrittenScenarioRun | main.go:89-225 | the source's run on the scenario ends in the empty-read panic, with the store just gaining the empty `mybase_events` |
| ScenarioRuns.CorrectedScenarioRun | main.go:89-263 | the corrected run on the scenario, against an empty store, reports one event loaded and leaves exactly `mybase_events`, holding the scenario's stored row |

## Left out

- Flag parsing beyond the empty-argument check, and every console message: command-line plumbing. `Flags` carries the six flag values, and only `-f` and `-b` influence the model.
- Store address, credentials, the connection itself, the 10-second timeout and the MergeTree engine: network I/O and time. The environment only says whether each store step succeeds (`connectOk`, `execOk`, `prepareOk`, `sendOk`).
- XML decoding is left abstract (`XmlInput`): opening, well-formedness and the streaming decoder are library behaviour. `FromElement` captures only the tag-to-field mapping for an element with at most one child per tag.
- Converting Date to DateTime and Port and SyncPort to UInt16 happens inside the driver. It is the `accepts` oracle, applied to each appended row.
- The reader is modelled for text without a quote mark or a CR, which is what the writer produces from plain fields: there it splits at LF and `;` and skips empty lines. How it un-quotes quoted fields and normalises CRLF is not modelled; for such text the records are the environment's `quotedRead`. The writer also quotes a field that starts with white space and the field `\.`, so a log holding such a field (an ordinary 1C comment that starts with a space, say) is read back through `quotedRead` too. `RunProperties.SheetReadsBack` and the run lemmas built on it cover only logs none of whose fields needs quoting. The reader's own parse errors are not modelled either: `CsvReadError` stands for every read failure.
- `Pipeline.Load`: for a file holding a quote mark or a CR, the records it appends are those of the `quotedRead` oracle, not a model of the reader's quoted-field parser.
- `Pipeline.Run`: likewise, for a log whose rows need quoting, what `Expected` and `ExpectedTables` say about the batch rests on the `quotedRead` oracle; the guarantees about plain logs in `RunProperties` do not depend on it.
- `Pipeline.RunAsWritten`: likewise, when the part of the file it reads back holds a quote mark or a CR, its records are those of the `quotedRead` oracle.
- Failed writes and a failed Flush: the source ignores the results of `writer.Write` and `writer.Flush`, so the model assumes every write succeeds. The source never checks `writer.Error()` and does not flush before reading the file back, so a write error surfaces in neither the source nor the model.
- `CsvWriter.Write`: the exact moment the buffered writer hands bytes to the file is an oracle (`drain`). The model states only two things. Nothing moves while the buffered text is at most 4092 bytes, so a one-rune write still fits. Whatever moves is a leading part of the buffer. The byte-for-byte boundaries of the buffered writer are not modelled.
- Closing files and the connection, deferred in the source, has no effect the model could observe and is left out.
- Go's runtime panics (`records[1:]` on an empty read, `record[21]` on a short record) are modelled as the outcomes `PanicNoRecords` and `PanicShortRecord`, not as crashes. A plain sheet never makes the loop panic (`RunProperties.RefusedRowIsReported`).
- `RunProperties.RefusedRowIsReported`: does not itself state what the store keeps after a refused row. That part is `RunProperties.FailedRunCommitsNothing` for every failing run, and `RunProperties.CommitOnlyWhenLoaded` for the load phase.

## Findings

| source | as written | input that shows it | evidently intended | confidence | as-written member | corrected member |
|---|---|---|---|---|---|---|
| main.go:89 | `writer.Flush()` is deferred to the end of `main`, so the file is re-opened and read back (main.go:202-213) while the buffered writer still holds everything that has not outgrown its 4096-byte buffer | `-f events.xml -b mybase` with one `<Event>` holding Level `Error`, Date `2024-01-01T10:00:00` and Port `1541`: the sheet is under 4092 bytes, the read-back yields no records, and `records[1:]` panics before any row is appended | flush the writer before the file is read back, so that every written row reaches the table | not executed | Pipeline.RunAsWritten, ScenarioRuns.AsWrittenScenarioPanics, ScenarioRuns.AsWrittenScenarioRun | Pipeline.Run, ScenarioRuns.CorrectedScenarioLoads, ScenarioRuns.CorrectedScenarioRun |
