/**
 * What a run guarantees, stated over the outcome and the tables it leaves
 * behind: a log of plain fields is loaded completely and in order, a
 * refused row names itself and commits nothing, a missing argument loads
 * nothing, and a second run creates no second table. The last part is the
 * one-event scenario that shows what the deferred flush does.
 */
module RunProperties {
  import opened EventRecords
  import opened Schema
  import opened Delimited
  import opened CsvFile
  import opened Store
  import opened Pipeline
  import opened PlainHeader

  /** Once flushed, the sheet of a log whose rows need no quoting reads back
      as exactly that sheet: the header, then one record per event. */
  lemma SheetReadsBack(db: string, events: seq<Event>, quoted: string -> seq<seq<string>>)
    requires forall i :: 0 <= i < |events| ==> PlainRecord(Row(db, events[i]))
    ensures ReadAll(Render(Sheet(db, events)), quoted) == Sheet(db, events)
  {
    var sheet := Sheet(db, events);
    HeaderPlain();
    RowsInOrder(db, events);
    assert forall i :: 1 <= i < |sheet| ==> sheet[i] == Row(db, events[i - 1]) by {
      forall i | 1 <= i < |sheet|
        ensures sheet[i] == Row(db, events[i - 1])
      {
        assert sheet[i] == sheet[1..][i - 1];
      }
    }
    ParseRender(sheet);
    PlainRender(sheet);
  }

  /** The stored rows of a log are its rows bound to the INSERT columns. */
  lemma BoundRows(db: string, events: seq<Event>)
    ensures BindAll(Heads(Rows(db, events))) == StoredRows(db, events)
  {
    var rows := Rows(db, events);
    RowsInOrder(db, events);
    forall i | 0 <= i < |events|
      ensures BindAll(Heads(rows))[i] == StoredRows(db, events)[i]
    {
      assert rows[i][..NumColumns] == rows[i];
    }
  }

  /** The append loop stops at the first event whose row the store refuses. */
  lemma FirstBadOfRows(db: string, events: seq<Event>, accepts: seq<string> -> bool)
    ensures var k := FirstBad(Rows(db, events), accepts);
      (forall j :: 0 <= j < k ==> accepts(Row(db, events[j])))
      && (k < |events| ==> !accepts(Row(db, events[k])))
  {
    var rows := Rows(db, events);
    RowsInOrder(db, events);
    forall j | 0 <= j < |events|
      ensures Good(rows[j], accepts) <==> accepts(Row(db, events[j]))
    {
      assert rows[j][..NumColumns] == rows[j];
    }
  }

  /** Loading the flushed sheet of a plain log ends as the batch of the
      log's rows does. */
  lemma LoadOutcomeOfSheet(db: string, events: seq<Event>, env: Env)
    requires env.connectOk && env.execOk && env.openOk && env.readOk && env.prepareOk
    requires forall i :: 0 <= i < |events| ==> PlainRecord(Row(db, events[i]))
    ensures LoadOutcome(db, Render(Sheet(db, events)), env) == BatchOutcome(TableName(db), Rows(db, events), env)
  {
    SheetReadsBack(db, events, env.quotedRead);
  }

  /** Loading the flushed sheet of a plain log commits the log's stored
      rows, taken straight from the events, when every row was taken and
      the batch was sent, and otherwise only creates the table. */
  lemma LoadTablesOfSheet(tables: map<string, Table>, db: string, events: seq<Event>, env: Env)
    requires env.connectOk && env.execOk && env.openOk && env.readOk && env.prepareOk
    requires forall i :: 0 <= i < |events| ==> PlainRecord(Row(db, events[i]))
    ensures LoadTables(tables, db, Render(Sheet(db, events)), env) ==
      var created := EnsureTable(tables, TableName(db), CreateColumns());
      if FirstBad(Rows(db, events), env.accepts) == |events| && env.sendOk
      then Commit(created, TableName(db), StoredRows(db, events))
      else created
  {
    SheetReadsBack(db, events, env.quotedRead);
    BoundRows(db, events);
  }

  /** A run over a decoded log that gets to write the file ends as the load
      phase over the sheet's text does. */
  lemma ExpectedOfLog(flags: Flags, events: seq<Event>, env: Env)
    requires flags.xmlFile != [] && flags.db != [] && env.createOk
    ensures Expected(flags, Log(events), env) == LoadOutcome(flags.db, Render(Sheet(flags.db, events)), env)
  {
  }

  /** ... and leaves the tables the load phase over that text leaves. */
  lemma ExpectedTablesOfLog(tables: map<string, Table>, flags: Flags, events: seq<Event>, env: Env)
    requires flags.xmlFile != [] && flags.db != [] && env.createOk
    ensures ExpectedTables(tables, flags, Log(events), env) == LoadTables(tables, flags.db, Render(Sheet(flags.db, events)), env)
  {
  }

  /** A run over a log of plain rows that gets as far as the batch ends as
      the batch of its rows does. */
  lemma RunOutcomeOfPlainLog(flags: Flags, events: seq<Event>, env: Env)
    requires flags.xmlFile != [] && flags.db != []
    requires env.createOk && env.connectOk && env.execOk && env.openOk
    requires env.readOk && env.prepareOk
    requires forall i :: 0 <= i < |events| ==> PlainRecord(Row(flags.db, events[i]))
    ensures Expected(flags, Log(events), env) == BatchOutcome(TableName(flags.db), Rows(flags.db, events), env)
  {
    ExpectedOfLog(flags, events, env);
    LoadOutcomeOfSheet(flags.db, events, env);
  }

  /** ... and commits the log's stored rows only when every row was taken
      and the batch was sent. */
  lemma RunTablesOfPlainLog(tables: map<string, Table>, flags: Flags, events: seq<Event>, env: Env)
    requires flags.xmlFile != [] && flags.db != []
    requires env.createOk && env.connectOk && env.execOk && env.openOk
    requires env.readOk && env.prepareOk
    requires forall i :: 0 <= i < |events| ==> PlainRecord(Row(flags.db, events[i]))
    ensures ExpectedTables(tables, flags, Log(events), env) ==
      var created := EnsureTable(tables, TableName(flags.db), CreateColumns());
      if FirstBad(Rows(flags.db, events), env.accepts) == |events| && env.sendOk
      then Commit(created, TableName(flags.db), StoredRows(flags.db, events))
      else created
  {
    ExpectedTablesOfLog(tables, flags, events, env);
    LoadTablesOfSheet(tables, flags.db, events, env);
  }

  /** All-ok run over a log of plain rows the store takes: the run reports
      every event loaded into `<db>_events`, and that table ends with its
      previous rows followed by one stored row per event, in input order;
      no other table changes. */
  lemma RunLoadsEveryEvent(tables: map<string, Table>, flags: Flags, events: seq<Event>, env: Env)
    requires flags.xmlFile != [] && flags.db != []
    requires env.createOk && env.connectOk && env.execOk && env.openOk
    requires env.readOk && env.prepareOk && env.sendOk
    requires forall i :: 0 <= i < |events| ==> PlainRecord(Row(flags.db, events[i]))
    requires forall i :: 0 <= i < |events| ==> env.accepts(Row(flags.db, events[i]))
    ensures Expected(flags, Log(events), env) == Loaded(TableName(flags.db), |events|)
    ensures var name := TableName(flags.db);
      var after := ExpectedTables(tables, flags, Log(events), env);
      after.Keys == tables.Keys + {name}
      && after[name].rows == (if name in tables then tables[name].rows else []) + StoredRows(flags.db, events)
      && forall n :: n in tables && n != name ==> after[n] == tables[n]
  {
    RunOutcomeOfPlainLog(flags, events, env);
    RunTablesOfPlainLog(tables, flags, events, env);
    FirstBadOfRows(flags.db, events, env.accepts);
  }

  /** On a store with no tables, the same run leaves exactly one table,
      `<db>_events`, holding one stored row per event, in input order. */
  lemma FirstRunLoadsEveryEvent(flags: Flags, events: seq<Event>, env: Env)
    requires flags.xmlFile != [] && flags.db != []
    requires env.createOk && env.connectOk && env.execOk && env.openOk
    requires env.readOk && env.prepareOk && env.sendOk
    requires forall i :: 0 <= i < |events| ==> PlainRecord(Row(flags.db, events[i]))
    requires forall i :: 0 <= i < |events| ==> env.accepts(Row(flags.db, events[i]))
    ensures Expected(flags, Log(events), env) == Loaded(TableName(flags.db), |events|)
    ensures var after := ExpectedTables(map[], flags, Log(events), env);
      after.Keys == {TableName(flags.db)}
      && after[TableName(flags.db)].rows == StoredRows(flags.db, events)
  {
    RunLoadsEveryEvent(map[], flags, events, env);
  }

  /** How the batch of a log's rows ends: AppendError exactly when the
      store refuses some event's row, numbered by the first refused event,
      and never a short-record panic. */
  lemma BatchOfRows(table: string, db: string, events: seq<Event>, env: Env)
    ensures !BatchOutcome(table, Rows(db, events), env).PanicShortRecord?
    ensures BatchOutcome(table, Rows(db, events), env).AppendError?
      <==> exists i :: 0 <= i < |events| && !env.accepts(Row(db, events[i]))
    ensures BatchOutcome(table, Rows(db, events), env).AppendError? ==>
      var r := BatchOutcome(table, Rows(db, events), env).row;
      r == FirstBad(Rows(db, events), env.accepts) + 1
      && 1 <= r <= |events| && !env.accepts(Row(db, events[r - 1]))
      && (forall j :: 0 <= j < r - 1 ==> env.accepts(Row(db, events[j])))
  {
    FirstBadOfRows(db, events, env.accepts);
  }

  /** A refused row, with every earlier step ok and plain rows: the run
      reports AppendError exactly when the store refuses some event's row,
      and the number it reports is the 1-based position of the first
      refused event. A plain log never makes the loop panic. (What the
      store keeps after a refused row is FailedRunCommitsNothing.) */
  lemma RefusedRowIsReported(flags: Flags, events: seq<Event>, env: Env)
    requires flags.xmlFile != [] && flags.db != []
    requires env.createOk && env.connectOk && env.execOk && env.openOk
    requires env.readOk && env.prepareOk
    requires forall i :: 0 <= i < |events| ==> PlainRecord(Row(flags.db, events[i]))
    ensures var outcome := Expected(flags, Log(events), env);
      !outcome.PanicShortRecord? && !outcome.PanicNoRecords?
    ensures Expected(flags, Log(events), env).AppendError?
      <==> exists i :: 0 <= i < |events| && !env.accepts(Row(flags.db, events[i]))
    ensures Expected(flags, Log(events), env).AppendError? ==>
      var r := Expected(flags, Log(events), env).row;
      1 <= r <= |events| && !env.accepts(Row(flags.db, events[r - 1]))
      && (forall j :: 0 <= j < r - 1 ==> env.accepts(Row(flags.db, events[j])))
  {
    RunOutcomeOfPlainLog(flags, events, env);
    BatchOfRows(TableName(flags.db), flags.db, events, env);
  }

  /** The load phase commits rows only when it reports Loaded, and then it
      appends exactly the number of rows it reports, after the rows the table
      already had, to the table `<db>_events` and nowhere else. Otherwise the
      store keeps its tables, or gains the empty table. This holds whatever
      the file holds, so also for the run that reads it back too early. */
  lemma CommitOnlyWhenLoaded(tables: map<string, Table>, db: string, text: string, env: Env)
    ensures !LoadOutcome(db, text, env).Loaded? ==>
      LoadTables(tables, db, text, env) == tables
      || LoadTables(tables, db, text, env) == EnsureTable(tables, TableName(db), CreateColumns())
    ensures LoadOutcome(db, text, env).Loaded? ==>
      var name := TableName(db);
      var created := EnsureTable(tables, name, CreateColumns());
      var after := LoadTables(tables, db, text, env);
      LoadOutcome(db, text, env).table == name
      && after.Keys == created.Keys
      && |after[name].rows| == |created[name].rows| + LoadOutcome(db, text, env).rows
      && after[name].rows[..|created[name].rows|] == created[name].rows
      && forall n :: n in created && n != name ==> after[n] == created[n]
  {
    if LoadOutcome(db, text, env).Loaded? {
      var name := TableName(db);
      var created := EnsureTable(tables, name, CreateColumns());
      var rows := LoadTables(tables, db, text, env)[name].rows;
      assert rows[..|created[name].rows|] == created[name].rows;
    }
  }

  /** A run that does not load leaves the store as it was, or with just the
      empty table added. */
  lemma FailedRunCommitsNothing(tables: map<string, Table>, flags: Flags, input: XmlInput, env: Env)
    requires !Expected(flags, input, env).Loaded?
    ensures ExpectedTables(tables, flags, input, env) == tables
      || ExpectedTables(tables, flags, input, env) == EnsureTable(tables, TableName(flags.db), CreateColumns())
  {
    if Writes(flags, input, env) {
      var text := Render(Sheet(flags.db, input.events));
      ExpectedOfLog(flags, input.events, env);
      ExpectedTablesOfLog(tables, flags, input.events, env);
      CommitOnlyWhenLoaded(tables, flags.db, text, env);
    }
  }

  /** Without `-f` or `-b` the run stops at the argument check: it writes no
      file and leaves the store alone. */
  lemma MissingArgumentLoadsNothing(tables: map<string, Table>, flags: Flags, input: XmlInput, env: Env)
    requires flags.xmlFile == [] || flags.db == []
    ensures Expected(flags, input, env) == Usage
    ensures !Writes(flags, input, env)
    ensures ExpectedTables(tables, flags, input, env) == tables
  {
  }

  /** Once the store was reached and the schema statement ran, the table
      `<db>_events` exists; every table keeps its declared columns, and a
      new table gets the CREATE TABLE column list. */
  lemma LoadKeepsSchema(tables: map<string, Table>, db: string, text: string, env: Env)
    ensures var after := LoadTables(tables, db, text, env);
      (forall n :: n in tables ==> n in after && after[n].columns == tables[n].columns)
      && (env.connectOk && env.execOk ==> after.Keys == tables.Keys + {TableName(db)})
      && (env.connectOk && env.execOk && TableName(db) !in tables ==> after[TableName(db)].columns == CreateColumns())
      && (!env.connectOk || !env.execOk ==> after == tables)
  {
  }

  /** Two runs for the same database against an empty store: both create the
      one table `<db>_events`, and the second creates no other. */
  lemma SecondRunCreatesNoTable(flags: Flags, first: XmlInput, env1: Env, second: XmlInput, env2: Env)
    requires Writes(flags, first, env1) && env1.connectOk && env1.execOk
    requires Writes(flags, second, env2) && env2.connectOk && env2.execOk
    ensures var once := ExpectedTables(map[], flags, first, env1);
      var twice := ExpectedTables(once, flags, second, env2);
      once.Keys == {TableName(flags.db)} && twice.Keys == {TableName(flags.db)}
      && twice[TableName(flags.db)].columns == CreateColumns()
  {
    var once := ExpectedTables(map[], flags, first, env1);
    LoadKeepsSchema(map[], flags.db, Render(Sheet(flags.db, first.events)), env1);
    LoadKeepsSchema(once, flags.db, Render(Sheet(flags.db, second.events)), env2);
  }
}
