/**
 * One event, one run: the smallest log the converter handles. Its sheet is
 * two short lines, far less than the writer's buffer, so a run that reads
 * the file back before flushing finds it empty and panics on the empty
 * read, while a run that flushes first loads the one row.
 */
module Scenario {
  import opened EventRecords
  import opened Delimited
  import opened CsvFile
  import opened PlainHeader

  /** The child elements of the one <Event>: a level, a date and a port. */
  function ScenarioChildren(): map<string, string>
  {
    map["Level" := "Error", "Date" := "2024-01-01T10:00:00", "Port" := "1541"]
  }

  function ScenarioEvent(): Event
  {
    Event.Event("Error", "2024-01-01T10:00:00",
                "", "", "", "", "", "", "", "", "", "", "", "", "", "", "", "", "",
                "1541", "")
  }

  /** The element decodes to the scenario's event: the three elements it
      has fill their fields, and every other field is empty. */
  lemma ScenarioDecodes()
    ensures FromElement(ScenarioChildren()) == ScenarioEvent()
  {
  }

  /** The scenario's values need no quoting. */
  lemma ScenarioValuesPlain()
    ensures Plain("mybase") && Plain("Error") && Plain("2024-01-01T10:00:00") && Plain("1541") && Plain("")
  {
  }

  /** The scenario's row needs no quoting, and no field of it is longer than
      the date. */
  lemma ScenarioRowPlain()
    ensures PlainRecord(Row("mybase", ScenarioEvent()))
    ensures forall k :: 0 <= k < 22 ==> |Row("mybase", ScenarioEvent())[k]| <= 19
  {
    ScenarioValuesPlain();
  }

  /** The scenario's log, one event, is a log of plain rows. */
  lemma ScenarioLogPlain(db: string, events: seq<Event>)
    requires db == "mybase" && events == [ScenarioEvent()]
    ensures forall i :: 0 <= i < |events| ==> PlainRecord(Row(db, events[i]))
  {
    ScenarioRowPlain();
  }

  lemma ScenarioRowLineLength()
    ensures |Line(Row("mybase", ScenarioEvent()))| <= 441
  {
    ScenarioRowPlain();
    LineLength(Row("mybase", ScenarioEvent()), 19);
  }

  /** The scenario's sheet is at most 970 characters, so at most 3880
      bytes: it fits in the writer's buffer, and none of it reaches the file
      before the flush. */
  lemma ScenarioSheetFitsBuffer()
    ensures Utf8Len(Render(Sheet("mybase", [ScenarioEvent()]))) <= DrainThreshold
  {
    SheetOfOne("mybase", ScenarioEvent());
    RenderTwo(Header(), Row("mybase", ScenarioEvent()));
    HeaderLineLength();
    ScenarioRowLineLength();
    Utf8LenBounds(Render(Sheet("mybase", [ScenarioEvent()])));
  }
}

/**
 * The scenario run end to end, as the source sequences it and with the
 * flush moved before the load phase.
 */
module ScenarioRuns {
  import opened EventRecords
  import opened Schema
  import opened Delimited
  import opened CsvFile
  import opened Store
  import opened Pipeline
  import opened RunProperties
  import opened Scenario

  /** `-f events.xml -b mybase`, with the default store address and login. */
  function ScenarioFlags(): Flags
  {
    Flags("events.xml", "mybase", "tcp://localhost:9000", "default", "default", "")
  }

  /** As the source sequences it: the run writes the file, but the whole
      sheet is still in the buffer when the load phase reads the file back,
      so the read yields no records and the run panics slicing them, with
      only the empty table created. */
  lemma AsWrittenScenarioPanics(tables: map<string, Table>, flags: Flags, events: seq<Event>, env: Env)
    requires flags == ScenarioFlags() && events == [ScenarioEvent()]
    requires env.createOk && env.connectOk && env.execOk && env.openOk
    requires env.readOk && env.prepareOk
    ensures Writes(flags, Log(events), env)
    ensures Utf8Len(Render(Sheet(flags.db, events))) <= DrainThreshold
    ensures LoadOutcome(flags.db, [], env) == PanicNoRecords
    ensures LoadTables(tables, flags.db, [], env) == EnsureTable(tables, TableName(flags.db), CreateColumns())
  {
    ScenarioSheetFitsBuffer();
    ParseEmpty(env.quotedRead);
  }

  /** With the flush before the load phase, the same run loads its one
      event: one stored row, in a table that was empty before. */
  lemma CorrectedScenarioLoads(flags: Flags, events: seq<Event>, env: Env)
    requires flags == ScenarioFlags() && events == [ScenarioEvent()]
    requires env.createOk && env.connectOk && env.execOk && env.openOk
    requires env.readOk && env.prepareOk && env.sendOk
    requires env.accepts(Row(flags.db, events[0]))
    ensures Expected(flags, Log(events), env) == Loaded(TableName(flags.db), 1)
    ensures var after := ExpectedTables(map[], flags, Log(events), env);
      after.Keys == {TableName(flags.db)}
      && after[TableName(flags.db)].rows == StoredRows(flags.db, events)
  {
    ScenarioLogPlain(flags.db, events);
    FirstRunLoadsEveryEvent(flags, events, env);
  }

  /** The source's run on the scenario: it creates the empty table and
      then panics on the empty read. */
  method AsWrittenScenarioRun(env: Env, disk: Disk, store: Store) returns (outcome: Outcome)
    requires env.createOk && env.connectOk && env.execOk && env.openOk
    requires env.readOk && env.prepareOk
    modifies disk, store
    ensures outcome == PanicNoRecords
    ensures store.tables == EnsureTable(old(store.tables), TableName("mybase"), CreateColumns())
  {
    var flags, events := ScenarioFlags(), [ScenarioEvent()];
    AsWrittenScenarioPanics(store.tables, flags, events, env);
    ghost var seen;
    outcome, seen := RunAsWritten(flags, Log(events), env, disk, store);
  }

  /** The corrected run on the scenario: it reports the one event loaded,
      and `mybase_events`, absent before, ends with the scenario's stored
      row. */
  method CorrectedScenarioRun(flags: Flags, events: seq<Event>, env: Env, disk: Disk, store: Store)
    returns (outcome: Outcome)
    requires flags == ScenarioFlags() && events == [ScenarioEvent()]
    requires env.createOk && env.connectOk && env.execOk && env.openOk
    requires env.readOk && env.prepareOk && env.sendOk
    requires env.accepts(Row(flags.db, events[0]))
    requires store.tables == map[]
    modifies disk, store
    ensures outcome == Loaded(TableName(flags.db), 1)
    ensures store.tables.Keys == {TableName(flags.db)}
    ensures store.tables[TableName(flags.db)].rows == StoredRows(flags.db, events)
  {
    CorrectedScenarioLoads(flags, events, env);
    outcome := Run(flags, Log(events), env, disk, store);
  }
}
