/**
 * One run of the converter: the argument check, the decoded log, writing
 * the sheet to `<db>_eventlog.csv`, and loading that file into the table
 * `<db>_events` of the store. Every step that can fail stops the run with
 * its own outcome; the store sees rows only from the final Send.
 *
 * What the environment decides (whether a file can be created or opened,
 * whether the store is reachable and accepts a statement or a row, how much
 * the buffered writer hands to the file) is given as an Env.
 */
module Pipeline {
  import opened EventRecords
  import opened Schema
  import opened Delimited
  import opened CsvFile
  import opened Store

  /** The command-line flags: -f, -b, -ch, -t, -u and -p. */
  datatype Flags = Flags(xmlFile: string, db: string, address: string,
                         storeDatabase: string, user: string, password: string)

  /** The XML input: the file could not be opened, it is not a well-formed
      event log, or it decodes to a sequence of events. */
  datatype XmlInput = OpenFailed | Malformed | Log(events: seq<Event>)

  /** What the surroundings decide: whether each external step succeeds,
      which rows the store takes (coercing their date and ports), how many
      characters the buffered writer hands to the file on each write, and
      what the reader yields for text holding a quote mark or a CR. */
  datatype Env = Env(createOk: bool, connectOk: bool, execOk: bool, openOk: bool,
                     readOk: bool, prepareOk: bool, sendOk: bool,
                     accepts: seq<string> -> bool, drain: nat -> nat,
                     quotedRead: string -> seq<seq<string>>)

  /** How a run ends. PanicNoRecords and PanicShortRecord are the runtime
      panics of slicing an empty read and of indexing a short record; every
      other failure is reported and ends the run. */
  datatype Outcome =
    | Usage
    | XmlOpenError
    | XmlDecodeError
    | CreateError
    | ConnectError
    | SchemaError
    | CsvOpenError
    | CsvReadError
    | PrepareError
    | PanicNoRecords
    | PanicShortRecord(index: nat)
    | AppendError(row: nat)
    | SendError
    | Loaded(table: string, rows: nat)

  /** Whether the run gets as far as writing the intermediate file. */
  predicate Writes(flags: Flags, input: XmlInput, env: Env)
  {
    flags.xmlFile != [] && flags.db != [] && input.Log? && env.createOk
  }

  /** How the append loop and Send end for the data records `data`. */
  function BatchOutcome(table: string, data: seq<seq<string>>, env: Env): Outcome
  {
    var k := FirstBad(data, env.accepts);
    if k < |data| then
      (if |data[k]| < NumColumns then PanicShortRecord(k) else AppendError(k + 1))
    else if !env.sendOk then SendError
    else Loaded(table, |data|)
  }

  /** How the load phase ends when the intermediate file holds `text`. */
  function LoadOutcome(db: string, text: string, env: Env): Outcome
  {
    if !env.connectOk then ConnectError
    else if !env.execOk then SchemaError
    else if !env.openOk then CsvOpenError
    else if !env.readOk then CsvReadError
    else if !env.prepareOk then PrepareError
    else
      var records := ReadAll(text, env.quotedRead);
      if records == [] then PanicNoRecords
      else BatchOutcome(TableName(db), records[1..], env)
  }

  /** The store's tables after the load phase, when the intermediate file
      holds `text`. */
  function LoadTables(tables: map<string, Table>, db: string, text: string, env: Env): map<string, Table>
  {
    if !env.connectOk || !env.execOk then tables
    else
      var created := EnsureTable(tables, TableName(db), CreateColumns());
      var records := ReadAll(text, env.quotedRead);
      if !env.openOk || !env.readOk || !env.prepareOk || records == [] then created
      else
        var data := records[1..];
        if FirstBad(data, env.accepts) < |data| || !env.sendOk then created
        else Commit(created, TableName(db), BindAll(Heads(data)))
  }

  /** How a run ends. */
  function Expected(flags: Flags, input: XmlInput, env: Env): Outcome
  {
    if flags.xmlFile == [] || flags.db == [] then Usage
    else match input
      case OpenFailed => XmlOpenError
      case Malformed => XmlDecodeError
      case Log(events) =>
        if !env.createOk then CreateError
        else LoadOutcome(flags.db, Render(Sheet(flags.db, events)), env)
  }

  /** The store's tables after a run. */
  function ExpectedTables(tables: map<string, Table>, flags: Flags, input: XmlInput, env: Env): map<string, Table>
  {
    if Writes(flags, input, env) then LoadTables(tables, flags.db, Render(Sheet(flags.db, input.events)), env)
    else tables
  }

  /** The stored rows of a whole log, one per event, in input order. */
  function StoredRows(db: string, events: seq<Event>): (rows: seq<map<string, string>>)
    ensures |rows| == |events|
  {
    seq(|events|, i requires 0 <= i < |events| => StoredRow(db, events[i]))
  }

  /** Writes the header and then one row per event, in input order. */
  method WriteSheet(w: CsvWriter, db: string, events: seq<Event>, drain: nat -> nat)
    requires w.Valid() && w.text == []
    modifies w, w.file
    ensures w.Valid() && w.text == Render(Sheet(db, events)) && w.flushed == old(w.flushed)
  {
    WriteRecords(w, Sheet(db, events), drain);
  }

  /** Creates `<db>_eventlog.csv` and writes the sheet through a new writer,
      without flushing it. */
  method WriteFile(disk: Disk, db: string, events: seq<Event>, drain: nat -> nat) returns (w: CsvWriter)
    modifies disk
    ensures fresh(w) && fresh(w.file) && w.Valid() && !w.flushed
    ensures w.text == Render(Sheet(db, events))
    ensures disk.files == old(disk.files)[FileName(db) := w.file]
  {
    var file := disk.Create(FileName(db));
    w := new CsvWriter(file);
    WriteSheet(w, db, events, drain);
  }

  /** The load phase: connect, create the table if absent, read the
      intermediate file back, append every data record and send. */
  method Load(db: string, env: Env, disk: Disk, store: Store) returns (outcome: Outcome)
    requires FileName(db) in disk.files
    modifies store
    ensures outcome == LoadOutcome(db, disk.files[FileName(db)].text, env)
    ensures store.tables == LoadTables(old(store.tables), db, disk.files[FileName(db)].text, env)
  {
    if !env.connectOk {
      return ConnectError;
    }
    var table := TableName(db);
    if !env.execOk {
      return SchemaError;
    }
    store.CreateTableIfNotExists(table, CreateColumns());
    if !env.openOk {
      return CsvOpenError;
    }
    var text := disk.files[FileName(db)].text;
    if !env.readOk {
      return CsvReadError;
    }
    var records := ReadAll(text, env.quotedRead);
    if !env.prepareOk {
      return PrepareError;
    }
    if records == [] {
      return PanicNoRecords;
    }
    var batch := new Batch(store, table);
    var failure := AppendRecords(batch, records[1..], env.accepts);
    match failure {
      case Some(ShortRecord(k)) =>
        return PanicShortRecord(k);
      case Some(Rejected(r)) =>
        return AppendError(r);
      case None =>
    }
    var sent := batch.Send(env.sendOk);
    if !sent {
      return SendError;
    }
    outcome := Loaded(table, |records| - 1);
  }

  /** A run that flushes the writer before reading the file back. */
  method Run(flags: Flags, input: XmlInput, env: Env, disk: Disk, store: Store) returns (outcome: Outcome)
    modifies disk, store
    ensures outcome == Expected(flags, input, env)
    ensures store.tables == ExpectedTables(old(store.tables), flags, input, env)
    ensures !Writes(flags, input, env) ==> disk.files == old(disk.files)
    ensures Writes(flags, input, env) ==>
      var name := FileName(flags.db);
      name in disk.files && fresh(disk.files[name])
      && disk.files == old(disk.files)[name := disk.files[name]]
      && disk.files[name].text == Render(Sheet(flags.db, input.events))
  {
    if flags.xmlFile == [] || flags.db == [] {
      return Usage;
    }
    if input.OpenFailed? {
      return XmlOpenError;
    }
    if input.Malformed? {
      return XmlDecodeError;
    }
    if !env.createOk {
      return CreateError;
    }
    var w := WriteFile(disk, flags.db, input.events, env.drain);
    w.Flush();
    outcome := Load(flags.db, env, disk, store);
  }

  /** What the file holds before the rest of the buffer is a prefix of the text. */
  lemma PrefixOfSum(a: string, b: string, text: string)
    requires a + b == text
    ensures a <= text
  {
    assert text[..|a|] == a;
  }

  /** A run as the source sequences it: the flush is deferred to the end of
      the run, so the load phase reads back only what the buffered writer has
      already handed to the file, `seen`. That is a prefix of the sheet, and
      nothing at all when the sheet fits in the buffer. */
  method RunAsWritten(flags: Flags, input: XmlInput, env: Env, disk: Disk, store: Store)
    returns (outcome: Outcome, ghost seen: string)
    modifies disk, store
    ensures !Writes(flags, input, env) ==>
      outcome == Expected(flags, input, env) && store.tables == old(store.tables)
      && disk.files == old(disk.files)
    ensures Writes(flags, input, env) ==>
      var name := FileName(flags.db);
      name in disk.files && fresh(disk.files[name])
      && disk.files == old(disk.files)[name := disk.files[name]]
      && disk.files[name].text == Render(Sheet(flags.db, input.events))
    ensures Writes(flags, input, env) ==>
      var text := Render(Sheet(flags.db, input.events));
      seen <= text
      && (Utf8Len(text) <= DrainThreshold ==> seen == [])
      && outcome == LoadOutcome(flags.db, seen, env)
      && store.tables == LoadTables(old(store.tables), flags.db, seen, env)
  {
    seen := [];
    if flags.xmlFile == [] || flags.db == [] {
      return Usage, seen;
    }
    if input.OpenFailed? {
      return XmlOpenError, seen;
    }
    if input.Malformed? {
      return XmlDecodeError, seen;
    }
    if !env.createOk {
      return CreateError, seen;
    }
    var w := WriteFile(disk, flags.db, input.events, env.drain);
    seen := w.file.text;
    PrefixOfSum(seen, w.buffer, Render(Sheet(flags.db, input.events)));
    outcome := Load(flags.db, env, disk, store);
    w.Flush();
  }
}
