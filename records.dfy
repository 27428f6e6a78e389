/**
 * The record model of the 1C event-log converter: the decoded <Event>
 * element, the fixed 22-column row it becomes once the database name is
 * prepended, the header row, the sheet written to the intermediate file, and
 * the two names derived from the `-b` database name.
 */
module EventRecords {

  /** One decoded <Event> element: the 21 text fields of the source's Event
      struct, in declaration order. */
  datatype Event = Event(
    level: string,
    date: string,
    applicationName: string,
    applicationPresentation: string,
    event: string,
    eventPresentation: string,
    user: string,
    userName: string,
    computer: string,
    metadata: string,
    metadataPresentation: string,
    comment: string,
    data: string,
    dataPresentation: string,
    transactionStatus: string,
    transactionID: string,
    connection: string,
    session: string,
    serverName: string,
    port: string,
    syncPort: string)

  /** The 22 columns of the flat row: the injected database name, then one
      column per Event field, in declaration order. */
  datatype Column =
    | DatabaseName
    | Level | Date | ApplicationName | ApplicationPresentation | Event
    | EventPresentation | User | UserName | Computer | Metadata
    | MetadataPresentation | Comment | Data | DataPresentation
    | TransactionStatus | TransactionID | Connection | Session
    | ServerName | Port | SyncPort

  /** The columns in row order. */
  function Columns(): seq<Column>
  {
    [DatabaseName,
     Level, Date, ApplicationName, ApplicationPresentation, Column.Event,
     EventPresentation, User, UserName, Computer, Metadata,
     MetadataPresentation, Comment, Data, DataPresentation,
     TransactionStatus, TransactionID, Connection, Session,
     ServerName, Port, SyncPort]
  }

  /** The position of a column in the row, the header and both column lists. */
  function Index(c: Column): (k: nat)
    ensures k < 22
  {
    match c
    case DatabaseName => 0
    case Level => 1
    case Date => 2
    case ApplicationName => 3
    case ApplicationPresentation => 4
    case Event => 5
    case EventPresentation => 6
    case User => 7
    case UserName => 8
    case Computer => 9
    case Metadata => 10
    case MetadataPresentation => 11
    case Comment => 12
    case Data => 13
    case DataPresentation => 14
    case TransactionStatus => 15
    case TransactionID => 16
    case Connection => 17
    case Session => 18
    case ServerName => 19
    case Port => 20
    case SyncPort => 21
  }

  /** The name of a column; for an Event field it is also the XML element
      name its struct tag binds. */
  function Name(c: Column): string
  {
    match c
    case DatabaseName => "DatabaseName"
    case Level => "Level"
    case Date => "Date"
    case ApplicationName => "ApplicationName"
    case ApplicationPresentation => "ApplicationPresentation"
    case Event => "Event"
    case EventPresentation => "EventPresentation"
    case User => "User"
    case UserName => "UserName"
    case Computer => "Computer"
    case Metadata => "Metadata"
    case MetadataPresentation => "MetadataPresentation"
    case Comment => "Comment"
    case Data => "Data"
    case DataPresentation => "DataPresentation"
    case TransactionStatus => "TransactionStatus"
    case TransactionID => "TransactionID"
    case Connection => "Connection"
    case Session => "Session"
    case ServerName => "ServerName"
    case Port => "Port"
    case SyncPort => "SyncPort"
  }

  /** Columns() lists every column once, each at its own Index. */
  lemma ColumnsEnumerate()
    ensures |Columns()| == 22
    ensures forall k :: 0 <= k < 22 ==> Index(Columns()[k]) == k
    ensures forall c :: Columns()[Index(c)] == c
  {
  }

  /** The value column `c` takes in the row of event `e` loaded for database `db`. */
  function Value(db: string, e: Event, c: Column): string
  {
    match c
    case DatabaseName => db
    case Level => e.level
    case Date => e.date
    case ApplicationName => e.applicationName
    case ApplicationPresentation => e.applicationPresentation
    case Event => e.event
    case EventPresentation => e.eventPresentation
    case User => e.user
    case UserName => e.userName
    case Computer => e.computer
    case Metadata => e.metadata
    case MetadataPresentation => e.metadataPresentation
    case Comment => e.comment
    case Data => e.data
    case DataPresentation => e.dataPresentation
    case TransactionStatus => e.transactionStatus
    case TransactionID => e.transactionID
    case Connection => e.connection
    case Session => e.session
    case ServerName => e.serverName
    case Port => e.port
    case SyncPort => e.syncPort
  }

  /** The text of child element `tag`, or "" when the element is absent. */
  function Child(children: map<string, string>, tag: string): string
  {
    if tag in children then children[tag] else ""
  }

  /** What unmarshalling an <Event> element with the given child elements
      produces: every field takes the text of the element its tag names, and
      an absent element leaves the field empty. */
  function FromElement(children: map<string, string>): (e: Event)
    ensures forall db, c :: c != DatabaseName ==> Value(db, e, c) == Child(children, Name(c))
  {
    Event.Event(
      Child(children, "Level"), Child(children, "Date"),
      Child(children, "ApplicationName"), Child(children, "ApplicationPresentation"),
      Child(children, "Event"), Child(children, "EventPresentation"),
      Child(children, "User"), Child(children, "UserName"),
      Child(children, "Computer"), Child(children, "Metadata"),
      Child(children, "MetadataPresentation"), Child(children, "Comment"),
      Child(children, "Data"), Child(children, "DataPresentation"),
      Child(children, "TransactionStatus"), Child(children, "TransactionID"),
      Child(children, "Connection"), Child(children, "Session"),
      Child(children, "ServerName"), Child(children, "Port"),
      Child(children, "SyncPort"))
  }

  /** A missing child element is no error: its field is simply empty. */
  lemma MissingElementIsEmpty(children: map<string, string>, db: string, c: Column)
    requires c != DatabaseName && Name(c) !in children
    ensures Value(db, FromElement(children), c) == ""
  {
  }

  /** The header row written first to the intermediate file. */
  function Header(): seq<string>
  {
    ["DatabaseName",
     "Level", "Date", "ApplicationName", "ApplicationPresentation", "Event",
     "EventPresentation", "User", "UserName", "Computer", "Metadata",
     "MetadataPresentation", "Comment", "Data", "DataPresentation",
     "TransactionStatus", "TransactionID", "Connection", "Session",
     "ServerName", "Port", "SyncPort"]
  }

  /** Header cell k carries the name of the column at position k. */
  lemma HeaderNamesColumns()
    ensures |Header()| == 22
    ensures forall c :: Header()[Index(c)] == Name(c)
  {
  }

  /** No name occurs twice in the header, so a name identifies its column. */
  lemma HeaderDistinct()
    ensures forall i, j :: 0 <= i < j < |Header()| ==> Header()[i] != Header()[j]
  {
  }

  /** The data row of one event: the database name, then the 21 fields. */
  function Row(db: string, e: Event): (r: seq<string>)
    ensures |r| == 22
  {
    [db,
     e.level,
     e.date,
     e.applicationName,
     e.applicationPresentation,
     e.event,
     e.eventPresentation,
     e.user,
     e.userName,
     e.computer,
     e.metadata,
     e.metadataPresentation,
     e.comment,
     e.data,
     e.dataPresentation,
     e.transactionStatus,
     e.transactionID,
     e.connection,
     e.session,
     e.serverName,
     e.port,
     e.syncPort]
  }

  /** Field k of the row is the value of the column at position k: the
      database name first, then the event's fields in declaration order. */
  lemma RowByColumn(db: string, e: Event)
    ensures |Row(db, e)| == |Header()|
    ensures Row(db, e)[0] == db
    ensures forall c :: Row(db, e)[Index(c)] == Value(db, e, c)
  {
  }

  /** The data rows of a whole log, one per event, in input order. */
  function Rows(db: string, events: seq<Event>): (rows: seq<seq<string>>)
    ensures |rows| == |events|
    ensures forall i :: 0 <= i < |rows| ==> |rows[i]| == 22
  {
    if events == [] then []
    else Rows(db, events[..|events| - 1]) + [Row(db, events[|events| - 1])]
  }

  /** Data row i is the row of event i: no event is dropped, reordered or
      repeated. */
  lemma {:induction false} RowsInOrder(db: string, events: seq<Event>)
    ensures forall i :: 0 <= i < |events| ==> Rows(db, events)[i] == Row(db, events[i])
  {
    if events != [] {
      var init := events[..|events| - 1];
      RowsInOrder(db, init);
      assert forall i :: 0 <= i < |init| ==> init[i] == events[i];
    }
  }

  /** The whole sheet: the header, then one data row per event. */
  function Sheet(db: string, events: seq<Event>): (s: seq<seq<string>>)
    ensures |s| == |events| + 1 && s[0] == Header()
    ensures s[1..] == Rows(db, events)
  {
    [Header()] + Rows(db, events)
  }

  /** The sheet of a one-event log: the header and that event's row. */
  lemma SheetOfOne(db: string, e: Event)
    ensures Sheet(db, [e]) == [Header(), Row(db, e)]
  {
    assert Rows(db, [e]) == [Row(db, e)];
  }

  const FileSuffix: string := "_eventlog.csv"
  const TableSuffix: string := "_events"

  /** The name of the intermediate file for database `db`. */
  function FileName(db: string): (name: string)
    ensures |name| == |db| + |FileSuffix| && name[..|db|] == db && name[|db|..] == FileSuffix
  {
    db + FileSuffix
  }

  /** The name of the destination table for database `db`. */
  function TableName(db: string): (name: string)
    ensures |name| == |db| + |TableSuffix| && name[..|db|] == db && name[|db|..] == TableSuffix
  {
    db + TableSuffix
  }

  /** Both names are determined by the database name, and determine it. */
  lemma NamesDetermineDatabase(a: string, b: string)
    ensures FileName(a) == FileName(b) <==> a == b
    ensures TableName(a) == TableName(b) <==> a == b
  {
    if FileName(a) == FileName(b) {
      assert a == FileName(a)[..|a|] == FileName(b)[..|b|] == b;
    }
    if TableName(a) == TableName(b) {
      assert a == TableName(a)[..|a|] == TableName(b)[..|b|] == b;
    }
  }
}
