/**
 * The destination table's schema (the CREATE TABLE column list), the
 * INSERT column list with its placeholders, and positional binding: value k
 * of an appended row lands in the k-th column of the INSERT list.
 */
module Schema {
  import opened EventRecords

  /** The column types the CREATE TABLE statement declares. */
  datatype ColumnType = String | DateTime | UInt16

  datatype ColumnDef = ColumnDef(name: string, typ: ColumnType)

  /** The column list of the CREATE TABLE IF NOT EXISTS statement. */
  function CreateColumns(): seq<ColumnDef>
  {
    [ColumnDef("DatabaseName", String),
     ColumnDef("Level", String),
     ColumnDef("Date", DateTime),
     ColumnDef("ApplicationName", String),
     ColumnDef("ApplicationPresentation", String),
     ColumnDef("Event", String),
     ColumnDef("EventPresentation", String),
     ColumnDef("User", String),
     ColumnDef("UserName", String),
     ColumnDef("Computer", String),
     ColumnDef("Metadata", String),
     ColumnDef("MetadataPresentation", String),
     ColumnDef("Comment", String),
     ColumnDef("Data", String),
     ColumnDef("DataPresentation", String),
     ColumnDef("TransactionStatus", String),
     ColumnDef("TransactionID", String),
     ColumnDef("Connection", String),
     ColumnDef("Session", String),
     ColumnDef("ServerName", String),
     ColumnDef("Port", UInt16),
     ColumnDef("SyncPort", UInt16)]
  }

  /** The number of columns of the table, the header and every row. */
  const NumColumns: nat := 22

  /** The column list of the INSERT statement. */
  function InsertColumns(): seq<string>
  {
    ["DatabaseName", "Level", "Date", "ApplicationName", "ApplicationPresentation", "Event",
     "EventPresentation", "User", "UserName", "Computer", "Metadata",
     "MetadataPresentation", "Comment", "Data", "DataPresentation",
     "TransactionStatus", "TransactionID", "Connection", "Session",
     "ServerName", "Port", "SyncPort"]
  }

  /** The parameter markers of the INSERT statement's VALUES list. */
  function Placeholders(): seq<string>
  {
    ["?", "?", "?", "?", "?", "?", "?", "?", "?", "?", "?",
     "?", "?", "?", "?", "?", "?", "?", "?", "?", "?", "?"]
  }

  /** The type every column is meant to have: the date is temporal, the two
      ports are 16-bit unsigned, everything else is text. */
  function TypeOf(c: Column): ColumnType
  {
    match c
    case Date => DateTime
    case Port => UInt16
    case SyncPort => UInt16
    case _ => String
  }

  /** The CREATE TABLE list names the columns in header order. */
  lemma CreateColumnsNamed()
    ensures |CreateColumns()| == |Header()|
    ensures forall k :: 0 <= k < |Header()| ==> CreateColumns()[k].name == Header()[k]
  {
    var names := seq(|CreateColumns()|, k requires 0 <= k < |CreateColumns()| => CreateColumns()[k].name);
    assert names == Header();
  }

  /** The CREATE TABLE list gives each column its type. */
  lemma CreateColumnsTyped()
    ensures |CreateColumns()| == 22
    ensures forall c :: CreateColumns()[Index(c)].typ == TypeOf(c)
  {
  }

  /** The INSERT list is the header, column for column. */
  lemma InsertColumnsAreHeader()
    ensures InsertColumns() == Header()
    ensures |InsertColumns()| == NumColumns
  {
  }

  /** The INSERT statement has one placeholder per listed column. */
  lemma PlaceholdersMatchColumns()
    ensures |Placeholders()| == |InsertColumns()|
    ensures forall k :: 0 <= k < |Placeholders()| ==> Placeholders()[k] == "?"
  {
  }

  predicate Distinct(names: seq<string>)
  {
    forall i, j :: 0 <= i < j < |names| ==> names[i] != names[j]
  }

  /** Pairs the k-th name with the k-th value. */
  function Zip(names: seq<string>, values: seq<string>): (m: map<string, string>)
    requires |names| == |values|
    ensures m.Keys == set n | n in names
    ensures Distinct(names) ==> forall k :: 0 <= k < |names| ==> m[names[k]] == values[k]
  {
    if names == [] then map[]
    else
      var rest := Zip(names[1..], values[1..]);
      assert forall k :: 1 <= k < |names| ==> names[k] == names[1..][k - 1];
      rest[names[0] := values[0]]
  }

  /** The row the store holds after an Append of `values`. */
  function Bind(values: seq<string>): map<string, string>
    requires |values| == NumColumns
  {
    InsertColumnsAreHeader();
    Zip(InsertColumns(), values)
  }

  /** Positional binding: value k of an Append is stored under the k-th
      column of the INSERT list, and under no other column. */
  lemma BindByPosition(values: seq<string>)
    requires |values| == NumColumns
    ensures Bind(values).Keys == set n | n in InsertColumns()
    ensures forall k :: 0 <= k < |values| ==> Bind(values)[InsertColumns()[k]] == values[k]
  {
    InsertColumnsAreHeader();
    HeaderDistinct();
  }

  /** The stored row of one event. */
  function StoredRow(db: string, e: Event): map<string, string>
  {
    Bind(Row(db, e))
  }

  /** Loading the row of `e` stores the database name under "DatabaseName"
      and every field under the column of its own name. */
  lemma StoredRowByName(db: string, e: Event, c: Column)
    ensures Name(c) in StoredRow(db, e)
    ensures StoredRow(db, e)[Name(c)] == Value(db, e, c)
    ensures StoredRow(db, e)["DatabaseName"] == db
  {
    InsertColumnsAreHeader();
    HeaderNamesColumns();
    RowByColumn(db, e);
    BindByPosition(Row(db, e));
    assert InsertColumns()[Index(c)] == Name(c);
    assert InsertColumns()[Index(DatabaseName)] == "DatabaseName";
  }
}
