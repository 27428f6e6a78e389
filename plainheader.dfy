/**
 * The header row needs no quoting: none of the column names holds the
 * delimiter, a quote mark, CR or LF, or starts with white space.
 */
module PlainHeader {
  import opened EventRecords
  import opened Delimited

  /** The level, date, event and comment names need no quoting. */
  lemma EventNamesPlain()
    ensures Plain("Level") && Plain("Date") && Plain("Event") && Plain("EventPresentation") && Plain("Comment")
  {
  }

  /** The application names need no quoting. */
  lemma ApplicationNamesPlain()
    ensures Plain("ApplicationName") && Plain("ApplicationPresentation")
  {
  }

  /** The user, computer, connection and session names need no quoting. */
  lemma UserNamesPlain()
    ensures Plain("User") && Plain("UserName") && Plain("Computer") && Plain("Connection") && Plain("Session")
  {
  }

  /** The metadata and data names need no quoting. */
  lemma MetadataNamesPlain()
    ensures Plain("Metadata") && Plain("MetadataPresentation") && Plain("Data") && Plain("DataPresentation")
  {
  }

  /** The transaction names need no quoting. */
  lemma TransactionNamesPlain()
    ensures Plain("TransactionStatus") && Plain("TransactionID")
  {
  }

  /** The database, server and port names need no quoting. */
  lemma ServerNamesPlain()
    ensures Plain("DatabaseName") && Plain("ServerName") && Plain("Port") && Plain("SyncPort")
  {
  }

  /** No column name needs quoting. */
  lemma NamePlain(c: Column)
    ensures Plain(Name(c))
  {
    EventNamesPlain();
    ApplicationNamesPlain();
    UserNamesPlain();
    MetadataNamesPlain();
    TransactionNamesPlain();
    ServerNamesPlain();
  }

  /** The header is written as it is: none of its names needs quoting. */
  lemma HeaderPlain()
    ensures PlainRecord(Header())
  {
    HeaderNamesColumns();
    ColumnsEnumerate();
    forall k | 0 <= k < |Header()|
      ensures Plain(Header()[k])
    {
      var c := Columns()[k];
      NamePlain(c);
      assert Header()[Index(c)] == Name(c);
    }
  }

  /** The header line is at most 22 names of at most 23 characters each,
      with their separators and the line end. */
  lemma HeaderLineLength()
    ensures |Line(Header())| <= 529
  {
    HeaderPlain();
    HeaderNamesShort();
    HeaderNamesColumns();
    LineLength(Header(), 23);
  }

  /** No column name is longer than 23 characters. */
  lemma HeaderNamesShort()
    ensures forall k :: 0 <= k < |Header()| ==> |Header()[k]| <= 23
  {
  }
}
