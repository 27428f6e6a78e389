/**
 * The analytical store as the loader sees it: named tables of rows, an
 * idempotent create-if-absent, and an insert batch that collects rows one
 * Append at a time and commits them all together on Send.
 */
module Store {
  import opened EventRecords
  import opened Schema

  /** A table: its declared columns and its committed rows, each row a map
      from column name to value. */
  datatype Table = Table(columns: seq<ColumnDef>, rows: seq<map<string, string>>)

  /** CREATE TABLE IF NOT EXISTS: adds an empty table `name` when there is
      none, and leaves every existing table as it is. */
  function EnsureTable(tables: map<string, Table>, name: string, columns: seq<ColumnDef>): (r: map<string, Table>)
    ensures r.Keys == tables.Keys + {name}
    ensures forall n :: n in tables ==> r[n] == tables[n]
    ensures name !in tables ==> r[name] == Table(columns, [])
  {
    if name in tables then tables else tables[name := Table(columns, [])]
  }

  /** Creating the table a second time changes nothing, whatever columns the
      second statement declares. */
  lemma EnsureTableIdempotent(tables: map<string, Table>, name: string, columns: seq<ColumnDef>, again: seq<ColumnDef>)
    ensures EnsureTable(EnsureTable(tables, name, columns), name, again) == EnsureTable(tables, name, columns)
  {
  }

  /** Appends `rows` to table `name`, all together. */
  function Commit(tables: map<string, Table>, name: string, rows: seq<map<string, string>>): (r: map<string, Table>)
    requires name in tables
    ensures r.Keys == tables.Keys
    ensures r[name] == Table(tables[name].columns, tables[name].rows + rows)
    ensures forall n :: n in tables && n != name ==> r[n] == tables[n]
  {
    tables[name := Table(tables[name].columns, tables[name].rows + rows)]
  }

  /** The store's tables. */
  class Store {
    var tables: map<string, Table>

    constructor (tables: map<string, Table>)
      ensures this.tables == tables
    {
      this.tables := tables;
    }

    /** Executes CREATE TABLE IF NOT EXISTS for `name`. */
    method CreateTableIfNotExists(name: string, columns: seq<ColumnDef>)
      modifies this
      ensures tables == EnsureTable(old(tables), name, columns)
    {
      if name !in tables {
        tables := tables[name := Table(columns, [])];
      }
    }
  }

  /** Whether the loop can append `record`: it has all the positions the
      Append reads, and the store accepts the values there (coercing the
      date and the ports is the store's business, given as `accepts`). */
  predicate Good(record: seq<string>, accepts: seq<string> -> bool)
  {
    |record| >= NumColumns && accepts(record[..NumColumns])
  }

  /** The index of the first record the loop cannot append, or |data| when
      it can append them all. */
  function FirstBad(data: seq<seq<string>>, accepts: seq<string> -> bool): (k: nat)
    ensures k <= |data|
    ensures forall j :: 0 <= j < k ==> Good(data[j], accepts)
    ensures k < |data| ==> !Good(data[k], accepts)
  {
    if data == [] || !Good(data[0], accepts) then 0
    else 1 + FirstBad(data[1..], accepts)
  }

  /** FirstBad is the one index before which every record is good and at
      which the first bad one stands. */
  lemma FirstBadIs(data: seq<seq<string>>, accepts: seq<string> -> bool, i: nat)
    requires i <= |data|
    requires forall j :: 0 <= j < i ==> Good(data[j], accepts)
    requires i < |data| ==> !Good(data[i], accepts)
    ensures FirstBad(data, accepts) == i
  {
  }

  /** The values the loop appends for records that all have the positions
      it reads: positions 0..21 of each, in order. */
  function Heads(data: seq<seq<string>>): (values: seq<seq<string>>)
    requires forall i :: 0 <= i < |data| ==> |data[i]| >= NumColumns
    ensures |values| == |data|
    ensures forall i :: 0 <= i < |data| ==> |values[i]| == NumColumns
  {
    seq(|data|, i requires 0 <= i < |data| => data[i][..NumColumns])
  }

  /** The stored rows of a batch's value rows. */
  function BindAll(values: seq<seq<string>>): (rows: seq<map<string, string>>)
    requires forall i :: 0 <= i < |values| ==> |values[i]| == NumColumns
    ensures |rows| == |values|
  {
    seq(|values|, i requires 0 <= i < |values| => Bind(values[i]))
  }

  /** Why the append loop stopped: a record too short to read all positions
      from (0-based index among the data records), or a record the store
      refused (the 1-based row number the source reports). */
  datatype AppendFailure = ShortRecord(index: nat) | Rejected(row: nat)

  /** The append loop's result: no failure, or the one that stopped it. */
  datatype Option<T> = None | Some(value: T)

  /** A prepared INSERT batch for `table`. */
  class Batch {
    const store: Store
    const table: string
    /** The value rows appended so far, not yet visible in the store. */
    var rows: seq<seq<string>>

    /** Every appended row holds one value per INSERT column. */
    ghost predicate Valid()
      reads this
    {
      forall i :: 0 <= i < |rows| ==> |rows[i]| == NumColumns
    }

    constructor (store: Store, table: string)
      ensures this.store == store && this.table == table && rows == [] && Valid()
    {
      this.store := store;
      this.table := table;
      rows := [];
    }

    /** Appends one row of positional values; the store decides whether it
        takes them. */
    method Append(values: seq<string>, accepts: seq<string> -> bool) returns (ok: bool)
      requires Valid() && |values| == NumColumns
      modifies this
      ensures Valid() && ok == accepts(values)
      ensures rows == if ok then old(rows) + [values] else old(rows)
    {
      ok := accepts(values);
      if ok {
        rows := rows + [values];
      }
    }

    /** Sends the batch: on success every appended row becomes visible at
        once, bound to the INSERT columns; on failure none does. */
    method Send(transportOk: bool) returns (ok: bool)
      requires Valid() && table in store.tables
      modifies store
      ensures ok == transportOk
      ensures store.tables == if ok then Commit(old(store.tables), table, BindAll(rows)) else old(store.tables)
    {
      ok := transportOk;
      if ok {
        store.tables := Commit(store.tables, table, BindAll(rows));
      }
    }
  }

  /** The append loop: appends positions 0..21 of each record in turn and
      stops at the first record that is too short or refused. */
  method AppendRecords(batch: Batch, data: seq<seq<string>>, accepts: seq<string> -> bool)
    returns (failure: Option<AppendFailure>)
    requires batch.Valid() && batch.rows == []
    modifies batch
    ensures batch.Valid()
    ensures FirstBad(data, accepts) == |data| ==> failure == None && batch.rows == Heads(data)
    ensures FirstBad(data, accepts) < |data| ==>
      var k := FirstBad(data, accepts);
      failure == Some(if |data[k]| < NumColumns then ShortRecord(k) else Rejected(k + 1))
      && batch.rows == Heads(data[..k])
  {
    for i := 0 to |data|
      invariant batch.Valid()
      invariant forall j :: 0 <= j < i ==> Good(data[j], accepts)
      invariant |batch.rows| == i
      invariant forall j :: 0 <= j < i ==> batch.rows[j] == data[j][..NumColumns]
    {
      var record := data[i];
      if |record| < NumColumns {
        FirstBadIs(data, accepts, i);
        assert batch.rows == Heads(data[..i]);
        return Some(ShortRecord(i));
      }
      var ok := batch.Append(record[..NumColumns], accepts);
      if !ok {
        FirstBadIs(data, accepts, i);
        assert batch.rows == Heads(data[..i]);
        return Some(Rejected(i + 1));
      }
    }
    FirstBadIs(data, accepts, |data|);
    failure := None;
  }
}
