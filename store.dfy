/** The keyed table store that the ledgers run on: the table calls of the platform's
    chaincode stub (GetTable, CreateTable, InsertRow, ReplaceRow, GetRow), stated as
    functions of the store's state. The platform's own code is not part of this model;
    these functions are the contract the ledgers rely on.

    A store call can also fail for reasons of its own (the state database refuses it, a
    row does not marshal). Which kinds of call fail is the environment's choice, given as
    the set `faults`; such a failure is opaque to the ledgers, which pass it back. */
module Store {
  import opened Text
  import opened Wrappers

  datatype ColumnKind = StringKind | BytesKind

  datatype ColumnDefinition = ColumnDefinition(name: Bytes, kind: ColumnKind, key: bool)

  /** A column value: the `String_` or the `Bytes` case of the platform's column. */
  datatype Column = StringColumn(str: Bytes) | BytesColumn(bytes: Bytes)

  type Row = seq<Column>

  /** The key columns of a row, in the order of the table's column definitions. */
  type Key = seq<Column>

  datatype Table = Table(columns: seq<ColumnDefinition>, rows: map<Key, Row>)

  /** Every table of the store, by name. */
  type Tables = map<Bytes, Table>

  datatype StoreCall = GetTableCall | CreateTableCall | InsertRowCall | ReplaceRowCall | GetRowCall

  /** An error the store reports. The ledgers never look inside one. */
  datatype StoreFailure =
    | Unavailable(call: StoreCall)
    | NoSuchTable(table: Bytes)
    | TableExists(table: Bytes)
    | RowMismatch(table: Bytes)

  /** The errors a ledger operation returns: one made with `errors.New`, a store error
      passed back as it is, or the wrapping of a failed lookup that names the uid. */
  datatype Error =
    | Message(text: Bytes)
    | StoreError(failure: StoreFailure)
    | Retrieval(uid: Bytes, cause: StoreFailure)

  /** The `([]byte, error)` pair every chaincode operation returns; `Ok(None)` is `nil, nil`. */
  datatype Reply = Ok(payload: Option<Bytes>) | Err(error: Error)

  /** What an operation that may change the store does: its reply and the new tables. */
  datatype Step = Step(reply: Reply, tables: Tables)

  /** `return nil, err`, with `err` possibly nil. */
  function PassOn(err: Option<StoreFailure>): (r: Reply)
    ensures r.Ok? <==> err == None
    ensures r.Ok? ==> r.payload == None
    ensures r.Err? ==> r.error == StoreError(err.value)
  {
    if err == None then Ok(None) else Err(StoreError(err.value))
  }

  /** `GetString_()`: the string of a string column, and "" for any other. */
  function GetString(c: Column): Bytes
  {
    if c.StringColumn? then c.str else []
  }

  /** `GetBytes()`: the bytes of a bytes column, and nil for any other. */
  function GetBytes(c: Column): Bytes
  {
    if c.BytesColumn? then c.bytes else []
  }

  function KindOf(c: Column): ColumnKind
  {
    if c.StringColumn? then StringKind else BytesKind
  }

  /** A row has the table's arity and each column the declared kind. */
  predicate Fits(defs: seq<ColumnDefinition>, row: Row)
  {
    |row| == |defs| && forall i :: 0 <= i < |row| ==> KindOf(row[i]) == defs[i].kind
  }

  /** The key columns of `row` from position `from` on. */
  function KeyFrom(defs: seq<ColumnDefinition>, row: Row, from: nat): Key
    requires |row| == |defs| && from <= |defs|
    decreases |defs| - from
  {
    if from == |defs| then []
    else (if defs[from].key then [row[from]] else []) + KeyFrom(defs, row, from + 1)
  }

  function KeyOf(defs: seq<ColumnDefinition>, row: Row): Key
    requires |row| == |defs|
  {
    KeyFrom(defs, row, 0)
  }

  /** Every stored row fits the schema and is filed under its own key. */
  predicate TableValid(t: Table)
  {
    forall k :: k in t.rows ==> Fits(t.columns, t.rows[k]) && KeyOf(t.columns, t.rows[k]) == k
  }

  predicate StoreValid(ts: Tables)
  {
    forall name :: name in ts ==> TableValid(ts[name])
  }

  /** `GetTable`: an error when the table is absent or the call fails. */
  function GetTable(ts: Tables, faults: set<StoreCall>, name: Bytes): Option<StoreFailure>
  {
    if GetTableCall in faults then Some(Unavailable(GetTableCall))
    else if name !in ts then Some(NoSuchTable(name))
    else None
  }

  /** The error of a call that changes the store, and the tables afterwards. */
  datatype Effect = Effect(err: Option<StoreFailure>, tables: Tables)

  /** `CreateTable`: a new empty table, refused when one of that name exists. */
  function CreateTable(ts: Tables, faults: set<StoreCall>, name: Bytes, defs: seq<ColumnDefinition>): Effect
  {
    if CreateTableCall in faults then Effect(Some(Unavailable(CreateTableCall)), ts)
    else if name in ts then Effect(Some(TableExists(name)), ts)
    else Effect(None, ts[name := Table(defs, map[])])
  }

  /** The `(bool, error)` of a row write, and the tables afterwards. */
  datatype Write = Write(ok: bool, err: Option<StoreFailure>, tables: Tables)

  /** The write behind both InsertRow (`update` false) and ReplaceRow (`update` true):
      it reports `false, nil` when the key is already taken (insert) or absent (replace). */
  function WriteRow(ts: Tables, faults: set<StoreCall>, name: Bytes, row: Row, update: bool): Write
  {
    var call := if update then ReplaceRowCall else InsertRowCall;
    if call in faults then Write(false, Some(Unavailable(call)), ts)
    else if name !in ts then Write(false, Some(NoSuchTable(name)), ts)
    else if !Fits(ts[name].columns, row) then Write(false, Some(RowMismatch(name)), ts)
    else
      var t := ts[name];
      var key := KeyOf(t.columns, row);
      if (key in t.rows) != update then Write(false, None, ts)
      else Write(true, None, ts[name := t.(rows := t.rows[key := row])])
  }

  function InsertRow(ts: Tables, faults: set<StoreCall>, name: Bytes, row: Row): Write
  {
    WriteRow(ts, faults, name, row, false)
  }

  function ReplaceRow(ts: Tables, faults: set<StoreCall>, name: Bytes, row: Row): Write
  {
    WriteRow(ts, faults, name, row, true)
  }

  /** The row and error `GetRow` returns. */
  datatype Fetch = Fetch(row: Row, err: Option<StoreFailure>)

  /** `GetRow`: the row filed under `key`, or the empty row when there is none. */
  function GetRow(ts: Tables, faults: set<StoreCall>, name: Bytes, key: Key): Fetch
  {
    if GetRowCall in faults then Fetch([], Some(Unavailable(GetRowCall)))
    else if name in ts && key in ts[name].rows then Fetch(ts[name].rows[key], None)
    else Fetch([], None)
  }

  /** Every write keeps every table valid, and a write that reports success files the
      row under its own key and leaves every other row and table alone. */
  lemma WriteRowKeepsValid(ts: Tables, faults: set<StoreCall>, name: Bytes, row: Row, update: bool)
    requires StoreValid(ts)
    ensures var w := WriteRow(ts, faults, name, row, update);
      && StoreValid(w.tables)
      && (!w.ok ==> w.tables == ts)
      && (w.ok ==>
            && name in ts && Fits(ts[name].columns, row)
            && w.tables == ts[name := ts[name].(rows := ts[name].rows[KeyOf(ts[name].columns, row) := row])])
  {
    var w := WriteRow(ts, faults, name, row, update);
    if w.ok {
      var t := ts[name];
      var key := KeyOf(t.columns, row);
      var t' := t.(rows := t.rows[key := row]);
      assert TableValid(t') by {
        forall k | k in t'.rows
          ensures Fits(t'.columns, t'.rows[k]) && KeyOf(t'.columns, t'.rows[k]) == k
        {
          if k != key {
            assert k in t.rows;
          }
        }
      }
    }
  }

  /** Creating a table keeps every table valid and never touches an existing one. */
  lemma CreateTableKeepsValid(ts: Tables, faults: set<StoreCall>, name: Bytes, defs: seq<ColumnDefinition>)
    requires StoreValid(ts)
    ensures var e := CreateTable(ts, faults, name, defs);
      && StoreValid(e.tables)
      && (e.err != None <==> (CreateTableCall in faults || name in ts))
      && (e.err != None ==> e.tables == ts)
      && (e.err == None ==> e.tables == ts[name := Table(defs, map[])])
  {
  }

  /** A row just written is what a lookup by its key returns. */
  lemma GetRowAfterWrite(ts: Tables, faults: set<StoreCall>, name: Bytes, row: Row, update: bool)
    requires GetRowCall !in faults
    requires WriteRow(ts, faults, name, row, update).ok
    ensures name in ts && Fits(ts[name].columns, row)
    ensures GetRow(WriteRow(ts, faults, name, row, update).tables, faults, name, KeyOf(ts[name].columns, row))
         == Fetch(row, None)
  {
  }
}

/** The chaincode stub the platform hands to every operation: the store's tables, which
    the table calls read and change in place. */
module Shim {
  import opened Text
  import opened Wrappers
  import opened Store

  class ChaincodeStub {
    var tables: Tables
    /** The kinds of store call that fail in this environment. */
    const faults: set<StoreCall>

    constructor (tables: Tables, faults: set<StoreCall>)
      ensures this.tables == tables && this.faults == faults
    {
      this.tables := tables;
      this.faults := faults;
    }

    method GetTable(name: Bytes) returns (err: Option<StoreFailure>)
      ensures err == Store.GetTable(tables, faults, name)
      ensures err == None <==> GetTableCall !in faults && name in tables
    {
      err := Store.GetTable(tables, faults, name);
    }

    method CreateTable(name: Bytes, defs: seq<ColumnDefinition>) returns (err: Option<StoreFailure>)
      modifies this
      ensures Effect(err, tables) == Store.CreateTable(old(tables), faults, name, defs)
    {
      var e := Store.CreateTable(tables, faults, name, defs);
      err, tables := e.err, e.tables;
    }

    method InsertRow(name: Bytes, row: Row) returns (ok: bool, err: Option<StoreFailure>)
      modifies this
      ensures Write(ok, err, tables) == Store.InsertRow(old(tables), faults, name, row)
    {
      var w := Store.InsertRow(tables, faults, name, row);
      ok, err, tables := w.ok, w.err, w.tables;
    }

    method ReplaceRow(name: Bytes, row: Row) returns (ok: bool, err: Option<StoreFailure>)
      modifies this
      ensures Write(ok, err, tables) == Store.ReplaceRow(old(tables), faults, name, row)
    {
      var w := Store.ReplaceRow(tables, faults, name, row);
      ok, err, tables := w.ok, w.err, w.tables;
    }

    method GetRow(name: Bytes, key: Key) returns (row: Row, err: Option<StoreFailure>)
      ensures Fetch(row, err) == Store.GetRow(tables, faults, name, key)
      ensures err != None ==> row == []
    {
      var f := Store.GetRow(tables, faults, name, key);
      row, err := f.row, f.err;
    }
  }
}
