/** The document ledger: rows of `DocumentTable`, keyed by (Owner, Issuer, DocumentType, Uid).
    Each operation is stated here as a function of the store's state; module Document
    carries them out on the chaincode stub. */
module DocumentSpec {
  import opened Text
  import opened Wrappers
  import opened Store

  const DocumentTable: Bytes := Lit("DocumentTable")

  /** Owner, Issuer, DocumentType, Uid, DataJSON, Status, Permissions, ExpiryDate,
      PreviousUid, CreatedAt; the key is the first four. */
  const DocumentSchema: seq<ColumnDefinition> := [
    ColumnDefinition(Lit("Owner"), StringKind, true),
    ColumnDefinition(Lit("Issuer"), StringKind, true),
    ColumnDefinition(Lit("DocumentType"), StringKind, true),
    ColumnDefinition(Lit("Uid"), StringKind, true),
    ColumnDefinition(Lit("DataJSON"), BytesKind, false),
    ColumnDefinition(Lit("Status"), StringKind, false),
    ColumnDefinition(Lit("Permissions"), BytesKind, false),
    ColumnDefinition(Lit("ExpiryDate"), StringKind, false),
    ColumnDefinition(Lit("PreviousUid"), StringKind, false),
    ColumnDefinition(Lit("CreatedAt"), StringKind, false)
  ]

  /** The only document type the lookups ask for. */
  const LG: Bytes := Lit("LG")
  const Cancelled: Bytes := Lit("cancelled")

  const CreateFailed: Bytes := Lit("Failed creating Document Table.")
  const ExpectingEight: Bytes := Lit("Incorrect number of arguments. Expecting 8.")
  const ExpectingThree: Bytes := Lit("Incorrect number of arguments. Expecting 3.")
  const AlreadyExists: Bytes := Lit("Document already exists.")
  const UpdateFailed: Bytes := Lit("Error updating.")

  /** The ledger's invariant on the store: every table is valid, and DocumentTable, once
      it exists, has the schema Init gives it. */
  predicate Valid(ts: Tables)
  {
    StoreValid(ts) && (DocumentTable in ts ==> ts[DocumentTable].columns == DocumentSchema)
  }

  /** The row IssueDocument inserts for arguments owner, issuer, documentType, uid,
      dataJSON, status, permissions, expiryDate: PreviousUid is always empty. */
  function IssuedRow(args: seq<Bytes>, createdAt: Bytes): Row
    requires |args| == 8
  {
    [StringColumn(args[0]), StringColumn(args[1]), StringColumn(args[2]), StringColumn(args[3]),
     BytesColumn(args[4]), StringColumn(args[5]), BytesColumn(args[6]), StringColumn(args[7]),
     StringColumn([]), StringColumn(createdAt)]
  }

  /** The key GetLgJSON and CancelLGDocument look up: the document type is always "LG". */
  function LookupKey(owner: Bytes, issuer: Bytes, uid: Bytes): Key
  {
    [StringColumn(owner), StringColumn(issuer), StringColumn(LG), StringColumn(uid)]
  }

  const OwnerOpen: Bytes := Lit("{ \"owner\": \"")
  const IssuerOpen: Bytes := Lit("\", \"issuer\": \"")
  const TypeOpen: Bytes := Lit("\", \"documentType\": \"")
  const UidOpen: Bytes := Lit("\", \"uid\": \"")
  const DataOpen: Bytes := Lit("\", \"data\": ")
  const StatusOpen: Bytes := Lit(", \"status\": \"")
  const PermissionsOpen: Bytes := Lit("\", \"permissions\": ")
  const ExpiryOpen: Bytes := Lit(", \"expiryDate\":\"")
  const PreviousUidOpen: Bytes := Lit("\", \"previousUid\":\"")
  const CreatedAtOpen: Bytes := Lit("\", \"createdAt\": \"")
  const Close: Bytes := Lit("\"  }")

  /** The JSON text GetLgJSON returns for a row. DataJSON and Permissions go in as they
      are, unquoted and unescaped; the string columns go between quotes, unescaped too. */
  function DocumentJSON(row: Row): Bytes
    requires |row| == 10
  {
    BeforeUid(row) + GetString(row[3]) + DataOpen + GetBytes(row[4]) + AfterData(row)
  }

  /** The part of a document's JSON that comes before its uid. */
  function BeforeUid(row: Row): Bytes
    requires |row| == 10
  {
    OwnerOpen + GetString(row[0]) + IssuerOpen + GetString(row[1]) + TypeOpen + GetString(row[2]) + UidOpen
  }

  /** The part of a document's JSON that follows the data payload. */
  function AfterData(row: Row): Bytes
    requires |row| == 10
  {
    StatusOpen + GetString(row[5]) + PermissionsOpen + GetBytes(row[6]) + ExpiryOpen + GetString(row[7])
    + PreviousUidOpen + GetString(row[8]) + CreatedAtOpen + GetString(row[9]) + Close
  }

  /** The row CancelLGDocument writes back: each column read and rewritten, Status "cancelled". */
  function CancelledRow(row: Row): Row
    requires |row| == 10
  {
    [StringColumn(GetString(row[0])), StringColumn(GetString(row[1])), StringColumn(GetString(row[2])),
     StringColumn(GetString(row[3])), BytesColumn(GetBytes(row[4])), StringColumn(Cancelled),
     BytesColumn(GetBytes(row[6])), StringColumn(GetString(row[7])), StringColumn(GetString(row[8])),
     StringColumn(GetString(row[9]))]
  }

  function Init(ts: Tables, faults: set<StoreCall>): Step
  {
    if Store.GetTable(ts, faults, DocumentTable) == None then Step(Ok(None), ts)
    else
      var e := Store.CreateTable(ts, faults, DocumentTable, DocumentSchema);
      if e.err != None then Step(Err(Message(CreateFailed)), e.tables)
      else Step(Ok(None), e.tables)
  }

  function IssueDocument(ts: Tables, faults: set<StoreCall>, args: seq<Bytes>, createdAt: Bytes): Step
  {
    if |args| != 8 then Step(Err(Message(ExpectingEight)), ts)
    else
      var w := Store.InsertRow(ts, faults, DocumentTable, IssuedRow(args, createdAt));
      if !w.ok && w.err == None then Step(Err(Message(AlreadyExists)), w.tables)
      else Step(PassOn(w.err), w.tables)
  }

  /** A stored row of a valid store has the document schema. */
  lemma StoredRowFits(ts: Tables, key: Key)
    requires Valid(ts) && DocumentTable in ts && key in ts[DocumentTable].rows
    ensures Fits(DocumentSchema, ts[DocumentTable].rows[key]) && |ts[DocumentTable].rows[key]| == 10
  {
  }

  function GetLgJSON(ts: Tables, faults: set<StoreCall>, args: seq<Bytes>): Reply
    requires Valid(ts)
  {
    if |args| != 3 then Err(Message(ExpectingThree))
    else
      var f := Store.GetRow(ts, faults, DocumentTable, LookupKey(args[0], args[1], args[2]));
      if f.err != None then Err(Retrieval(args[2], f.err.value))
      else if |f.row| == 0 then Ok(None)
      else Ok(Some(DocumentJSON(f.row)))
  }

  function CancelLGDocument(ts: Tables, faults: set<StoreCall>, args: seq<Bytes>): Step
    requires Valid(ts)
  {
    if |args| != 3 then Step(Err(Message(ExpectingThree)), ts)
    else
      var f := Store.GetRow(ts, faults, DocumentTable, LookupKey(args[0], args[1], args[2]));
      if f.err != None then Step(Err(Retrieval(args[2], f.err.value)), ts)
      else if |f.row| == 0 then Step(Ok(None), ts)
      else
        var w := Store.ReplaceRow(ts, faults, DocumentTable, CancelledRow(f.row));
        if !w.ok && w.err == None then Step(Err(Message(UpdateFailed)), w.tables)
        else Step(PassOn(w.err), w.tables)
  }

  // ---------------------------------------------------------------------------
  // The key and the rendering

  /** A document row is filed under its first four columns. */
  lemma DocumentKey(row: Row)
    requires |row| == 10
    ensures KeyOf(DocumentSchema, row) == [row[0], row[1], row[2], row[3]]
  {
    var s := DocumentSchema;
    assert KeyFrom(s, row, 9) == [];
    assert KeyFrom(s, row, 8) == [];
    assert KeyFrom(s, row, 7) == [];
    assert KeyFrom(s, row, 6) == [];
    assert KeyFrom(s, row, 5) == [];
    assert KeyFrom(s, row, 4) == [];
    assert KeyFrom(s, row, 3) == [row[3]];
    assert KeyFrom(s, row, 2) == [row[2], row[3]];
    assert KeyFrom(s, row, 1) == [row[1], row[2], row[3]];
  }

  /** Where the data payload starts in the JSON of a row. */
  function DataOffset(row: Row): nat
    requires |row| == 10
  {
    |BeforeUid(row)| + |GetString(row[3])| + |DataOpen|
  }

  /** The JSON of a row carries DataJSON byte for byte under "data", and a uid without
      quotes is read back from it exactly. */
  lemma DocumentJSONLayout(row: Row)
    requires |row| == 10
    ensures var json, uid, data := DocumentJSON(row), GetString(row[3]), GetBytes(row[4]);
      && json[..|BeforeUid(row)|] == BeforeUid(row)
      && DataOffset(row) + |data| <= |json|
      && json[DataOffset(row)..DataOffset(row) + |data|] == data
      && (NoQuote(uid) ==> TakeUntilQuote(json[|BeforeUid(row)|..]) == uid)
  {
    assert DataOpen[0] == Quote;
    QuotedThenPayload(BeforeUid(row), GetString(row[3]), DataOpen, GetBytes(row[4]), AfterData(row));
  }

  // ---------------------------------------------------------------------------
  // Init

  /** Init leaves an existing DocumentTable, and all its rows, as they are. */
  lemma InitKeepsExistingTable(ts: Tables, faults: set<StoreCall>)
    requires DocumentTable in ts && GetTableCall !in faults
    ensures Init(ts, faults) == Step(Ok(None), ts)
  {
  }

  /** Init creates a missing DocumentTable, empty and with the document schema. */
  lemma InitCreatesTable(ts: Tables, faults: set<StoreCall>)
    requires DocumentTable !in ts && CreateTableCall !in faults
    ensures Init(ts, faults) == Step(Ok(None), ts[DocumentTable := Table(DocumentSchema, map[])])
  {
  }

  /** Init fails exactly when the table cannot be seen and cannot be created, and then
      changes nothing. */
  lemma InitFailure(ts: Tables, faults: set<StoreCall>)
    ensures Init(ts, faults).reply.Err?
        <==> (GetTableCall in faults || DocumentTable !in ts) && (CreateTableCall in faults || DocumentTable in ts)
    ensures Init(ts, faults).reply.Err? ==> Init(ts, faults) == Step(Err(Message(CreateFailed)), ts)
  {
  }

  /** A second Init changes nothing, and when the table can be seen it succeeds. */
  lemma InitIdempotent(ts: Tables, faults: set<StoreCall>)
    ensures Init(Init(ts, faults).tables, faults).tables == Init(ts, faults).tables
    ensures Init(ts, faults).reply.Ok? && GetTableCall !in faults
        ==> Init(Init(ts, faults).tables, faults).reply == Ok(None)
  {
  }

  /** Init keeps the invariant and touches no table but DocumentTable. */
  lemma InitKeepsValid(ts: Tables, faults: set<StoreCall>)
    requires Valid(ts)
    ensures Valid(Init(ts, faults).tables)
    ensures Init(ts, faults).tables - {DocumentTable} == ts - {DocumentTable}
  {
    CreateTableKeepsValid(ts, faults, DocumentTable, DocumentSchema);
  }

  // ---------------------------------------------------------------------------
  // IssueDocument

  /** The key an issued document is filed under: (Owner, Issuer, DocumentType, Uid). */
  function IssuedKey(args: seq<Bytes>): Key
    requires |args| == 8
  {
    [StringColumn(args[0]), StringColumn(args[1]), StringColumn(args[2]), StringColumn(args[3])]
  }

  lemma IssueWrongArity(ts: Tables, faults: set<StoreCall>, args: seq<Bytes>, createdAt: Bytes)
    requires |args| != 8
    ensures IssueDocument(ts, faults, args, createdAt) == Step(Err(Message(ExpectingEight)), ts)
  {
  }

  /** A second document under a taken (Owner, Issuer, DocumentType, Uid) is refused and
      the stored row stays as it was. */
  lemma IssueDuplicate(ts: Tables, faults: set<StoreCall>, args: seq<Bytes>, createdAt: Bytes)
    requires Valid(ts) && DocumentTable in ts && InsertRowCall !in faults
    requires |args| == 8 && IssuedKey(args) in ts[DocumentTable].rows
    ensures IssueDocument(ts, faults, args, createdAt) == Step(Err(Message(AlreadyExists)), ts)
  {
    DocumentKey(IssuedRow(args, createdAt));
  }

  /** A document under a fresh key is stored with the columns in argument order, an
      empty PreviousUid and the creation time. */
  lemma IssueStoresRow(ts: Tables, faults: set<StoreCall>, args: seq<Bytes>, createdAt: Bytes)
    requires Valid(ts) && DocumentTable in ts && InsertRowCall !in faults
    requires |args| == 8 && IssuedKey(args) !in ts[DocumentTable].rows
    ensures var t := ts[DocumentTable];
      IssueDocument(ts, faults, args, createdAt)
      == Step(Ok(None), ts[DocumentTable := t.(rows := t.rows[IssuedKey(args) := IssuedRow(args, createdAt)])])
    ensures IssuedRow(args, createdAt)[8] == StringColumn([])
  {
    DocumentKey(IssuedRow(args, createdAt));
  }

  /** Issuing before Init reports the store's missing-table error and changes nothing. */
  lemma IssueWithoutTable(ts: Tables, faults: set<StoreCall>, args: seq<Bytes>, createdAt: Bytes)
    requires DocumentTable !in ts && InsertRowCall !in faults && |args| == 8
    ensures IssueDocument(ts, faults, args, createdAt) == Step(Err(StoreError(NoSuchTable(DocumentTable))), ts)
  {
  }

  /** IssueDocument keeps the invariant, touches no table but DocumentTable, and never
      changes a row already stored. */
  lemma IssueKeepsValid(ts: Tables, faults: set<StoreCall>, args: seq<Bytes>, createdAt: Bytes)
    requires Valid(ts)
    ensures var ts' := IssueDocument(ts, faults, args, createdAt).tables;
      && Valid(ts')
      && ts' - {DocumentTable} == ts - {DocumentTable}
      && (DocumentTable in ts ==> DocumentTable in ts' && forall k :: k in ts[DocumentTable].rows ==>
            k in ts'[DocumentTable].rows && ts'[DocumentTable].rows[k] == ts[DocumentTable].rows[k])
  {
    if |args| == 8 {
      var row := IssuedRow(args, createdAt);
      WriteRowKeepsValid(ts, faults, DocumentTable, row, false);
      DocumentKey(row);
    }
  }

  // ---------------------------------------------------------------------------
  // GetLgJSON

  lemma GetLgJSONWrongArity(ts: Tables, faults: set<StoreCall>, args: seq<Bytes>)
    requires Valid(ts) && |args| != 3
    ensures GetLgJSON(ts, faults, args) == Err(Message(ExpectingThree))
  {
  }

  /** A lookup that finds no row is not an error: it returns nil, nil. */
  lemma GetLgJSONMiss(ts: Tables, faults: set<StoreCall>, owner: Bytes, issuer: Bytes, uid: Bytes)
    requires Valid(ts) && GetRowCall !in faults
    requires DocumentTable !in ts || LookupKey(owner, issuer, uid) !in ts[DocumentTable].rows
    ensures GetLgJSON(ts, faults, [owner, issuer, uid]) == Ok(None)
  {
  }

  /** A lookup that finds a row renders that row, and the row is the "LG" document with
      the asked-for owner, issuer and uid. */
  lemma GetLgJSONHit(ts: Tables, faults: set<StoreCall>, owner: Bytes, issuer: Bytes, uid: Bytes)
    requires Valid(ts) && GetRowCall !in faults
    requires DocumentTable in ts && LookupKey(owner, issuer, uid) in ts[DocumentTable].rows
    ensures var row := ts[DocumentTable].rows[LookupKey(owner, issuer, uid)];
      && |row| == 10
      && row[0] == StringColumn(owner) && row[1] == StringColumn(issuer)
      && row[2] == StringColumn(LG) && row[3] == StringColumn(uid)
      && GetLgJSON(ts, faults, [owner, issuer, uid]) == Ok(Some(DocumentJSON(row)))
  {
    var row := ts[DocumentTable].rows[LookupKey(owner, issuer, uid)];
    StoredRowFits(ts, LookupKey(owner, issuer, uid));
    DocumentKey(row);
  }

  /** Round trip: an "LG" document, once issued, is what GetLgJSON returns for its owner,
      issuer and uid, with DataJSON embedded byte for byte under "data". */
  lemma IssueThenGetLgJSON(ts: Tables, faults: set<StoreCall>, args: seq<Bytes>, createdAt: Bytes)
    requires Valid(ts) && GetRowCall !in faults
    requires |args| == 8 && args[2] == LG
    requires IssueDocument(ts, faults, args, createdAt).reply == Ok(None)
    ensures var ts' := IssueDocument(ts, faults, args, createdAt).tables;
      var row := IssuedRow(args, createdAt);
      && Valid(ts')
      && GetLgJSON(ts', faults, [args[0], args[1], args[3]]) == Ok(Some(DocumentJSON(row)))
      && DocumentJSON(row)[DataOffset(row)..DataOffset(row) + |args[4]|] == args[4]
  {
    var row := IssuedRow(args, createdAt);
    IssueKeepsValid(ts, faults, args, createdAt);
    WriteRowKeepsValid(ts, faults, DocumentTable, row, false);
    DocumentKey(row);
    assert IssuedKey(args) == LookupKey(args[0], args[1], args[3]);
    DocumentJSONLayout(row);
  }

  /** A document issued with any type other than "LG" can never be fetched: GetLgJSON
      answers every query exactly as before the issue. */
  lemma IssueOtherTypeUnreachable(ts: Tables, faults: set<StoreCall>, args: seq<Bytes>, createdAt: Bytes,
                                  query: seq<Bytes>)
    requires Valid(ts) && |args| == 8 && args[2] != LG
    ensures Valid(IssueDocument(ts, faults, args, createdAt).tables)
    ensures GetLgJSON(IssueDocument(ts, faults, args, createdAt).tables, faults, query) == GetLgJSON(ts, faults, query)
  {
    var row := IssuedRow(args, createdAt);
    IssueKeepsValid(ts, faults, args, createdAt);
    WriteRowKeepsValid(ts, faults, DocumentTable, row, false);
    DocumentKey(row);
    if |query| == 3 {
      var key := LookupKey(query[0], query[1], query[2]);
      assert IssuedKey(args) != key by {
        assert IssuedKey(args)[2] != key[2];
      }
      var ts' := IssueDocument(ts, faults, args, createdAt).tables;
      assert Store.GetRow(ts', faults, DocumentTable, key) == Store.GetRow(ts, faults, DocumentTable, key);
    }
  }

  // ---------------------------------------------------------------------------
  // CancelLGDocument

  /** The rewritten row differs from the stored one in Status only. */
  lemma CancelledRowKeepsColumns(row: Row)
    requires Fits(DocumentSchema, row)
    ensures CancelledRow(row) == row[5 := StringColumn(Cancelled)]
    ensures Fits(DocumentSchema, CancelledRow(row))
    ensures KeyOf(DocumentSchema, CancelledRow(row)) == KeyOf(DocumentSchema, row)
  {
    forall k | 0 <= k < 10
      ensures CancelledRow(row)[k] == row[5 := StringColumn(Cancelled)][k]
    {
      assert KindOf(row[k]) == DocumentSchema[k].kind;
    }
    DocumentKey(row);
    DocumentKey(CancelledRow(row));
  }

  lemma CancelWrongArity(ts: Tables, faults: set<StoreCall>, args: seq<Bytes>)
    requires Valid(ts) && |args| != 3
    ensures CancelLGDocument(ts, faults, args) == Step(Err(Message(ExpectingThree)), ts)
  {
  }

  /** Cancelling a document that is not there is silent: nil, nil, and nothing changes. */
  lemma CancelMiss(ts: Tables, faults: set<StoreCall>, owner: Bytes, issuer: Bytes, uid: Bytes)
    requires Valid(ts) && GetRowCall !in faults
    requires DocumentTable !in ts || LookupKey(owner, issuer, uid) !in ts[DocumentTable].rows
    ensures CancelLGDocument(ts, faults, [owner, issuer, uid]) == Step(Ok(None), ts)
  {
  }

  /** Cancelling a stored "LG" document sets its Status to "cancelled" and keeps the
      other nine columns, every other row and every other table. */
  lemma CancelSetsStatus(ts: Tables, faults: set<StoreCall>, owner: Bytes, issuer: Bytes, uid: Bytes)
    requires Valid(ts) && GetRowCall !in faults && ReplaceRowCall !in faults
    requires DocumentTable in ts && LookupKey(owner, issuer, uid) in ts[DocumentTable].rows
    ensures var t, key := ts[DocumentTable], LookupKey(owner, issuer, uid);
      CancelLGDocument(ts, faults, [owner, issuer, uid])
      == Step(Ok(None), ts[DocumentTable := t.(rows := t.rows[key := t.rows[key][5 := StringColumn(Cancelled)]])])
  {
    var key := LookupKey(owner, issuer, uid);
    var row := ts[DocumentTable].rows[key];
    StoredRowFits(ts, key);
    CancelledRowKeepsColumns(row);
  }

  /** CancelLGDocument keeps the invariant and touches no table but DocumentTable. */
  lemma CancelKeepsValid(ts: Tables, faults: set<StoreCall>, args: seq<Bytes>)
    requires Valid(ts)
    ensures Valid(CancelLGDocument(ts, faults, args).tables)
    ensures CancelLGDocument(ts, faults, args).tables - {DocumentTable} == ts - {DocumentTable}
  {
    if |args| == 3 {
      var key := LookupKey(args[0], args[1], args[2]);
      var f := Store.GetRow(ts, faults, DocumentTable, key);
      if f.err == None && |f.row| != 0 {
        StoredRowFits(ts, key);
        CancelledRowKeepsColumns(f.row);
        WriteRowKeepsValid(ts, faults, DocumentTable, CancelledRow(f.row), true);
      }
    }
  }

  /** The "Error updating." reply cannot happen: the row just read is still there to replace. */
  lemma CancelNeverFailsUpdate(ts: Tables, faults: set<StoreCall>, args: seq<Bytes>)
    requires Valid(ts)
    ensures CancelLGDocument(ts, faults, args).reply != Err(Message(UpdateFailed))
  {
    if |args| == 3 {
      var key := LookupKey(args[0], args[1], args[2]);
      var f := Store.GetRow(ts, faults, DocumentTable, key);
      if f.err == None && |f.row| != 0 {
        StoredRowFits(ts, key);
        CancelledRowKeepsColumns(f.row);
        DocumentKey(f.row);
      }
    }
  }

  /** Cancelling twice leaves the same tables as cancelling once: a cancelled document
      stays cancelled. */
  lemma CancelIdempotent(ts: Tables, faults: set<StoreCall>, args: seq<Bytes>)
    requires Valid(ts)
    ensures Valid(CancelLGDocument(ts, faults, args).tables)
    ensures var once := CancelLGDocument(ts, faults, args);
      CancelLGDocument(once.tables, faults, args) == Step(once.reply, once.tables)
  {
    CancelKeepsValid(ts, faults, args);
    if |args| == 3 && GetRowCall !in faults && ReplaceRowCall !in faults {
      var key := LookupKey(args[0], args[1], args[2]);
      if DocumentTable in ts && key in ts[DocumentTable].rows {
        CancelSetsStatus(ts, faults, args[0], args[1], args[2]);
        var once := CancelLGDocument(ts, faults, args).tables;
        var row := once[DocumentTable].rows[key];
        assert row == ts[DocumentTable].rows[key][5 := StringColumn(Cancelled)];
        CancelSetsStatus(once, faults, args[0], args[1], args[2]);
        assert row[5 := StringColumn(Cancelled)] == row;
        assert once[DocumentTable].rows[key := row] == once[DocumentTable].rows;
      }
    }
  }
}

/** The document ledger's operations on the chaincode stub, each proved to do what its
    function in DocumentSpec says. */
module Document {
  import opened Text
  import opened Wrappers
  import opened Store
  import opened Shim
  import DocumentSpec

  /** Provisions DocumentTable unless it exists already. The function name and the
      arguments are unused, as in the chaincode. */
  method Init(stub: ChaincodeStub, fn: Bytes, args: seq<Bytes>) returns (r: Reply)
    modifies stub
    ensures Step(r, stub.tables) == DocumentSpec.Init(old(stub.tables), stub.faults)
  {
    var err := stub.GetTable(DocumentSpec.DocumentTable);
    if err == None {
      return Ok(None);
    }
    err := stub.CreateTable(DocumentSpec.DocumentTable, DocumentSpec.DocumentSchema);
    if err != None {
      return Err(Message(DocumentSpec.CreateFailed));
    }
    return Ok(None);
  }

  /** Inserts a document from owner, issuer, documentType, uid, dataJSON, status,
      permissions, expiryDate; `createdAt` is the creation time, already formatted. */
  method IssueDocument(stub: ChaincodeStub, args: seq<Bytes>, createdAt: Bytes) returns (r: Reply)
    modifies stub
    ensures Step(r, stub.tables) == DocumentSpec.IssueDocument(old(stub.tables), stub.faults, args, createdAt)
  {
    if |args| != 8 {
      return Err(Message(DocumentSpec.ExpectingEight));
    }
    var owner := args[0];
    var issuer := args[1];
    var documentType := args[2];
    var uid := args[3];
    var dataJSON := args[4];
    var status := args[5];
    var permissions := args[6];
    var expiryDate := args[7];
    var previousUid: Bytes := [];
    var ok, err := stub.InsertRow(DocumentSpec.DocumentTable,
      [StringColumn(owner), StringColumn(issuer), StringColumn(documentType), StringColumn(uid),
       BytesColumn(dataJSON), StringColumn(status), BytesColumn(permissions), StringColumn(expiryDate),
       StringColumn(previousUid), StringColumn(createdAt)]);
    if !ok && err == None {
      return Err(Message(DocumentSpec.AlreadyExists));
    }
    return PassOn(err);
  }

  /** The JSON of the "LG" document with the given owner, issuer and uid. */
  method GetLgJSON(stub: ChaincodeStub, args: seq<Bytes>) returns (r: Reply)
    requires DocumentSpec.Valid(stub.tables)
    ensures r == DocumentSpec.GetLgJSON(stub.tables, stub.faults, args)
  {
    if |args| != 3 {
      return Err(Message(DocumentSpec.ExpectingThree));
    }
    var owner := args[0];
    var issuer := args[1];
    var documentType := DocumentSpec.LG;
    var uid := args[2];
    var columns: seq<Column> := [];
    columns := columns + [StringColumn(owner)];
    columns := columns + [StringColumn(issuer)];
    columns := columns + [StringColumn(documentType)];
    columns := columns + [StringColumn(uid)];
    assert columns == DocumentSpec.LookupKey(owner, issuer, uid);
    var row, err := stub.GetRow(DocumentSpec.DocumentTable, columns);
    if err != None {
      return Err(Retrieval(uid, err.value));
    }
    if |row| == 0 {
      return Ok(None);
    }
    return Ok(Some(DocumentSpec.DocumentJSON(row)));
  }

  /** Rewrites the "LG" document with the given owner, issuer and uid as cancelled. */
  method CancelLGDocument(stub: ChaincodeStub, args: seq<Bytes>) returns (r: Reply)
    requires DocumentSpec.Valid(stub.tables)
    modifies stub
    ensures Step(r, stub.tables) == DocumentSpec.CancelLGDocument(old(stub.tables), stub.faults, args)
    ensures DocumentSpec.Valid(stub.tables)
  {
    DocumentSpec.CancelKeepsValid(stub.tables, stub.faults, args);
    if |args| != 3 {
      return Err(Message(DocumentSpec.ExpectingThree));
    }
    var owner := args[0];
    var issuer := args[1];
    var documentType := DocumentSpec.LG;
    var uid := args[2];
    var columns: seq<Column> := [];
    columns := columns + [StringColumn(owner)];
    columns := columns + [StringColumn(issuer)];
    columns := columns + [StringColumn(documentType)];
    columns := columns + [StringColumn(uid)];
    assert columns == DocumentSpec.LookupKey(owner, issuer, uid);
    var row, err := stub.GetRow(DocumentSpec.DocumentTable, columns);
    if err != None {
      return Err(Retrieval(uid, err.value));
    }
    if |row| == 0 {
      return Ok(None);
    }
    DocumentSpec.StoredRowFits(stub.tables, columns);
    var updated := [StringColumn(GetString(row[0])), StringColumn(GetString(row[1])), StringColumn(GetString(row[2])),
                    StringColumn(GetString(row[3])), BytesColumn(GetBytes(row[4])), StringColumn(DocumentSpec.Cancelled),
                    BytesColumn(GetBytes(row[6])), StringColumn(GetString(row[7])), StringColumn(GetString(row[8])),
                    StringColumn(GetString(row[9]))];
    assert updated == DocumentSpec.CancelledRow(row);
    var ok;
    ok, err := stub.ReplaceRow(DocumentSpec.DocumentTable, updated);
    if !ok && err == None {
      return Err(Message(DocumentSpec.UpdateFailed));
    }
    return PassOn(err);
  }
}
