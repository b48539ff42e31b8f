/** The request ledger: rows of `RequestTable`, keyed by (UID, RequestType, Requester).
    Each operation is stated here as a function of the store's state; module Request
    carries them out on the chaincode stub. */
module RequestSpec {
  import opened Text
  import opened Wrappers
  import opened Store

  const RequestTable: Bytes := Lit("RequestTable")

  /** UID, DocJSON, Status, RequestType, Requester, Permissions, CreatedAt; the key is
      UID, RequestType and Requester. */
  const RequestSchema: seq<ColumnDefinition> := [
    ColumnDefinition(Lit("UID"), StringKind, true),
    ColumnDefinition(Lit("DocJSON"), BytesKind, false),
    ColumnDefinition(Lit("Status"), StringKind, false),
    ColumnDefinition(Lit("RequestType"), StringKind, true),
    ColumnDefinition(Lit("Requester"), StringKind, true),
    ColumnDefinition(Lit("Permissions"), BytesKind, false),
    ColumnDefinition(Lit("CreatedAt"), StringKind, false)
  ]

  /** The only request type the lookups ask for. */
  const New: Bytes := Lit("new")
  const Approved: Bytes := Lit("approved")

  const CreateFailed: Bytes := Lit("Failed creating Request Table.")
  const ExpectingSix: Bytes := Lit("Incorrect number of arguments. Expecting 6.")
  /** The arity error of GetJSON and ApproveRequest, which nevertheless take two arguments. */
  const ExpectingOne: Bytes := Lit("Incorrect number of arguments. Expecting 1.")
  const AlreadyExists: Bytes := Lit("Document already exists.")
  const UpdateFailed: Bytes := Lit("Error updatig.")

  /** The ledger's invariant on the store: every table is valid, and RequestTable, once
      it exists, has the schema Init gives it. */
  predicate Valid(ts: Tables)
  {
    StoreValid(ts) && (RequestTable in ts ==> ts[RequestTable].columns == RequestSchema)
  }

  /** The row SubmitNewRequest inserts for arguments UID, docJSON, status, requestType,
      requester, permissions. */
  function SubmittedRow(args: seq<Bytes>, createdAt: Bytes): Row
    requires |args| == 6
  {
    [StringColumn(args[0]), BytesColumn(args[1]), StringColumn(args[2]), StringColumn(args[3]),
     StringColumn(args[4]), BytesColumn(args[5]), StringColumn(createdAt)]
  }

  /** The key GetJSON and ApproveRequest look up: the request type is always "new". */
  function LookupKey(uid: Bytes, requester: Bytes): Key
  {
    [StringColumn(uid), StringColumn(New), StringColumn(requester)]
  }

  const UidOpen: Bytes := Lit("{ \"uid\": \"")
  const DataOpen: Bytes := Lit("\", \"data\": ")
  const StatusOpen: Bytes := Lit(", \"status\": \"")
  const TypeOpen: Bytes := Lit("\", \"type\": \"")
  const RequesterOpen: Bytes := Lit("\", \"requester\": \"")
  const PermissionsOpen: Bytes := Lit("\", \"permissions\": ")
  const CreatedAtOpen: Bytes := Lit(", \"createdAt\": \"")
  const Close: Bytes := Lit("\"  }")

  /** The JSON text GetJSON returns for a row. DocJSON and Permissions go in as they are,
      unquoted and unescaped; the string columns go between quotes, unescaped too. */
  function RequestJSON(row: Row): Bytes
    requires |row| == 7
  {
    UidOpen + GetString(row[0]) + DataOpen + GetBytes(row[1]) + AfterData(row)
  }

  /** The part of a request's JSON that follows the data payload. */
  function AfterData(row: Row): Bytes
    requires |row| == 7
  {
    StatusOpen + GetString(row[2]) + TypeOpen + GetString(row[3]) + RequesterOpen + GetString(row[4])
    + PermissionsOpen + GetBytes(row[5]) + CreatedAtOpen + GetString(row[6]) + Close
  }

  /** The row ApproveRequest writes back: each column read and rewritten, Status "approved". */
  function ApprovedRow(row: Row): Row
    requires |row| == 7
  {
    [StringColumn(GetString(row[0])), BytesColumn(GetBytes(row[1])), StringColumn(Approved),
     StringColumn(GetString(row[3])), StringColumn(GetString(row[4])), BytesColumn(GetBytes(row[5])),
     StringColumn(GetString(row[6]))]
  }

  function Init(ts: Tables, faults: set<StoreCall>): Step
  {
    if Store.GetTable(ts, faults, RequestTable) == None then Step(Ok(None), ts)
    else
      var e := Store.CreateTable(ts, faults, RequestTable, RequestSchema);
      if e.err != None then Step(Err(Message(CreateFailed)), e.tables)
      else Step(Ok(None), e.tables)
  }

  function SubmitNewRequest(ts: Tables, faults: set<StoreCall>, args: seq<Bytes>, createdAt: Bytes): Step
  {
    if |args| != 6 then Step(Err(Message(ExpectingSix)), ts)
    else
      var w := Store.InsertRow(ts, faults, RequestTable, SubmittedRow(args, createdAt));
      if !w.ok && w.err == None then Step(Err(Message(AlreadyExists)), w.tables)
      else Step(PassOn(w.err), w.tables)
  }

  /** A stored row of a valid store has the request schema. */
  lemma StoredRowFits(ts: Tables, key: Key)
    requires Valid(ts) && RequestTable in ts && key in ts[RequestTable].rows
    ensures Fits(RequestSchema, ts[RequestTable].rows[key]) && |ts[RequestTable].rows[key]| == 7
  {
  }

  function GetJSON(ts: Tables, faults: set<StoreCall>, args: seq<Bytes>): Reply
    requires Valid(ts)
  {
    if |args| != 2 then Err(Message(ExpectingOne))
    else
      var f := Store.GetRow(ts, faults, RequestTable, LookupKey(args[0], args[1]));
      if f.err != None then Err(Retrieval(args[0], f.err.value))
      else if |f.row| == 0 then Ok(None)
      else Ok(Some(RequestJSON(f.row)))
  }

  function ApproveRequest(ts: Tables, faults: set<StoreCall>, args: seq<Bytes>): Step
    requires Valid(ts)
  {
    if |args| != 2 then Step(Err(Message(ExpectingOne)), ts)
    else
      var f := Store.GetRow(ts, faults, RequestTable, LookupKey(args[0], args[1]));
      if f.err != None then Step(Err(Retrieval(args[0], f.err.value)), ts)
      else if |f.row| == 0 then Step(Ok(None), ts)
      else
        var w := Store.ReplaceRow(ts, faults, RequestTable, ApprovedRow(f.row));
        if !w.ok && w.err == None then Step(Err(Message(UpdateFailed)), w.tables)
        else Step(PassOn(w.err), w.tables)
  }

  // ---------------------------------------------------------------------------
  // The key and the rendering

  /** A request row is filed under (UID, RequestType, Requester): columns 0, 3 and 4. */
  lemma RequestKey(row: Row)
    requires |row| == 7
    ensures KeyOf(RequestSchema, row) == [row[0], row[3], row[4]]
  {
    var s := RequestSchema;
    assert KeyFrom(s, row, 6) == [];
    assert KeyFrom(s, row, 5) == [];
    assert KeyFrom(s, row, 4) == [row[4]];
    assert KeyFrom(s, row, 3) == [row[3], row[4]];
    assert KeyFrom(s, row, 2) == [row[3], row[4]];
    assert KeyFrom(s, row, 1) == [row[3], row[4]];
  }

  /** Where the data payload starts in the JSON of a row. */
  function DataOffset(row: Row): nat
    requires |row| == 7
  {
    |UidOpen| + |GetString(row[0])| + |DataOpen|
  }

  /** The JSON of a row opens with the uid, carries DocJSON byte for byte under "data",
      and a uid without quotes is read back from it exactly. */
  lemma RequestJSONLayout(row: Row)
    requires |row| == 7
    ensures var json, uid, data := RequestJSON(row), GetString(row[0]), GetBytes(row[1]);
      && json[..|UidOpen|] == UidOpen
      && DataOffset(row) + |data| <= |json|
      && json[DataOffset(row)..DataOffset(row) + |data|] == data
      && (NoQuote(uid) ==> TakeUntilQuote(json[|UidOpen|..]) == uid)
  {
    assert DataOpen[0] == Quote;
    QuotedThenPayload(UidOpen, GetString(row[0]), DataOpen, GetBytes(row[1]), AfterData(row));
  }

  // ---------------------------------------------------------------------------
  // Init

  /** Init leaves an existing RequestTable, and all its rows, as they are. */
  lemma InitKeepsExistingTable(ts: Tables, faults: set<StoreCall>)
    requires RequestTable in ts && GetTableCall !in faults
    ensures Init(ts, faults) == Step(Ok(None), ts)
  {
  }

  /** Init creates a missing RequestTable, empty and with the request schema. */
  lemma InitCreatesTable(ts: Tables, faults: set<StoreCall>)
    requires RequestTable !in ts && CreateTableCall !in faults
    ensures Init(ts, faults) == Step(Ok(None), ts[RequestTable := Table(RequestSchema, map[])])
  {
  }

  /** Init fails exactly when the table cannot be seen and cannot be created, and then
      changes nothing. */
  lemma InitFailure(ts: Tables, faults: set<StoreCall>)
    ensures Init(ts, faults).reply.Err?
        <==> (GetTableCall in faults || RequestTable !in ts) && (CreateTableCall in faults || RequestTable in ts)
    ensures Init(ts, faults).reply.Err? ==> Init(ts, faults) == Step(Err(Message(CreateFailed)), ts)
  {
  }

  /** A second Init changes nothing, and when the table can be seen it succeeds. */
  lemma InitIdempotent(ts: Tables, faults: set<StoreCall>)
    ensures Init(Init(ts, faults).tables, faults).tables == Init(ts, faults).tables
    ensures Init(ts, faults).reply.Ok? && GetTableCall !in faults
        ==> Init(Init(ts, faults).tables, faults).reply == Ok(None)
  {
  }

  /** Init keeps the invariant and touches no table but RequestTable. */
  lemma InitKeepsValid(ts: Tables, faults: set<StoreCall>)
    requires Valid(ts)
    ensures Valid(Init(ts, faults).tables)
    ensures Init(ts, faults).tables - {RequestTable} == ts - {RequestTable}
  {
    CreateTableKeepsValid(ts, faults, RequestTable, RequestSchema);
  }

  // ---------------------------------------------------------------------------
  // SubmitNewRequest

  /** The key a submitted request is filed under: (UID, RequestType, Requester). */
  function SubmittedKey(args: seq<Bytes>): Key
    requires |args| == 6
  {
    [StringColumn(args[0]), StringColumn(args[3]), StringColumn(args[4])]
  }

  lemma SubmitWrongArity(ts: Tables, faults: set<StoreCall>, args: seq<Bytes>, createdAt: Bytes)
    requires |args| != 6
    ensures SubmitNewRequest(ts, faults, args, createdAt) == Step(Err(Message(ExpectingSix)), ts)
  {
  }

  /** A second request under a taken (UID, RequestType, Requester) is refused and the
      stored row stays as it was. */
  lemma SubmitDuplicate(ts: Tables, faults: set<StoreCall>, args: seq<Bytes>, createdAt: Bytes)
    requires Valid(ts) && RequestTable in ts && InsertRowCall !in faults
    requires |args| == 6 && SubmittedKey(args) in ts[RequestTable].rows
    ensures SubmitNewRequest(ts, faults, args, createdAt) == Step(Err(Message(AlreadyExists)), ts)
  {
    RequestKey(SubmittedRow(args, createdAt));
  }

  /** A request under a fresh key is stored exactly as given: the status is the caller's
      own, not forced to "new", and CreatedAt is the creation time. */
  lemma SubmitStoresRow(ts: Tables, faults: set<StoreCall>, args: seq<Bytes>, createdAt: Bytes)
    requires Valid(ts) && RequestTable in ts && InsertRowCall !in faults
    requires |args| == 6 && SubmittedKey(args) !in ts[RequestTable].rows
    ensures var t := ts[RequestTable];
      SubmitNewRequest(ts, faults, args, createdAt)
      == Step(Ok(None), ts[RequestTable := t.(rows := t.rows[SubmittedKey(args) := SubmittedRow(args, createdAt)])])
    ensures SubmittedRow(args, createdAt)[2] == StringColumn(args[2])
  {
    RequestKey(SubmittedRow(args, createdAt));
  }

  /** Submitting before Init reports the store's missing-table error and changes nothing. */
  lemma SubmitWithoutTable(ts: Tables, faults: set<StoreCall>, args: seq<Bytes>, createdAt: Bytes)
    requires RequestTable !in ts && InsertRowCall !in faults && |args| == 6
    ensures SubmitNewRequest(ts, faults, args, createdAt) == Step(Err(StoreError(NoSuchTable(RequestTable))), ts)
  {
  }

  /** SubmitNewRequest keeps the invariant, touches no table but RequestTable, and never
      changes a row already stored. */
  lemma SubmitKeepsValid(ts: Tables, faults: set<StoreCall>, args: seq<Bytes>, createdAt: Bytes)
    requires Valid(ts)
    ensures var ts' := SubmitNewRequest(ts, faults, args, createdAt).tables;
      && Valid(ts')
      && ts' - {RequestTable} == ts - {RequestTable}
      && (RequestTable in ts ==> RequestTable in ts' && forall k :: k in ts[RequestTable].rows ==>
            k in ts'[RequestTable].rows && ts'[RequestTable].rows[k] == ts[RequestTable].rows[k])
  {
    if |args| == 6 {
      var row := SubmittedRow(args, createdAt);
      WriteRowKeepsValid(ts, faults, RequestTable, row, false);
      RequestKey(row);
    }
  }

  // ---------------------------------------------------------------------------
  // GetJSON

  lemma GetJSONWrongArity(ts: Tables, faults: set<StoreCall>, args: seq<Bytes>)
    requires Valid(ts) && |args| != 2
    ensures GetJSON(ts, faults, args) == Err(Message(ExpectingOne))
  {
  }

  /** A lookup that finds no row is not an error: it returns nil, nil. */
  lemma GetJSONMiss(ts: Tables, faults: set<StoreCall>, uid: Bytes, requester: Bytes)
    requires Valid(ts) && GetRowCall !in faults
    requires RequestTable !in ts || LookupKey(uid, requester) !in ts[RequestTable].rows
    ensures GetJSON(ts, faults, [uid, requester]) == Ok(None)
  {
  }

  /** A lookup that finds a row renders that row, and the row is the request of type
      "new" with the asked-for uid and requester. */
  lemma GetJSONHit(ts: Tables, faults: set<StoreCall>, uid: Bytes, requester: Bytes)
    requires Valid(ts) && GetRowCall !in faults
    requires RequestTable in ts && LookupKey(uid, requester) in ts[RequestTable].rows
    ensures var row := ts[RequestTable].rows[LookupKey(uid, requester)];
      && |row| == 7
      && row[0] == StringColumn(uid) && row[3] == StringColumn(New) && row[4] == StringColumn(requester)
      && GetJSON(ts, faults, [uid, requester]) == Ok(Some(RequestJSON(row)))
  {
    var row := ts[RequestTable].rows[LookupKey(uid, requester)];
    StoredRowFits(ts, LookupKey(uid, requester));
    RequestKey(row);
  }

  /** Round trip: a request of type "new", once submitted, is what GetJSON returns for
      its uid and requester, with DocJSON embedded byte for byte. */
  lemma SubmitThenGetJSON(ts: Tables, faults: set<StoreCall>, args: seq<Bytes>, createdAt: Bytes)
    requires Valid(ts) && GetRowCall !in faults
    requires |args| == 6 && args[3] == New
    requires SubmitNewRequest(ts, faults, args, createdAt).reply == Ok(None)
    ensures var ts' := SubmitNewRequest(ts, faults, args, createdAt).tables;
      var row := SubmittedRow(args, createdAt);
      && Valid(ts')
      && GetJSON(ts', faults, [args[0], args[4]]) == Ok(Some(RequestJSON(row)))
      && RequestJSON(row)[DataOffset(row)..DataOffset(row) + |args[1]|] == args[1]
  {
    var row := SubmittedRow(args, createdAt);
    SubmitKeepsValid(ts, faults, args, createdAt);
    WriteRowKeepsValid(ts, faults, RequestTable, row, false);
    RequestKey(row);
    assert SubmittedKey(args) == LookupKey(args[0], args[4]);
    RequestJSONLayout(row);
  }

  /** A request submitted with any type other than "new" can never be fetched: GetJSON
      answers every query exactly as before the submission. */
  lemma SubmitOtherTypeUnreachable(ts: Tables, faults: set<StoreCall>, args: seq<Bytes>, createdAt: Bytes,
                                   query: seq<Bytes>)
    requires Valid(ts) && |args| == 6 && args[3] != New
    ensures Valid(SubmitNewRequest(ts, faults, args, createdAt).tables)
    ensures GetJSON(SubmitNewRequest(ts, faults, args, createdAt).tables, faults, query) == GetJSON(ts, faults, query)
  {
    var row := SubmittedRow(args, createdAt);
    SubmitKeepsValid(ts, faults, args, createdAt);
    WriteRowKeepsValid(ts, faults, RequestTable, row, false);
    RequestKey(row);
    if |query| == 2 {
      var key := LookupKey(query[0], query[1]);
      assert SubmittedKey(args) != key by {
        assert SubmittedKey(args)[1] != key[1];
      }
      var ts' := SubmitNewRequest(ts, faults, args, createdAt).tables;
      assert Store.GetRow(ts', faults, RequestTable, key) == Store.GetRow(ts, faults, RequestTable, key);
    }
  }

  // ---------------------------------------------------------------------------
  // ApproveRequest

  /** The rewritten row differs from the stored one in Status only. */
  lemma ApprovedRowKeepsColumns(row: Row)
    requires Fits(RequestSchema, row)
    ensures ApprovedRow(row) == row[2 := StringColumn(Approved)]
    ensures Fits(RequestSchema, ApprovedRow(row))
    ensures KeyOf(RequestSchema, ApprovedRow(row)) == KeyOf(RequestSchema, row)
  {
    assert KindOf(row[0]) == StringKind && KindOf(row[1]) == BytesKind && KindOf(row[3]) == StringKind;
    assert KindOf(row[4]) == StringKind && KindOf(row[5]) == BytesKind && KindOf(row[6]) == StringKind;
    RequestKey(row);
    RequestKey(ApprovedRow(row));
  }

  lemma ApproveWrongArity(ts: Tables, faults: set<StoreCall>, args: seq<Bytes>)
    requires Valid(ts) && |args| != 2
    ensures ApproveRequest(ts, faults, args) == Step(Err(Message(ExpectingOne)), ts)
  {
  }

  /** Approving a request that is not there is silent: nil, nil, and nothing changes. */
  lemma ApproveMiss(ts: Tables, faults: set<StoreCall>, uid: Bytes, requester: Bytes)
    requires Valid(ts) && GetRowCall !in faults
    requires RequestTable !in ts || LookupKey(uid, requester) !in ts[RequestTable].rows
    ensures ApproveRequest(ts, faults, [uid, requester]) == Step(Ok(None), ts)
  {
  }

  /** Approving a stored request sets its Status to "approved" and keeps every other
      column, every other row and every other table. */
  lemma ApproveSetsStatus(ts: Tables, faults: set<StoreCall>, uid: Bytes, requester: Bytes)
    requires Valid(ts) && GetRowCall !in faults && ReplaceRowCall !in faults
    requires RequestTable in ts && LookupKey(uid, requester) in ts[RequestTable].rows
    ensures var t, key := ts[RequestTable], LookupKey(uid, requester);
      ApproveRequest(ts, faults, [uid, requester])
      == Step(Ok(None), ts[RequestTable := t.(rows := t.rows[key := t.rows[key][2 := StringColumn(Approved)]])])
  {
    var key := LookupKey(uid, requester);
    var row := ts[RequestTable].rows[key];
    StoredRowFits(ts, key);
    ApprovedRowKeepsColumns(row);
  }

  /** ApproveRequest keeps the invariant and touches no table but RequestTable. */
  lemma ApproveKeepsValid(ts: Tables, faults: set<StoreCall>, args: seq<Bytes>)
    requires Valid(ts)
    ensures Valid(ApproveRequest(ts, faults, args).tables)
    ensures ApproveRequest(ts, faults, args).tables - {RequestTable} == ts - {RequestTable}
  {
    if |args| == 2 {
      var key := LookupKey(args[0], args[1]);
      var f := Store.GetRow(ts, faults, RequestTable, key);
      if f.err == None && |f.row| != 0 {
        StoredRowFits(ts, key);
        ApprovedRowKeepsColumns(f.row);
        WriteRowKeepsValid(ts, faults, RequestTable, ApprovedRow(f.row), true);
      }
    }
  }

  /** The "Error updatig." reply cannot happen: the row just read is still there to replace. */
  lemma ApproveNeverFailsUpdate(ts: Tables, faults: set<StoreCall>, args: seq<Bytes>)
    requires Valid(ts)
    ensures ApproveRequest(ts, faults, args).reply != Err(Message(UpdateFailed))
  {
    if |args| == 2 {
      var key := LookupKey(args[0], args[1]);
      var f := Store.GetRow(ts, faults, RequestTable, key);
      if f.err == None && |f.row| != 0 {
        StoredRowFits(ts, key);
        ApprovedRowKeepsColumns(f.row);
        RequestKey(f.row);
      }
    }
  }

  /** Approving twice leaves the same tables as approving once. */
  lemma ApproveIdempotent(ts: Tables, faults: set<StoreCall>, args: seq<Bytes>)
    requires Valid(ts)
    ensures Valid(ApproveRequest(ts, faults, args).tables)
    ensures var once := ApproveRequest(ts, faults, args);
      ApproveRequest(once.tables, faults, args) == Step(once.reply, once.tables)
  {
    ApproveKeepsValid(ts, faults, args);
    if |args| == 2 && GetRowCall !in faults && ReplaceRowCall !in faults {
      var key := LookupKey(args[0], args[1]);
      if RequestTable in ts && key in ts[RequestTable].rows {
        ApproveSetsStatus(ts, faults, args[0], args[1]);
        var once := ApproveRequest(ts, faults, args).tables;
        var row := once[RequestTable].rows[key];
        assert row == ts[RequestTable].rows[key][2 := StringColumn(Approved)];
        ApproveSetsStatus(once, faults, args[0], args[1]);
        assert row[2 := StringColumn(Approved)] == row;
        assert once[RequestTable].rows[key := row] == once[RequestTable].rows;
      }
    }
  }
}

/** The request ledger's operations on the chaincode stub, each proved to do what its
    function in RequestSpec says. */
module Request {
  import opened Text
  import opened Wrappers
  import opened Store
  import opened Shim
  import RequestSpec

  /** Provisions RequestTable unless it exists already. The function name and the
      arguments are unused, as in the chaincode. */
  method Init(stub: ChaincodeStub, fn: Bytes, args: seq<Bytes>) returns (r: Reply)
    modifies stub
    ensures Step(r, stub.tables) == RequestSpec.Init(old(stub.tables), stub.faults)
  {
    var err := stub.GetTable(RequestSpec.RequestTable);
    if err == None {
      return Ok(None);
    }
    err := stub.CreateTable(RequestSpec.RequestTable, RequestSpec.RequestSchema);
    if err != None {
      return Err(Message(RequestSpec.CreateFailed));
    }
    return Ok(None);
  }

  /** Inserts a request from UID, docJSON, status, requestType, requester, permissions;
      `createdAt` is the creation time, already formatted. */
  method SubmitNewRequest(stub: ChaincodeStub, args: seq<Bytes>, createdAt: Bytes) returns (r: Reply)
    modifies stub
    ensures Step(r, stub.tables) == RequestSpec.SubmitNewRequest(old(stub.tables), stub.faults, args, createdAt)
  {
    if |args| != 6 {
      return Err(Message(RequestSpec.ExpectingSix));
    }
    var uid := args[0];
    var docJSON := args[1];
    var status := args[2];
    var requestType := args[3];
    var requester := args[4];
    var permissions := args[5];
    var ok, err := stub.InsertRow(RequestSpec.RequestTable,
      [StringColumn(uid), BytesColumn(docJSON), StringColumn(status), StringColumn(requestType),
       StringColumn(requester), BytesColumn(permissions), StringColumn(createdAt)]);
    if !ok && err == None {
      return Err(Message(RequestSpec.AlreadyExists));
    }
    return PassOn(err);
  }

  /** The JSON of the request of type "new" with the given uid and requester. */
  method GetJSON(stub: ChaincodeStub, args: seq<Bytes>) returns (r: Reply)
    requires RequestSpec.Valid(stub.tables)
    ensures r == RequestSpec.GetJSON(stub.tables, stub.faults, args)
  {
    if |args| != 2 {
      return Err(Message(RequestSpec.ExpectingOne));
    }
    var uid := args[0];
    var requester := args[1];
    var requestType := RequestSpec.New;
    var columns: seq<Column> := [];
    columns := columns + [StringColumn(uid)];
    columns := columns + [StringColumn(requestType)];
    columns := columns + [StringColumn(requester)];
    assert columns == RequestSpec.LookupKey(uid, requester);
    var row, err := stub.GetRow(RequestSpec.RequestTable, columns);
    if err != None {
      return Err(Retrieval(uid, err.value));
    }
    if |row| == 0 {
      return Ok(None);
    }
    return Ok(Some(RequestSpec.RequestJSON(row)));
  }

  /** Rewrites the request of type "new" with the given uid and requester as approved. */
  method ApproveRequest(stub: ChaincodeStub, args: seq<Bytes>) returns (r: Reply)
    requires RequestSpec.Valid(stub.tables)
    modifies stub
    ensures Step(r, stub.tables) == RequestSpec.ApproveRequest(old(stub.tables), stub.faults, args)
    ensures RequestSpec.Valid(stub.tables)
  {
    RequestSpec.ApproveKeepsValid(stub.tables, stub.faults, args);
    if |args| != 2 {
      return Err(Message(RequestSpec.ExpectingOne));
    }
    var uid := args[0];
    var requester := args[1];
    var requestType := RequestSpec.New;
    var columns: seq<Column> := [];
    columns := columns + [StringColumn(uid)];
    columns := columns + [StringColumn(requestType)];
    columns := columns + [StringColumn(requester)];
    assert columns == RequestSpec.LookupKey(uid, requester);
    var row, err := stub.GetRow(RequestSpec.RequestTable, columns);
    if err != None {
      return Err(Retrieval(uid, err.value));
    }
    if |row| == 0 {
      return Ok(None);
    }
    RequestSpec.StoredRowFits(stub.tables, columns);
    var updated := [StringColumn(GetString(row[0])), BytesColumn(GetBytes(row[1])), StringColumn(RequestSpec.Approved),
                    StringColumn(GetString(row[3])), StringColumn(GetString(row[4])), BytesColumn(GetBytes(row[5])),
                    StringColumn(GetString(row[6]))];
    assert updated == RequestSpec.ApprovedRow(row);
    var ok;
    ok, err := stub.ReplaceRow(RequestSpec.RequestTable, updated);
    if !ok && err == None {
      return Err(Message(RequestSpec.UpdateFailed));
    }
    return PassOn(err);
  }
}
