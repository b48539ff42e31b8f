/** The chaincode's entry points: Init, and the Invoke and Query routers, which pick an
    operation by its function name. The chaincode holds a request ledger only, so this
    module imports Request and not Document: no document operation is reachable, and
    DocumentTable is never provisioned through these entry points. */
module Chaincode {
  import opened Text
  import opened Wrappers
  import opened Store
  import opened Shim
  import RequestSpec
  import DocumentSpec
  import Request

  const InitName: Bytes := Lit("init")
  const SubmitNewRequestName: Bytes := Lit("submit_new_request")
  const GetRequestJSONName: Bytes := Lit("get_request_json")
  const GetRequestStatusName: Bytes := Lit("get_request_status")

  const UnknownInvoke: Bytes := Lit("Received unknown invoke function name")
  const UnknownQuery: Bytes := Lit("Received unknown query function name")

  /** Both ledgers' invariants on the store. */
  predicate Valid(ts: Tables)
  {
    RequestSpec.Valid(ts) && DocumentSpec.Valid(ts)
  }

  /** Runs the request ledger's Init and throws its reply away: deployment always
      reports success, whether or not RequestTable could be provisioned. */
  method Init(stub: ChaincodeStub, fn: Bytes, args: seq<Bytes>) returns (r: Reply)
    modifies stub
    ensures r == Ok(None)
    ensures stub.tables == RequestSpec.Init(old(stub.tables), stub.faults).tables
    ensures stub.tables - {RequestSpec.RequestTable} == old(stub.tables) - {RequestSpec.RequestTable}
    ensures Valid(old(stub.tables)) ==> Valid(stub.tables)
  {
    if Valid(stub.tables) {
      RequestSpec.InitKeepsValid(stub.tables, stub.faults);
    }
    var _ := Request.Init(stub, fn, args);
    r := Ok(None);
  }

  /** Routes "init" to Init and "submit_new_request" to the request ledger; every other
      name is refused without touching the store. */
  method Invoke(stub: ChaincodeStub, fn: Bytes, args: seq<Bytes>, createdAt: Bytes) returns (r: Reply)
    modifies stub
    ensures fn == InitName ==>
      r == Ok(None) && stub.tables == RequestSpec.Init(old(stub.tables), stub.faults).tables
    ensures fn == SubmitNewRequestName ==>
      Step(r, stub.tables) == RequestSpec.SubmitNewRequest(old(stub.tables), stub.faults, args, createdAt)
    ensures fn != InitName && fn != SubmitNewRequestName ==>
      r == Err(Message(UnknownInvoke)) && stub.tables == old(stub.tables)
    ensures stub.tables - {RequestSpec.RequestTable} == old(stub.tables) - {RequestSpec.RequestTable}
    ensures Valid(old(stub.tables)) ==> Valid(stub.tables)
  {
    if fn == InitName {
      r := Init(stub, InitName, args);
      return;
    } else if fn == SubmitNewRequestName {
      if Valid(stub.tables) {
        RequestSpec.SubmitKeepsValid(stub.tables, stub.faults, args, createdAt);
      }
      r := Request.SubmitNewRequest(stub, args, createdAt);
      return;
    }
    return Err(Message(UnknownInvoke));
  }

  /** Routes "get_request_json" to the request ledger's GetJSON and "get_request_status"
      to `getRequestStatus`, which stands for a request-ledger operation the chaincode
      names but does not define; every other name is refused. */
  method Query(stub: ChaincodeStub, fn: Bytes, args: seq<Bytes>,
               getRequestStatus: (Tables, seq<Bytes>) -> Reply) returns (r: Reply)
    requires RequestSpec.Valid(stub.tables)
    ensures fn == GetRequestJSONName ==> r == RequestSpec.GetJSON(stub.tables, stub.faults, args)
    ensures fn == GetRequestStatusName ==> r == getRequestStatus(stub.tables, args)
    ensures fn != GetRequestJSONName && fn != GetRequestStatusName ==> r == Err(Message(UnknownQuery))
  {
    if fn == GetRequestJSONName {
      r := Request.GetJSON(stub, args);
      return;
    } else if fn == GetRequestStatusName {
      return getRequestStatus(stub.tables, args);
    }
    return Err(Message(UnknownQuery));
  }
}
