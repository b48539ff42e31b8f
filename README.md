# Request and document ledgers of a Hyperledger Fabric chaincode, in Dafny

This project models the record "contracts" of a Fabric chaincode for a two-stage
letter-of-guarantee workflow. A **request** is submitted, fetched as JSON and approved.
A **document** is issued, fetched as JSON and cancelled. Both live in tables of the
platform's keyed table store. The dispatcher routes named operations to the request
ledger.

Layout:

- `text.dfy` — module `Text`: Go strings and byte slices as `seq<byte>`, literals, and a
  reader that takes a quoted JSON value back out of rendered text. Module `Wrappers`: `Option`.
- `store.dfy` — module `Store`: the table calls the ledgers use (`GetTable`, `CreateTable`,
  `InsertRow`, `ReplaceRow`, `GetRow`) as functions of the store's state `map<name, Table>`.
  Module `Shim`: the class `ChaincodeStub`, whose `tables` field these calls read and change in place.
- `request.dfy` — module `RequestSpec`: each request operation as a function from the
  old tables to a reply and the new tables, with the lemmas about them. Module `Request`:
  the same operations as imperative methods on the stub, each proved equal to its function.
- `document.dfy` — modules `DocumentSpec` and `Document`, the same for documents.
- `chaincode.dfy` — module `Chaincode`: `Init`, `Invoke` and `Query`.

Modelling decisions:

- Every operation returns Go's `([]byte, error)` pair as `Reply`. `Ok(None)` is `nil, nil`.
  `Err(Message(..))` is an `errors.New` text, kept byte for byte, including the typo
  "Error updatig.". `Err(StoreError(..))` is a store error passed back unchanged.
  `Err(Retrieval(uid, ..))` is the `fmt.Errorf` that wraps a failed lookup.
- A row is a sequence of columns. Each column holds either a string or bytes. Its key is its
  key columns in schema order, which is the order the lookups build their keys in.
- The store contract assumed: `GetTable` errors when the table is absent.
  `CreateTable` refuses an existing table. `InsertRow` and `ReplaceRow` refuse a missing
  table or a row that does not fit the schema. They report `false, nil` when the key is
  taken (insert) or absent (replace). `GetRow` returns the empty row when nothing is filed
  under the key, including when the table is absent.
- A store call can fail on its own. The stub's constant `faults` names the kinds of call that
  fail. Such an error is opaque, and the ledgers pass it back.
- `Valid` (one per ledger) is the invariant every operation keeps. All tables hold rows that
  fit their schema and are filed under their own key. The ledger's table, once it exists, has
  the schema its `Init` gives it. It stands in for what Go needs to avoid an index panic when
  it renders or rewrites a row.

Behaviour of the code kept as written:

- A request has no approver column. Its key is (UID, RequestType, Requester), and
  `SubmitNewRequest` takes 6 arguments.
- `GetJSON` and `ApproveRequest` take 2 arguments (uid, requester) but report "Expecting 1."
  on a wrong count. Both look up the request type `"new"`, so a request submitted with any
  other type can never be fetched or approved. The same holds for documents and the type `"LG"`.
- The status is whatever the caller passes. Nothing forces it to "new" or "issued".
- The request JSON field order is uid, data, status, type, requester, permissions, createdAt.
  Payloads are embedded unescaped.
- The dispatcher knows only `init` and `submit_new_request` on invoke, and
  `get_request_json` and `get_request_status` on query. `Init` provisions `RequestTable`
  only. No document operation, approval, listing, user or index operation is reachable.
- `get_request_status` calls a request-ledger method that no shown file defines. The model
  takes it as a parameter of `Query`.

## Model

| member | source | states |
|---|---|---|
| Store.PassOn | request.go:80 | `return nil, err` is success with no payload exactly when the store reported no error, and otherwise the store's own error passed back unchanged |
| Store.WriteRowKeepsValid | request.go:65-80 | a row write keeps every table valid; a write that fails changes nothing; one that succeeds files the row under its own key and changes nothing else |
| Store.CreateTableKeepsValid | request.go:25-37 | creating a table keeps the store valid, fails exactly when that kind of call fails or the table exists, and then changes nothing |
| Store.GetRowAfterWrite | request.go:105-113 | a row just written is what a lookup by its key returns |
| RequestSpec.RequestKey | request.go:26-34 | a request row is filed under columns 0, 3 and 4 (UID, RequestType, Requester) |
| RequestSpec.RequestJSONLayout | request.go:116-120 | the JSON opens with the uid, holds DocJSON byte for byte at a fixed offset, and a quote-free uid reads back from it |
| RequestSpec.InitKeepsExistingTable | request.go:19-23 | an existing RequestTable and its rows are left alone, reply nil, nil |
| RequestSpec.InitCreatesTable | request.go:25-39 | a missing RequestTable is created empty with the 7-column schema |
| RequestSpec.InitFailure | request.go:19-37 | Init fails exactly when the table cannot be seen and cannot be created; it then reports "Failed creating Request Table." and changes nothing |
| RequestSpec.InitIdempotent | request.go:17-41 | a second Init changes nothing, and succeeds whenever the table can be seen |
| RequestSpec.InitKeepsValid | request.go:25-34 | Init keeps the invariant and touches no other table |
| RequestSpec.SubmitWrongArity | request.go:46-48 | any argument count but 6 is refused with no change |
| RequestSpec.SubmitDuplicate | request.go:65-78 | a taken (UID, RequestType, Requester) is refused with "Document already exists." and the stored row is kept |
| RequestSpec.SubmitStoresRow | request.go:50-74 | a fresh request is stored exactly as [UID, docJSON, status, requestType, requester, permissions, createdAt], with the caller's status |
| RequestSpec.SubmitWithoutTable | request.go:65-80 | submitting before Init passes back the store's missing-table error with no change |
| RequestSpec.SubmitKeepsValid | request.go:65-80 | submitting keeps the invariant, touches no other table and never changes a stored row |
| RequestSpec.GetJSONWrongArity | request.go:86-88 | any argument count but 2 is refused with "Expecting 1." |
| RequestSpec.GetJSONMiss | request.go:90-113 | a lookup of (uid, "new", requester) that finds nothing returns nil, nil |
| RequestSpec.GetJSONHit | request.go:90-120 | a lookup that finds a row renders it, and it is the "new" request of that uid and requester |
| RequestSpec.SubmitThenGetJSON | request.go:44-120 | a submitted "new" request is fetched back as its JSON, with DocJSON embedded verbatim |
| RequestSpec.SubmitOtherTypeUnreachable | request.go:90-105 | a request of any type but "new" changes no GetJSON answer |
| RequestSpec.ApprovedRowKeepsColumns | request.go:155-164 | the rewritten row differs from the stored one in Status only and keeps its key |
| RequestSpec.ApproveWrongArity | request.go:126-128 | any argument count but 2 is refused with no change |
| RequestSpec.ApproveMiss | request.go:130-153 | approving a missing request returns nil, nil with no change |
| RequestSpec.ApproveSetsStatus | request.go:130-170 | approving a stored request sets Status to "approved" and changes nothing else |
| RequestSpec.ApproveKeepsValid | request.go:155-164 | approving keeps the invariant and touches no other table |
| RequestSpec.ApproveNeverFailsUpdate | request.go:145-168 | the "Error updatig." reply cannot occur |
| RequestSpec.ApproveIdempotent | request.go:155-164 | approving twice gives the same reply and tables as approving once, on every store, including one whose calls fail |
| Request.Init | request.go:17-41 | the stub's new tables and the reply are those of RequestSpec.Init |
| Request.SubmitNewRequest | request.go:44-81 | the stub's new tables and the reply are those of RequestSpec.SubmitNewRequest |
| Request.GetJSON | request.go:84-122 | the reply is that of RequestSpec.GetJSON, and the store is not changed |
| Request.ApproveRequest | request.go:124-171 | the stub's new tables and the reply are those of RequestSpec.ApproveRequest, and the invariant holds after |
| DocumentSpec.DocumentKey | document.go:26-37 | a document row is filed under columns 0 to 3 (Owner, Issuer, DocumentType, Uid) |
| DocumentSpec.DocumentJSONLayout | document.go:129-133 | the JSON holds DataJSON byte for byte at a fixed offset, and a quote-free uid reads back from it |
| DocumentSpec.InitKeepsExistingTable | document.go:19-23 | an existing DocumentTable and its rows are left alone, reply nil, nil |
| DocumentSpec.InitCreatesTable | document.go:25-42 | a missing DocumentTable is created empty with the 10-column schema |
| DocumentSpec.InitFailure | document.go:19-40 | Init fails exactly when the table cannot be seen and cannot be created; it then reports "Failed creating Document Table." and changes nothing |
| DocumentSpec.InitIdempotent | document.go:17-44 | a second Init changes nothing, and succeeds whenever the table can be seen |
| DocumentSpec.InitKeepsValid | document.go:25-37 | Init keeps the invariant and touches no other table |
| DocumentSpec.IssueWrongArity | document.go:49-51 | any argument count but 8 is refused with no change |
| DocumentSpec.IssueDuplicate | document.go:71-87 | a taken (Owner, Issuer, DocumentType, Uid) is refused with "Document already exists." and the stored row is kept |
| DocumentSpec.IssueStoresRow | document.go:53-83 | a fresh document is stored with its columns in argument order and an empty PreviousUid |
| DocumentSpec.IssueWithoutTable | document.go:71-89 | issuing before Init passes back the store's missing-table error with no change |
| DocumentSpec.IssueKeepsValid | document.go:71-89 | issuing keeps the invariant, touches no other table and never changes a stored row |
| DocumentSpec.GetLgJSONWrongArity | document.go:95-97 | any argument count but 3 is refused |
| DocumentSpec.GetLgJSONMiss | document.go:101-126 | a lookup of (owner, issuer, "LG", uid) that finds nothing returns nil, nil |
| DocumentSpec.GetLgJSONHit | document.go:101-133 | a lookup that finds a row renders it, and it is the "LG" document of that owner, issuer and uid |
| DocumentSpec.IssueThenGetLgJSON | document.go:47-133 | an issued "LG" document is fetched back as its JSON, with DataJSON embedded verbatim under "data" |
| DocumentSpec.IssueOtherTypeUnreachable | document.go:101-118 | a document of any type but "LG" changes no GetLgJSON answer |
| DocumentSpec.CancelledRowKeepsColumns | document.go:179-191 | the rewritten row differs from the stored one in Status only and keeps its key |
| DocumentSpec.CancelWrongArity | document.go:140-142 | any argument count but 3 is refused with no change |
| DocumentSpec.CancelMiss | document.go:146-173 | cancelling a missing document returns nil, nil with no change |
| DocumentSpec.CancelSetsStatus | document.go:146-197 | cancelling a stored document sets Status to "cancelled" and keeps the other nine columns |
| DocumentSpec.CancelKeepsValid | document.go:179-191 | cancelling keeps the invariant and touches no other table |
| DocumentSpec.CancelNeverFailsUpdate | document.go:165-195 | the "Error updating." reply cannot occur |
| DocumentSpec.CancelIdempotent | document.go:179-191 | cancelling twice gives the same reply and tables as cancelling once, on every store, including one whose calls fail; the status stays "cancelled" |
| Document.Init | document.go:17-44 | the stub's new tables and the reply are those of DocumentSpec.Init |
| Document.IssueDocument | document.go:47-90 | the stub's new tables and the reply are those of DocumentSpec.IssueDocument |
| Document.GetLgJSON | document.go:93-135 | the reply is that of DocumentSpec.GetLgJSON, and the store is not changed |
| Document.CancelLGDocument | document.go:138-199 | the stub's new tables and the reply are those of DocumentSpec.CancelLGDocument, and the invariant holds after |
| Chaincode.Init | chaincode.go:80-84 | the request ledger's Init runs, its reply is dropped, and the reply is always nil, nil |
| Chaincode.Invoke | chaincode.go:30-40 | "init" and "submit_new_request" are routed; any other name gets "Received unknown invoke function name" with no change; no table but RequestTable ever changes |
| Chaincode.Query | chaincode.go:46-56 | "get_request_json" gives GetJSON's reply, "get_request_status" the opaque call's reply, any other name "Received unknown query function name" |

## Left out

- The store's own implementation is not part of this model. Its contract is modelled as
  described above, including the encoding of rows and keys, which is taken to be faithful.
- CreateTable's checks on the table name and column definitions are not modelled. Both
  schemas used here are well formed.
- Store failures are modelled per kind of call, fixed for the stub's lifetime. A failure
  that hits only some calls of one kind is not modelled separately. Each failure is passed
  back the same way.
- `time.Now()` and RFC 3339 formatting: the creation time is the parameter `createdAt`.
- `fmt.Printf` debug output, the logger, `main`, `shim.Start` and `os.Getenv` are I/O.
- The commented-out `GetRequests` in request.go is not code.
- `GetRequestStatus` is not defined in any shown file. It is the parameter
  `getRequestStatus` of `Chaincode.Query`, with no contract.
- JSON validity of payloads: the code never parses JSON. The model keeps bytes, and proves
  only where the payload lands in the text and that a quote-free quoted value reads back.
- The platform's read-only enforcement for queries is not modelled. `Query` simply takes
  no write permission on the stub.
- The sequential index, the credential store and request listing have no code in the
  modelled files, so they are not modelled.
