# Pharmaceutical inventory chaincode, modelled in Dafny

This project models the inventory contract of a Hyperledger Fabric chaincode
(`contracts/pharma_chaincode.go`). The contract keeps medicines and
cross-organisation requests in the ledger's flat key-value world state. It
offers five operations: AddMedicine, DeleteMedicine, ListMedicines,
ShowMedicineHistory and RequestMedicine.

The ledger is modelled as the class `Chaincode.PharmaChaincode`. It holds:

- `world`: each key's current value. A value is either a `MedicineRecord` or
  a `RequestRecord`. Both kinds share one key space.
- `history`: each key's log of versions, oldest first. A version is a
  transaction id, a timestamp, and either the written value or a deletion
  marker.

The object invariant `Valid()` says that the world state is exactly what the
latest version of each key leaves behind (`CurrentState`). Every mutating
operation preserves it. Every put and every delete appends one version.

The host's services come in as parameters:

- The caller's MSP id, the transaction id and the timestamp arrive in a
  `Context`.
- RFC 3339 date parsing is the constructor argument `parseTime`.
- JSON decoding is the constructor argument `decode`. It maps a stored value
  or a deletion marker to a medicine, or to `None` when decoding fails.

Time values are opaque (`Records.Time`).

Files:

- `records.dfy`: the records, versions, context and error kinds.
- `names.dfy`: Go's byte-wise string order. The scan uses it for keys and the
  sort uses it for names.
- `requests.dfy`: the allow-list and the composite request key.
- `sorting.dfy`: the in-place sort by name.
- `chaincode.dfy`: the ledger class and the five operations.
- `scenarios.dfy`: client runs on a fresh ledger, proved from the operations'
  contracts alone.

Behaviour the model keeps as the code has it:

- ListMedicines scans the whole key space (`GetStateByRange("", "")`). It
  therefore decodes request records as medicines too, and one value that does
  not decode fails the whole call (`Scenarios.AspirinRequestDeleteList`).
- ShowMedicineHistory sends deletion versions through the same decoding as
  written versions. It has no tombstone case. If the deletion marker does not
  decode, the history of any deleted name fails (`Scenarios.AddDeleteHistory`).
  Go's `json.Unmarshal` rejects the empty value that Fabric reports for a
  deletion.
- RequestMedicine checks existence before authorisation. An organisation
  outside the allow-list therefore gets NotFound for a missing name
  (`Scenarios.UnlistedCallerOnMissingName`).
- The allow-list is the fixed set {ProducerMSP, SupplierMSP}, not a
  configuration.
- Request keys live in the same key space as medicine names:
  - AddMedicine refuses a name equal to an existing request key.
  - DeleteMedicine removes a request when given its key
    (`Scenarios.SharedKeySpace`).

## Model

| member | source | states |
|---|---|---|
| `Names.NameLeReflexive` | contracts/pharma_chaincode.go:135-137 | the name order used by the sort is reflexive |
| `Names.NameLeTotal` | contracts/pharma_chaincode.go:135-137 | any two names are comparable, so `!(b < a)` means `a <= b` |
| `Names.NameLeTransitive` | contracts/pharma_chaincode.go:135-137 | the name order is transitive |
| `Names.NameLeAntisymmetric` | contracts/pharma_chaincode.go:135-137 | two names ordered both ways are equal |
| `Names.FirstKeyExists` | contracts/pharma_chaincode.go:111 | every non-empty set of keys has a least key in byte order, so the range scan can always return the next key in key order |
| `Requests.RequestKey` | contracts/pharma_chaincode.go:204-205 | the key is `request_`, then the requester, then `_`, then the medicine name, at those exact positions |
| `Requests.AllowedRequestersHaveNoUnderscore` | contracts/pharma_chaincode.go:193-197 | neither allowed organisation contains `_` |
| `Requests.RequestKeyIsNotName` | contracts/pharma_chaincode.go:204-205 | a request key never equals the medicine name it is for |
| `Requests.RequestKeyInjective` | contracts/pharma_chaincode.go:204-205 | for requesters without `_`, equal keys mean equal requester and equal name |
| `Requests.AllowedRequestKeysInjective` | contracts/pharma_chaincode.go:193-205 | for allowed requesters the key is unique per (requester, medicine) pair |
| `Requests.RequestKeyAmbiguousWithUnderscore` | contracts/pharma_chaincode.go:205 | without the allow-list the key is ambiguous: (`A_B`, `C`) and (`A`, `B_C`) share a key |
| `Sorting.SortByName` | contracts/pharma_chaincode.go:134-137 | sorts the slice in place: afterwards it is ordered by name and is a permutation of its old contents |
| `Chaincode.DecodedValuesPick` | contracts/pharma_chaincode.go:117-132 | the multiset of decoded values does not depend on the order in which keys are visited |
| `Chaincode.DecodedValuesSize` | contracts/pharma_chaincode.go:117-132 | the scan yields exactly one decoded value per key |
| `Chaincode.DecodedValuesHas` | contracts/pharma_chaincode.go:117-132 | the decoding of every scanned value is among the results |
| `Chaincode.PharmaChaincode.PresentIffLastWritten` | contracts/pharma_chaincode.go:41-47 | in a consistent ledger a key passes the existence check exactly when its history is non-empty and ends in a write, and the stored value is that write; so the world state the checks read agrees with the log ShowMedicineHistory reads (:144) |
| `Chaincode.PharmaChaincode.PutState` | contracts/pharma_chaincode.go:82 | a put sets exactly that key, appends one written version to that key's log, and keeps the world state equal to what the logs leave behind |
| `Chaincode.PharmaChaincode.DelState` | contracts/pharma_chaincode.go:101 | a delete removes exactly that key, appends one deletion version, and keeps the invariant |
| `Chaincode.PharmaChaincode.AddMedicine` | contracts/pharma_chaincode.go:39-88 | fails with AlreadyExists if the name is present, and this check comes before either date is parsed; then the manufacture date is checked, then the expiry date; a failure changes nothing; succeeds exactly when the name is absent and both dates parse; on success the name maps to a medicine with the given name and quantity, the two parsed dates and the caller as owner, every other key is unchanged, and one version is appended to the name's log |
| `Chaincode.PharmaChaincode.DeleteMedicine` | contracts/pharma_chaincode.go:90-107 | succeeds exactly when the name is present, for any caller and any kind of record; otherwise fails with NotFound and changes nothing; on success removes only that key and appends a deletion version |
| `Chaincode.PharmaChaincode.ListMedicines` | contracts/pharma_chaincode.go:109-140 | changes nothing; fails exactly when some world-state value, request records included, does not decode; otherwise returns a list sorted by name that is a permutation of the decoded values of all world-state entries |
| `Chaincode.PharmaChaincode.ShowMedicineHistory` | contracts/pharma_chaincode.go:142-174 | changes nothing; fails exactly when some version of the name, deletions included, does not decode; otherwise returns one entry per version in log order, with the version's transaction id, its timestamp and its decoded value |
| `Chaincode.PharmaChaincode.RequestMedicine` | contracts/pharma_chaincode.go:176-237 | checks in this order: NotFound if the name is absent, Unauthorized if the caller is not allowed, AlreadyExists if the request key is taken; a failure changes nothing; on success writes exactly the request key, holding the name, the caller and the details, appends one version, and leaves the medicine record unchanged |
| `Scenarios.AddTwice` | contracts/pharma_chaincode.go:39-47 | a second add of a name fails with AlreadyExists, whatever its dates, and the first record stays |
| `Scenarios.DeleteNeverAdded` | contracts/pharma_chaincode.go:90-98 | deleting a name never added fails with NotFound |
| `Scenarios.ListEmptyLedger` | contracts/pharma_chaincode.go:109-140 | listing an empty ledger gives an empty list |
| `Scenarios.AddDeleteAdd` | contracts/pharma_chaincode.go:39-107 | add, then delete, then add of one name all succeed, and that name's log holds the three versions in order |
| `Scenarios.UnlistedCallerOnMissingName` | contracts/pharma_chaincode.go:176-202 | a caller outside the allow-list who asks for a missing name gets NotFound |
| `Scenarios.AspirinAddListRequest` | contracts/pharma_chaincode.go:39-215 | after adding Aspirin the list is exactly that medicine, owned by the adder (given a decoder that round-trips medicines); SupplierMSP's first request succeeds and its second fails with AlreadyExists |
| `Scenarios.AspirinRequestDeleteList` | contracts/pharma_chaincode.go:109-140 | after add, request and delete, the listing succeeds exactly when the remaining request record decodes, and then has one entry |
| `Scenarios.AddDeleteHistory` | contracts/pharma_chaincode.go:142-174 | after add and delete, the history succeeds exactly when both the written medicine and the deletion marker decode, and then reports the two transactions in order |
| `Scenarios.SharedKeySpace` | contracts/pharma_chaincode.go:204-215 | a medicine cannot be added under an existing request's key; deleting that key removes the request, after which the same request succeeds again |

## Left out

- Ledger infrastructure errors are not modelled. These are the `err != nil` branches after GetState, PutState, DelState, GetStateByRange, GetHistoryForKey and the iterators' Next. The in-memory ledger never fails.
- The error from `GetClientIdentity().GetMSPID()` is not modelled. The caller's MSP id is a trusted field of `Context`.
- JSON encoding is not modelled. Marshalling a record cannot fail here. A stored value is a Dafny datatype, and decoding is the uninterpreted function `decode`.
- RFC 3339 date-time parsing is not modelled. It is the uninterpreted function `parseTime`, and times are opaque.
- Iterator handling (`HasNext`, `Next`, `Close`, `defer`) is not modelled. The scans are loops over the class's own state.
- Fabric's key rules are not modelled. Fabric rejects keys that are not valid UTF-8, and its range scans skip the composite-key namespace (keys starting with U+0000). Every string is an ordinary key here.
- `Chaincode.PharmaChaincode.AddMedicine`: the Fabric shim's PutState rejects the empty key, so `AddMedicine` with the name `""` fails at the put (contracts/pharma_chaincode.go:82-85), while the model succeeds and stores the medicine under `""`. This is one of the ledger errors left out above. Request keys are never empty, so RequestMedicine is not affected.
- `Chaincode.PharmaChaincode.ShowMedicineHistory`: the source file does not build as written. It imports `github.com/hyperledger/fabric/common/util` (contracts/pharma_chaincode.go:12) without using it, and at :167 it assigns Fabric's protobuf timestamp (`KeyModification.Timestamp`) to the `time.Time` field declared at :30. The model reads :167 as the version's commit time converted to a time, and copies the version's timestamp into the entry.
- Go's `int` is 64-bit. Quantity is an unbounded integer because the contract does no arithmetic on it.
- History order follows the model's log, oldest first. The contract copies whatever order the host returns, so the model claims only that this order is preserved.
- ListMedicines promises sortedness and a permutation, not a tie order among equal names. Go's `sort.Slice` is not stable. The insertion sort used here is one of its allowed outcomes.
- Consensus, endorsement, concurrency and the atomicity of a transaction belong to the host ledger.
- Error message texts are reduced to the `Error` kinds.
- Process start-up (`main.go`) is not part of this model.
