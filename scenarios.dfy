/** Client runs of the contract on a fresh ledger, proved from the
    operations' contracts alone. */
module Scenarios {
  import opened Records
  import opened Requests
  import opened Chaincode

  /** A sequence whose multiset is one element is that element alone. */
  lemma SingletonFromMultiset<T>(s: seq<T>, x: T)
    requires multiset(s) == multiset{x}
    ensures s == [x]
  {
  }

  /** A second AddMedicine of the same name fails on the name, before its
      dates are looked at, and keeps the first record. */
  method AddTwice(
    parseTime: string -> Option<Time>, decode: Payload -> Option<Medicine>,
    first: Context, second: Context, name: string,
    quantity: int, manufactured: string, expires: string,
    quantity2: int, manufactured2: string, expires2: string)
    returns (added: Outcome, addedAgain: Outcome, stored: StoredValue)
    requires parseTime(manufactured).Some? && parseTime(expires).Some?
    ensures added == Pass
    ensures addedAgain == Fail(AlreadyExists(name))
    ensures stored == MedicineRecord(
      Medicine(name, quantity, parseTime(manufactured).value, parseTime(expires).value, first.caller))
  {
    var contract := new PharmaChaincode(parseTime, decode);
    added := contract.AddMedicine(first, name, quantity, manufactured, expires);
    addedAgain := contract.AddMedicine(second, name, quantity2, manufactured2, expires2);
    stored := contract.world[name];
  }

  /** Deleting a name that was never added fails with NotFound. */
  method DeleteNeverAdded(
    parseTime: string -> Option<Time>, decode: Payload -> Option<Medicine>, ctx: Context, name: string)
    returns (deleted: Outcome)
    ensures deleted == Fail(NotFound(name))
  {
    var contract := new PharmaChaincode(parseTime, decode);
    deleted := contract.DeleteMedicine(ctx, name);
  }

  /** Listing an empty ledger succeeds with an empty list. */
  method ListEmptyLedger(parseTime: string -> Option<Time>, decode: Payload -> Option<Medicine>)
    returns (listed: Result<seq<Medicine>>)
    ensures listed == Ok([])
  {
    var contract := new PharmaChaincode(parseTime, decode);
    listed := contract.ListMedicines();
  }

  /** A deleted name can be added again, by anyone, and its log keeps all
      three versions: the first write, the deletion and the new write. */
  method AddDeleteAdd(
    parseTime: string -> Option<Time>, decode: Payload -> Option<Medicine>,
    add: Context, delete: Context, readd: Context, name: string,
    quantity: int, manufactured: string, expires: string)
    returns (added: Outcome, deleted: Outcome, readded: Outcome, log: seq<Version>)
    requires parseTime(manufactured).Some? && parseTime(expires).Some?
    ensures added == Pass && deleted == Pass && readded == Pass
    ensures |log| == 3
    ensures log[0].txId == add.txId && log[0].payload.Written?
    ensures log[1].txId == delete.txId && log[1].payload == Deleted
    ensures log[2].txId == readd.txId && log[2].payload.Written?
  {
    var contract := new PharmaChaincode(parseTime, decode);
    added := contract.AddMedicine(add, name, quantity, manufactured, expires);
    deleted := contract.DeleteMedicine(delete, name);
    readded := contract.AddMedicine(readd, name, quantity, manufactured, expires);
    log := contract.Log(name);
  }

  /** A caller outside the allow-list asking for a missing medicine gets
      NotFound, not Unauthorized: existence is checked first. */
  method UnlistedCallerOnMissingName(
    parseTime: string -> Option<Time>, decode: Payload -> Option<Medicine>, ctx: Context, name: string, details: string)
    returns (requested: Outcome)
    requires ctx.caller !in AllowedRequesters
    ensures requested == Fail(NotFound(name))
  {
    var contract := new PharmaChaincode(parseTime, decode);
    requested := contract.RequestMedicine(ctx, name, details);
  }

  /** Add a medicine, list it, and request it twice: the listing holds
      exactly the added medicine, owned by the adding organisation, and
      the second request from the same organisation is refused. */
  method AspirinAddListRequest(
    parseTime: string -> Option<Time>, decode: Payload -> Option<Medicine>,
    manufactured: Time, expires: Time, now: Time)
    returns (added: Outcome, listed: Result<seq<Medicine>>, requested: Outcome, requestedAgain: Outcome)
    requires parseTime("2023-01-01T00:00:00Z") == Some(manufactured)
    requires parseTime("2025-01-01T00:00:00Z") == Some(expires)
    requires forall m :: decode(Written(MedicineRecord(m))) == Some(m)
    ensures added == Pass
    ensures listed == Ok([Medicine("Aspirin", 100, manufactured, expires, "ManufacturerMSP")])
    ensures requested == Pass
    ensures requestedAgain == Fail(AlreadyExists("Aspirin"))
  {
    var contract := new PharmaChaincode(parseTime, decode);
    added := contract.AddMedicine(Context("ManufacturerMSP", "tx1", now), "Aspirin", 100,
                                  "2023-01-01T00:00:00Z", "2025-01-01T00:00:00Z");
    ghost var aspirin := Medicine("Aspirin", 100, manufactured, expires, "ManufacturerMSP");
    assert contract.world == map["Aspirin" := MedicineRecord(aspirin)];
    listed := contract.ListMedicines();
    assert decode(Written(MedicineRecord(aspirin))) == Some(aspirin);
    DecodedValuesPick(contract.world, decode, {"Aspirin"}, "Aspirin");
    SingletonFromMultiset(listed.value, aspirin);
    requested := contract.RequestMedicine(Context("SupplierMSP", "tx2", now), "Aspirin", "urgent");
    requestedAgain := contract.RequestMedicine(Context("SupplierMSP", "tx3", now), "Aspirin", "again");
  }

  /** Add a medicine, request it, then delete it: the listing that
      follows still holds the request record, which the scan decodes like
      any other value, so it fails or returns one entry, never none. */
  method AspirinRequestDeleteList(
    parseTime: string -> Option<Time>, decode: Payload -> Option<Medicine>,
    manufactured: Time, expires: Time, now: Time)
    returns (deleted: Outcome, listed: Result<seq<Medicine>>)
    requires parseTime("2023-01-01T00:00:00Z") == Some(manufactured)
    requires parseTime("2025-01-01T00:00:00Z") == Some(expires)
    ensures deleted == Pass
    ensures listed.Ok? <==> decode(Written(RequestRecord(MedicineRequest("Aspirin", "SupplierMSP", "urgent")))).Some?
    ensures listed.Ok? ==> |listed.value| == 1
  {
    var contract := new PharmaChaincode(parseTime, decode);
    var added := contract.AddMedicine(Context("ManufacturerMSP", "tx1", now), "Aspirin", 100,
                                      "2023-01-01T00:00:00Z", "2025-01-01T00:00:00Z");
    ghost var requestKey := RequestKey("SupplierMSP", "Aspirin");
    ghost var request := RequestRecord(MedicineRequest("Aspirin", "SupplierMSP", "urgent"));
    RequestKeyIsNotName("SupplierMSP", "Aspirin");
    var requested := contract.RequestMedicine(Context("SupplierMSP", "tx2", now), "Aspirin", "urgent");
    deleted := contract.DeleteMedicine(Context("AnyMSP", "tx3", now), "Aspirin");
    assert "Aspirin" !in contract.world;
    assert requestKey in contract.world && contract.world[requestKey] == request;
    assert contract.world.Keys == {requestKey};
    listed := contract.ListMedicines();
    if listed.Ok? {
      DecodedValuesSize(contract.world, decode, contract.world.Keys);
      assert |multiset(listed.value)| == 1;
    }
  }

  /** After an add and a delete the log of the name holds two versions,
      and the history reports both only if the deletion marker decodes as
      a medicine; otherwise the whole call fails. */
  method AddDeleteHistory(
    parseTime: string -> Option<Time>, decode: Payload -> Option<Medicine>,
    add: Context, delete: Context, name: string, quantity: int, manufactureDate: string, expiryDate: string)
    returns (shown: Result<seq<MedicineHistory>>)
    requires parseTime(manufactureDate).Some? && parseTime(expiryDate).Some?
    ensures shown.Ok? <==>
      && decode(Deleted).Some?
      && decode(Written(MedicineRecord(Medicine(name, quantity, parseTime(manufactureDate).value,
                                                parseTime(expiryDate).value, add.caller)))).Some?
    ensures shown.Ok? ==> |shown.value| == 2 && shown.value[0].txId == add.txId && shown.value[1].txId == delete.txId
    ensures shown.Ok? ==> decode(Deleted) == Some(shown.value[1].value)
  {
    var contract := new PharmaChaincode(parseTime, decode);
    var added := contract.AddMedicine(add, name, quantity, manufactureDate, expiryDate);
    var deleted := contract.DeleteMedicine(delete, name);
    ghost var log := contract.Log(name);
    shown := contract.ShowMedicineHistory(name);
    if decode(Deleted).None? {
      assert decode(log[1].payload).None?;
    } else if decode(log[0].payload).Some? {
      assert forall i :: 0 <= i < |log| ==> decode(log[i].payload).Some?;
    }
  }

  /** Medicines and requests share one key space: a medicine cannot be
      added under a request's key, DeleteMedicine removes the request, and
      the same request can then be filed again. */
  method SharedKeySpace(
    parseTime: string -> Option<Time>, decode: Payload -> Option<Medicine>,
    ctx: Context, requester: Context, name: string, manufactured: string, expires: string)
    returns (requested: Outcome, addedUnderKey: Outcome, deletedRequest: Outcome, requestedAgain: Outcome)
    requires parseTime(manufactured).Some? && parseTime(expires).Some?
    requires requester.caller in AllowedRequesters
    ensures requested == Pass
    ensures addedUnderKey == Fail(AlreadyExists(RequestKey(requester.caller, name)))
    ensures deletedRequest == Pass
    ensures requestedAgain == Pass
  {
    var contract := new PharmaChaincode(parseTime, decode);
    var added := contract.AddMedicine(ctx, name, 1, manufactured, expires);
    requested := contract.RequestMedicine(requester, name, "");
    var key := RequestKey(requester.caller, name);
    addedUnderKey := contract.AddMedicine(ctx, key, 1, manufactured, expires);
    deletedRequest := contract.DeleteMedicine(ctx, key);
    requestedAgain := contract.RequestMedicine(requester, name, "");
  }
}
