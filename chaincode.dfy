/** The pharmaceutical inventory contract (contracts/pharma_chaincode.go)
    over an in-memory ledger: a world state mapping each key to its
    current value and, per key, the log of every version ever committed. */
module Chaincode {
  import opened Records
  import opened Names
  import opened Requests
  import opened Sorting

  /** The world state a set of history logs leaves behind: a key holds
      what its latest version wrote, and is absent when it has no version
      or its latest version is a deletion. */
  ghost function CurrentState(history: map<string, seq<Version>>): map<string, StoredValue>
  {
    map k | k in history && |history[k]| > 0 && history[k][|history[k]| - 1].payload.Written?
      :: history[k][|history[k]| - 1].payload.value
  }

  /** The multiset of the medicines the values under `keys` decode to. */
  ghost function DecodedValues(
    world: map<string, StoredValue>, decode: Payload -> Option<Medicine>, keys: set<string>): multiset<Medicine>
    requires keys <= world.Keys
    requires forall k :: k in keys ==> decode(Written(world[k])).Some?
    decreases keys
  {
    if keys == {} then multiset{}
    else
      var k :| k in keys;
      multiset{decode(Written(world[k])).value} + DecodedValues(world, decode, keys - {k})
  }

  /** DecodedValues does not depend on the order in which keys are taken. */
  lemma {:induction false} DecodedValuesPick(
    world: map<string, StoredValue>, decode: Payload -> Option<Medicine>, keys: set<string>, k: string)
    requires keys <= world.Keys
    requires forall j :: j in keys ==> decode(Written(world[j])).Some?
    requires k in keys
    ensures DecodedValues(world, decode, keys)
         == multiset{decode(Written(world[k])).value} + DecodedValues(world, decode, keys - {k})
    decreases keys
  {
    var x :| x in keys && DecodedValues(world, decode, keys)
                          == multiset{decode(Written(world[x])).value} + DecodedValues(world, decode, keys - {x});
    if x != k {
      DecodedValuesPick(world, decode, keys - {x}, k);
      DecodedValuesPick(world, decode, keys - {k}, x);
      assert keys - {x} - {k} == keys - {k} - {x};
    }
  }

  /** One decoded medicine per key: the list has as many entries as the
      world state has keys, request records included. */
  lemma {:induction false} DecodedValuesSize(
    world: map<string, StoredValue>, decode: Payload -> Option<Medicine>, keys: set<string>)
    requires keys <= world.Keys
    requires forall k :: k in keys ==> decode(Written(world[k])).Some?
    ensures |DecodedValues(world, decode, keys)| == |keys|
    decreases keys
  {
    if keys != {} {
      var k :| k in keys;
      DecodedValuesPick(world, decode, keys, k);
      DecodedValuesSize(world, decode, keys - {k});
    }
  }

  /** The value under every key of `keys` is among the decoded values. */
  lemma DecodedValuesHas(
    world: map<string, StoredValue>, decode: Payload -> Option<Medicine>, keys: set<string>, k: string)
    requires keys <= world.Keys
    requires forall j :: j in keys ==> decode(Written(world[j])).Some?
    requires k in keys
    ensures decode(Written(world[k])).value in DecodedValues(world, decode, keys)
  {
  }

  /** The history entry the contract reports for one version. */
  predicate ReportsVersion(e: MedicineHistory, v: Version, decode: Payload -> Option<Medicine>)
  {
    e.txId == v.txId && e.timestamp == v.timestamp && decode(v.payload) == Some(e.value)
  }

  class PharmaChaincode {
    /** Key to current value; medicines under their name, requests under
        their composite key. */
    var world: map<string, StoredValue>
    /** Key to its versions, oldest first. */
    var history: map<string, seq<Version>>
    /** Date-time parsing of the fixed RFC 3339 profile. */
    const parseTime: string -> Option<Time>
    /** Decoding of a stored value, or of a deletion marker, as a medicine. */
    const decode: Payload -> Option<Medicine>

    /** Every logged key has at least one version, and the world state is
        exactly what the latest versions leave behind. */
    ghost predicate Valid()
      reads this
    {
      && (forall k :: k in history ==> |history[k]| > 0)
      && world == CurrentState(history)
    }

    /** The versions of `key`, oldest first; empty for a key never written. */
    function Log(key: string): seq<Version>
      reads this
    {
      if key in history then history[key] else []
    }

    /** The existence checks and the history agree: a key is in the world
        state exactly when its log is non-empty and its latest version is a
        write, which then holds the current value. */
    lemma PresentIffLastWritten(key: string)
      requires Valid()
      ensures key in world <==> |Log(key)| > 0 && Log(key)[|Log(key)| - 1].payload.Written?
      ensures key in world ==> world[key] == Log(key)[|Log(key)| - 1].payload.value
    {
    }

    /** A ledger with no keys. */
    constructor (parseTime: string -> Option<Time>, decode: Payload -> Option<Medicine>)
      ensures Valid()
      ensures world == map[] && history == map[]
      ensures this.parseTime == parseTime && this.decode == decode
    {
      world := map[];
      history := map[];
      this.parseTime := parseTime;
      this.decode := decode;
      new;
      assert CurrentState(history) == map[];
    }

    /** The ledger's put: sets the key and appends a version to its log. */
    method PutState(ctx: Context, key: string, value: StoredValue)
      requires Valid()
      modifies this
      ensures Valid()
      ensures world == old(world)[key := value]
      ensures history == old(history)[key := old(Log(key)) + [Version(ctx.txId, ctx.timestamp, Written(value))]]
    {
      history := history[key := Log(key) + [Version(ctx.txId, ctx.timestamp, Written(value))]];
      world := world[key := value];
      assert world == CurrentState(history);
    }

    /** The ledger's delete: removes the key and appends a deletion marker
        to its log. */
    method DelState(ctx: Context, key: string)
      requires Valid()
      modifies this
      ensures Valid()
      ensures world == old(world) - {key}
      ensures history == old(history)[key := old(Log(key)) + [Version(ctx.txId, ctx.timestamp, Deleted)]]
    {
      history := history[key := Log(key) + [Version(ctx.txId, ctx.timestamp, Deleted)]];
      world := world - {key};
      assert world == CurrentState(history);
    }

    /** Adds a medicine under its name, owned by the calling organisation.
        The name is checked first, then the manufacture date, then the
        expiry date; quantity and the order of the dates are not checked. */
    method AddMedicine(ctx: Context, name: string, quantity: int, manufactureDate: string, expiryDate: string)
      returns (r: Outcome)
      requires Valid()
      modifies this
      ensures Valid()
      ensures r.Pass? <==> name !in old(world) && parseTime(manufactureDate).Some? && parseTime(expiryDate).Some?
      ensures name in old(world) ==> r == Fail(AlreadyExists(name))
      ensures name !in old(world) && parseTime(manufactureDate).None? ==> r == Fail(InvalidDate(ManufactureDate))
      ensures name !in old(world) && parseTime(manufactureDate).Some? && parseTime(expiryDate).None?
              ==> r == Fail(InvalidDate(ExpiryDate))
      ensures r.Fail? ==> world == old(world) && history == old(history)
      ensures r.Pass? ==>
        var medicine := Medicine(name, quantity, parseTime(manufactureDate).value, parseTime(expiryDate).value, ctx.caller);
        && world == old(world)[name := MedicineRecord(medicine)]
        && history == old(history)[name := old(Log(name)) + [Version(ctx.txId, ctx.timestamp, Written(MedicineRecord(medicine)))]]
    {
      if name in world {
        return Fail(AlreadyExists(name));
      }
      var manufactured := parseTime(manufactureDate);
      if manufactured.None? {
        return Fail(InvalidDate(ManufactureDate));
      }
      var expires := parseTime(expiryDate);
      if expires.None? {
        return Fail(InvalidDate(ExpiryDate));
      }
      var medicine := Medicine(name, quantity, manufactured.value, expires.value, ctx.caller);
      PutState(ctx, name, MedicineRecord(medicine));
      r := Pass;
    }

    /** Removes whatever is stored under `name`, for any caller. */
    method DeleteMedicine(ctx: Context, name: string) returns (r: Outcome)
      requires Valid()
      modifies this
      ensures Valid()
      ensures r.Pass? <==> name in old(world)
      ensures r.Fail? ==> r.error == NotFound(name) && world == old(world) && history == old(history)
      ensures r.Pass? ==>
        && world == old(world) - {name}
        && history == old(history)[name := old(Log(name)) + [Version(ctx.txId, ctx.timestamp, Deleted)]]
    {
      if name !in world {
        return Fail(NotFound(name));
      }
      DelState(ctx, name);
      r := Pass;
    }

    /** All stored values, each decoded as a medicine, sorted by name. The
        scan covers the whole key space, so request records are decoded
        too, and one value that does not decode fails the whole call. */
    method ListMedicines() returns (r: Result<seq<Medicine>>)
      ensures r.Err? <==> exists k :: k in world && decode(Written(world[k])).None?
      ensures r.Err? ==> r.error == UndecodableValue
      ensures r.Ok? ==> SortedByName(r.value)
      ensures r.Ok? ==> multiset(r.value) == DecodedValues(world, decode, world.Keys)
    {
      // the range scan returns keys in byte order
      var remaining := world.Keys;
      var medicines: seq<Medicine> := [];
      while remaining != {}
        invariant remaining <= world.Keys
        invariant forall k :: k in world.Keys - remaining ==> decode(Written(world[k])).Some?
        invariant multiset(medicines) == DecodedValues(world, decode, world.Keys - remaining)
        decreases remaining
      {
        FirstKeyExists(remaining);
        var key :| IsFirstKey(key, remaining);
        var decoded := decode(Written(world[key]));
        if decoded.None? {
          return Err(UndecodableValue);
        }
        ghost var done := world.Keys - remaining;
        DecodedValuesPick(world, decode, done + {key}, key);
        assert (done + {key}) - {key} == done;
        medicines := medicines + [decoded.value];
        remaining := remaining - {key};
        assert world.Keys - remaining == done + {key};
      }
      assert world.Keys - remaining == world.Keys;
      var sorted := new Medicine[|medicines|](i requires 0 <= i < |medicines| => medicines[i]);
      assert sorted[..] == medicines;
      SortByName(sorted);
      r := Ok(sorted[..]);
    }

    /** One entry per version of `name`, in log order, each decoded as a
        medicine; deletion markers go through the same decoding, and one
        version that does not decode fails the whole call. */
    method ShowMedicineHistory(name: string) returns (r: Result<seq<MedicineHistory>>)
      ensures r.Err? <==> exists i :: 0 <= i < |Log(name)| && decode(Log(name)[i].payload).None?
      ensures r.Err? ==> r.error == UndecodableValue
      ensures r.Ok? ==> |r.value| == |Log(name)|
      ensures r.Ok? ==> forall i :: 0 <= i < |r.value| ==> ReportsVersion(r.value[i], Log(name)[i], decode)
    {
      var versions := Log(name);
      var entries: seq<MedicineHistory> := [];
      var i := 0;
      while i < |versions|
        invariant 0 <= i <= |versions|
        invariant |entries| == i
        invariant forall j :: 0 <= j < i ==> ReportsVersion(entries[j], versions[j], decode)
      {
        var decoded := decode(versions[i].payload);
        if decoded.None? {
          return Err(UndecodableValue);
        }
        entries := entries + [MedicineHistory(versions[i].txId, decoded.value, versions[i].timestamp)];
        i := i + 1;
      }
      r := Ok(entries);
    }

    /** Records the caller's request for an existing medicine. The name is
        checked first, then the caller against the allow-list, then the
        request key for an earlier request. */
    method RequestMedicine(ctx: Context, name: string, details: string) returns (r: Outcome)
      requires Valid()
      modifies this
      ensures Valid()
      ensures r.Pass? <==>
        name in old(world) && ctx.caller in AllowedRequesters && RequestKey(ctx.caller, name) !in old(world)
      ensures name !in old(world) ==> r == Fail(NotFound(name))
      ensures name in old(world) && ctx.caller !in AllowedRequesters ==> r == Fail(Unauthorized(ctx.caller))
      ensures name in old(world) && ctx.caller in AllowedRequesters && RequestKey(ctx.caller, name) in old(world)
              ==> r == Fail(AlreadyExists(name))
      ensures r.Fail? ==> world == old(world) && history == old(history)
      ensures r.Pass? ==>
        var key := RequestKey(ctx.caller, name);
        var request := RequestRecord(MedicineRequest(name, ctx.caller, details));
        && world == old(world)[key := request]
        && history == old(history)[key := old(Log(key)) + [Version(ctx.txId, ctx.timestamp, Written(request))]]
      ensures r.Pass? ==> name in world && world[name] == old(world)[name]
    {
      if name !in world {
        return Fail(NotFound(name));
      }
      var requester := ctx.caller;
      if requester !in AllowedRequesters {
        return Fail(Unauthorized(requester));
      }
      var key := RequestKey(requester, name);
      if key in world {
        return Fail(AlreadyExists(name));
      }
      RequestKeyIsNotName(requester, name);
      PutState(ctx, key, RequestRecord(MedicineRequest(name, requester, details)));
      r := Pass;
    }
  }
}
