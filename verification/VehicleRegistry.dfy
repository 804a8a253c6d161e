/**
 The VIN ownership index and the vehicle records behind it, and the telemetry route resolved through
 both of them and the allowlist.

 Hashes are injective: the index is keyed by the VIN and a stable vehicle ID is made of the owner and
 the VIN. A transaction that raises changes nothing.
 */
module VehicleRegistry {
  import opened Wrappers
  import IdentityBinding
  import opened Email

  datatype VehicleId = NoId | Stable(owner: string, vin: string)

  datatype TeslaVehicle = TeslaVehicle(vin: string, teslaId: string, displayName: Option<string>, state: Option<string>)

  datatype FleetStatus = FleetStatus(vin: string, keyPaired: Option<bool>, protocolRequired: Option<bool>,
                                     firmware: Option<string>, telemetryVersion: Option<string>, totalKeys: Option<int>)

  datatype Authorization = Active | NotReturned

  /** The fields that only the telemetry control plane writes. */
  datatype TelemetryFields = TelemetryFields(version: Option<string>, hash: Option<string>, fieldHash: Option<string>,
                                             trustId: Option<string>, trustHash: Option<string>, status: string,
                                             optIn: bool)

  const NOT_CONFIGURED := TelemetryFields(None, None, None, None, None, "not_configured", false)

  datatype VehicleDoc = VehicleDoc(owner: string, connection: string, vin: string, teslaId: string,
                                   displayName: Option<string>, state: Option<string>, authorization: Authorization,
                                   virtualKey: string, protocolRequired: Option<bool>, firmware: Option<string>,
                                   telemetryVersion: Option<string>, totalKeys: Option<int>, telemetry: TelemetryFields)

  datatype IndexEntry = IndexEntry(owner: string, vehicleId: VehicleId)

  datatype Registry = Registry(index: map<string, IndexEntry>, vehicles: map<VehicleId, VehicleDoc>)

  datatype RegistryError = OwnershipConflict | IndexInvalid | NoSuchVehicle | CrossUserAccess | NoLongerReturned

  function VirtualKeyStatus(status: Option<FleetStatus>): string {
    if status.None? || status.value.keyPaired.None? then "unknown"
    else if status.value.keyPaired.value then "paired" else "pending"
  }

  // ---------------------------------------------------------------------------------------------
  // Synchronising one connection's vehicles

  /** The ID under which a returned vehicle is stored, by the index as the transaction read it. */
  function VehicleIdFor(index: map<string, IndexEntry>, owner: string, vin: string): Result<VehicleId, RegistryError> {
    if vin !in index then Ok(Stable(owner, vin))
    else if index[vin].owner != owner then Err(OwnershipConflict)
    else if index[vin].vehicleId == NoId then Err(IndexInvalid)
    else Ok(index[vin].vehicleId)
  }

  /** A VIN is bound to the stored ID of its own owner's entry or, without an entry, to the stable one. */
  lemma BoundIdExactly(index: map<string, IndexEntry>, owner: string, vin: string, id: VehicleId)
    ensures VehicleIdFor(index, owner, vin) == Ok(id) <==>
              if vin in index then index[vin] == IndexEntry(owner, id) && id.Stable? else id == Stable(owner, vin)
    ensures VehicleIdFor(index, owner, vin) == Err(OwnershipConflict) <==> vin in index && index[vin].owner != owner
    ensures VehicleIdFor(index, owner, vin) == Err(IndexInvalid)
            <==> vin in index && index[vin] == IndexEntry(owner, NoId)
  {
  }

  /** The merged document: everything Tesla reports is replaced, telemetry fields are kept. */
  function Merged(vehicles: map<VehicleId, VehicleDoc>, id: VehicleId, owner: string, connection: string,
                  v: TeslaVehicle, status: Option<FleetStatus>): VehicleDoc
  {
    VehicleDoc(owner, connection, v.vin, v.teslaId, v.displayName, v.state, Active, VirtualKeyStatus(status),
               if status.Some? then status.value.protocolRequired else None,
               if status.Some? then status.value.firmware else None,
               if status.Some? then status.value.telemetryVersion else None,
               if status.Some? then status.value.totalKeys else None,
               if id in vehicles then vehicles[id].telemetry else NOT_CONFIGURED)
  }

  /** The virtual key reads as paired or pending if the fleet status says so, and otherwise as unknown. */
  predicate KeyReads(virtualKey: string, keyPaired: Option<bool>) {
    match keyPaired
    case Some(true) => virtualKey == "paired"
    case Some(false) => virtualKey == "pending"
    case None => virtualKey == "unknown"
  }

  /** The record says of a vehicle what Tesla reported: identity and state from its listing, and key,
      protocol, firmware, client version and number of keys from its fleet status, if there was one. */
  ghost predicate Reports(doc: VehicleDoc, q: SyncRequest, v: TeslaVehicle) {
    && doc.owner == q.owner && doc.connection == q.connection && doc.authorization == Active
    && doc.vin == v.vin && doc.teslaId == v.teslaId && doc.displayName == v.displayName && doc.state == v.state
    && if v.vin in q.statuses then
         var status := q.statuses[v.vin];
         && KeyReads(doc.virtualKey, status.keyPaired)
         && doc.protocolRequired == status.protocolRequired && doc.firmware == status.firmware
         && doc.telemetryVersion == status.telemetryVersion && doc.totalKeys == status.totalKeys
       else
         && KeyReads(doc.virtualKey, None)
         && doc.protocolRequired == None && doc.firmware == None && doc.telemetryVersion == None
         && doc.totalKeys == None
  }

  lemma MergedReports(vehicles: map<VehicleId, VehicleDoc>, id: VehicleId, q: SyncRequest, v: TeslaVehicle)
    ensures Reports(Merged(vehicles, id, q.owner, q.connection, v, StatusOf(q.statuses, v.vin)), q, v)
    ensures Merged(vehicles, id, q.owner, q.connection, v, StatusOf(q.statuses, v.vin)).telemetry
            == if id in vehicles then vehicles[id].telemetry else NOT_CONFIGURED
  {
  }

  function StatusOf(statuses: map<string, FleetStatus>, vin: string): Option<FleetStatus> {
    if vin in statuses then Some(statuses[vin]) else None
  }

  datatype SyncRequest = SyncRequest(owner: string, connection: string, vehicles: seq<TeslaVehicle>,
                                     statuses: map<string, FleetStatus>)

  function Put(base: Registry, now: Registry, q: SyncRequest, v: TeslaVehicle): Registry
    requires VehicleIdFor(base.index, q.owner, v.vin).Ok?
  {
    var id := VehicleIdFor(base.index, q.owner, v.vin).value;
    Registry(now.index[v.vin := IndexEntry(q.owner, id)],
             now.vehicles[id := Merged(now.vehicles, id, q.owner, q.connection, v, StatusOf(q.statuses, v.vin))])
  }

  ghost predicate Bindable(base: Registry, q: SyncRequest, k: nat) {
    k <= |q.vehicles| && forall i :: 0 <= i < k ==> VehicleIdFor(base.index, q.owner, q.vehicles[i].vin).Ok?
  }

  /** The registry after the first k returned vehicles. */
  ghost function PutFirst(base: Registry, q: SyncRequest, k: nat): Registry
    requires Bindable(base, q, k)
  {
    if k == 0 then base else Put(base, PutFirst(base, q, k - 1), q, q.vehicles[k - 1])
  }

  ghost function ActiveIds(base: Registry, q: SyncRequest, k: nat): set<VehicleId>
    requires Bindable(base, q, k)
  {
    set i | 0 <= i < k :: VehicleIdFor(base.index, q.owner, q.vehicles[i].vin).value
  }

  /** Whether a record the transaction read belongs to this connection but was not returned. */
  predicate Missing(doc: VehicleDoc, id: VehicleId, q: SyncRequest, active: set<VehicleId>) {
    doc.owner == q.owner && id !in active && doc.connection == q.connection
  }

  /** The records of this connection that were not returned, among those in `done`, are marked. */
  ghost function WithMissing(base: Registry, now: Registry, q: SyncRequest, active: set<VehicleId>,
                             done: set<VehicleId>): Registry {
    now.(vehicles := map id | id in now.vehicles ::
                       if id in done && id in base.vehicles && Missing(base.vehicles[id], id, q, active)
                       then now.vehicles[id].(authorization := NotReturned) else now.vehicles[id])
  }

  lemma NoneMarked(base: Registry, now: Registry, q: SyncRequest, active: set<VehicleId>)
    ensures WithMissing(base, now, q, active, {}) == now
  {
    assert WithMissing(base, now, q, active, {}).vehicles == now.vehicles;
  }

  /** Considering one more of the user's records marks it, if it is missing, and no other. */
  lemma OneMoreMarked(base: Registry, now: Registry, q: SyncRequest, active: set<VehicleId>, done: set<VehicleId>,
                      id: VehicleId)
    requires id in base.vehicles && id in now.vehicles && id !in done && base.vehicles[id].owner == q.owner
    ensures var before := WithMissing(base, now, q, active, done);
            && id in before.vehicles
            && WithMissing(base, now, q, active, done + {id})
               == if id !in active && base.vehicles[id].connection == q.connection
                  then before.(vehicles := before.vehicles[id := before.vehicles[id].(authorization := NotReturned)])
                  else before
  {
    hide Missing;
    var before := WithMissing(base, now, q, active, done);
    var after := WithMissing(base, now, q, active, done + {id});
    MissingOwn(base.vehicles[id], id, q, active);
    if id !in active && base.vehicles[id].connection == q.connection {
      assert after.vehicles == before.vehicles[id := before.vehicles[id].(authorization := NotReturned)];
    } else {
      assert after.vehicles == before.vehicles;
    }
  }

  lemma MissingOwn(doc: VehicleDoc, id: VehicleId, q: SyncRequest, active: set<VehicleId>)
    requires doc.owner == q.owner
    ensures Missing(doc, id, q, active) <==> id !in active && doc.connection == q.connection
  {
  }

  /** Records of other users are never missing. */
  lemma OthersAreNotMissing(base: Registry, now: Registry, q: SyncRequest, active: set<VehicleId>,
                            existing: set<VehicleId>)
    requires existing == set id | id in base.vehicles && base.vehicles[id].owner == q.owner
    ensures WithMissing(base, now, q, active, existing) == WithMissing(base, now, q, active, base.vehicles.Keys)
  {
    assert WithMissing(base, now, q, active, existing).vehicles
            == WithMissing(base, now, q, active, base.vehicles.Keys).vehicles;
  }

  ghost function Synced(base: Registry, q: SyncRequest): Registry
    requires Bindable(base, q, |q.vehicles|)
  {
    WithMissing(base, PutFirst(base, q, |q.vehicles|), q, ActiveIds(base, q, |q.vehicles|), base.vehicles.Keys)
  }

  // ---------------------------------------------------------------------------------------------
  // The invariant

  /** Index entries and vehicle records agree on owner and VIN, one for one. */
  ghost predicate Agrees(r: Registry) {
    && (forall vin :: vin in r.index ==>
          var e := r.index[vin];
          e.vehicleId == Stable(e.owner, vin) && e.vehicleId in r.vehicles)
    && (forall id :: id in r.vehicles ==>
          id.Stable? && r.vehicles[id].owner == id.owner && r.vehicles[id].vin == id.vin
          && id.vin in r.index && r.index[id.vin] == IndexEntry(id.owner, id))
  }

  lemma AgreedId(r: Registry, owner: string, vin: string)
    requires Agrees(r)
    ensures VehicleIdFor(r.index, owner, vin)
            == if vin in r.index && r.index[vin].owner != owner then Err(OwnershipConflict) else Ok(Stable(owner, vin))
  {
  }

  /** What the first k vehicles change, and what they leave alone. */
  ghost predicate Progress(base: Registry, now: Registry, q: SyncRequest, k: nat)
    requires k <= |q.vehicles|
  {
    Agrees(now) && IndexGrows(base, now, q) && TelemetryKept(base, now) && OthersKept(base, now, q, k)
    && Listed(now, q, k)
  }

  ghost predicate IndexGrows(base: Registry, now: Registry, q: SyncRequest) {
    && (forall vin :: vin in base.index ==> vin in now.index && now.index[vin] == base.index[vin])
    && (forall vin :: vin in now.index && vin !in base.index ==> now.index[vin].owner == q.owner)
  }

  ghost predicate TelemetryKept(base: Registry, now: Registry) {
    && (forall id :: id in base.vehicles ==>
             id in now.vehicles && now.vehicles[id].telemetry == base.vehicles[id].telemetry)
    && (forall id :: id in now.vehicles && id !in base.vehicles ==> now.vehicles[id].telemetry == NOT_CONFIGURED)
  }

  ghost predicate OthersKept(base: Registry, now: Registry, q: SyncRequest, k: nat)
    requires k <= |q.vehicles|
  {
    forall id :: id in now.vehicles && !Returned(q, id, k) ==>
         id in base.vehicles && now.vehicles[id] == base.vehicles[id]
  }

  ghost predicate Listed(now: Registry, q: SyncRequest, k: nat)
    requires k <= |q.vehicles|
  {
    forall id :: Returned(q, id, k) ==>
      id in now.vehicles && now.vehicles[id].owner == q.owner
      && now.vehicles[id].authorization == Active && now.vehicles[id].connection == q.connection
  }

  /** The ID stands for one of the first k returned vehicles. */
  ghost predicate Returned(q: SyncRequest, id: VehicleId, k: nat)
    requires k <= |q.vehicles|
  {
    exists i :: 0 <= i < k && id == Stable(q.owner, q.vehicles[i].vin)
  }

  lemma {:induction false} PutFirstProgresses(base: Registry, q: SyncRequest, k: nat)
    requires Agrees(base) && Bindable(base, q, k)
    ensures Progress(base, PutFirst(base, q, k), q, k)
  {
    hide Agrees, Put, Progress;
    if k == 0 {
      NothingPutProgresses(base, q);
    } else {
      PutFirstProgresses(base, q, k - 1);
      PutProgresses(base, PutFirst(base, q, k - 1), q, k - 1);
    }
  }

  lemma NothingPutProgresses(base: Registry, q: SyncRequest)
    requires Agrees(base)
    ensures Progress(base, base, q, 0)
  {
  }

  lemma PutShape(base: Registry, now: Registry, q: SyncRequest, v: TeslaVehicle)
    requires Agrees(base) && VehicleIdFor(base.index, q.owner, v.vin).Ok?
    ensures Writes(now, Put(base, now, q, v), q, v)
    ensures v.vin in base.index ==> base.index[v.vin].owner == q.owner
  {
  }

  lemma PutProgresses(base: Registry, now: Registry, q: SyncRequest, k: nat)
    requires Agrees(base) && k < |q.vehicles| && Progress(base, now, q, k)
    requires VehicleIdFor(base.index, q.owner, q.vehicles[k].vin).Ok?
    ensures Progress(base, Put(base, now, q, q.vehicles[k]), q, k + 1)
  {
    var v := q.vehicles[k];
    var after := Put(base, now, q, v);
    PutShape(base, now, q, v);
    hide Put, VehicleIdFor, Agrees;
    PutAgrees(base, now, after, q, v);
    PutGrowsIndex(base, now, after, q, v);
    PutTouches(base, now, after, q, k);
  }

  lemma ReturnedOneMore(q: SyncRequest, k: nat)
    requires k < |q.vehicles|
    ensures forall x :: Returned(q, x, k + 1) <==> Returned(q, x, k) || x == Stable(q.owner, q.vehicles[k].vin)
  {
    forall x ensures Returned(q, x, k + 1) <==> Returned(q, x, k) || x == Stable(q.owner, q.vehicles[k].vin) {
      if Returned(q, x, k) {
        var i :| 0 <= i < k && x == Stable(q.owner, q.vehicles[i].vin);
        assert 0 <= i < k + 1;
      }
      assert x == Stable(q.owner, q.vehicles[k].vin) ==> Returned(q, x, k + 1);
    }
  }

  /** The one document and the one index entry that a vehicle's step writes. */
  ghost predicate Writes(now: Registry, after: Registry, q: SyncRequest, v: TeslaVehicle) {
    var id := Stable(q.owner, v.vin);
    && after.index == now.index[v.vin := IndexEntry(q.owner, id)]
    && id in after.vehicles && after.vehicles == now.vehicles[id := after.vehicles[id]]
    && after.vehicles[id].owner == q.owner && after.vehicles[id].vin == v.vin
    && after.vehicles[id].connection == q.connection && after.vehicles[id].authorization == Active
    && after.vehicles[id].telemetry == if id in now.vehicles then now.vehicles[id].telemetry else NOT_CONFIGURED
  }

  lemma PutAgrees(base: Registry, now: Registry, after: Registry, q: SyncRequest, v: TeslaVehicle)
    requires Agrees(now) && Agrees(base) && IndexGrows(base, now, q) && Writes(now, after, q, v)
    requires v.vin in base.index ==> base.index[v.vin].owner == q.owner
    ensures Agrees(after)
  {
    hide IndexGrows;
    if v.vin in now.index {
      IndexedByOwner(base, now, q, v.vin);
    }
  }

  lemma IndexedByOwner(base: Registry, now: Registry, q: SyncRequest, vin: string)
    requires Agrees(now) && Agrees(base) && IndexGrows(base, now, q) && vin in now.index
    requires vin in base.index ==> base.index[vin].owner == q.owner
    ensures now.index[vin] == IndexEntry(q.owner, Stable(q.owner, vin))
  {
  }

  lemma PutGrowsIndex(base: Registry, now: Registry, after: Registry, q: SyncRequest, v: TeslaVehicle)
    requires Agrees(now) && Agrees(base) && IndexGrows(base, now, q) && Writes(now, after, q, v)
    requires v.vin in base.index ==> base.index[v.vin].owner == q.owner
    ensures IndexGrows(base, after, q)
  {
  }

  lemma PutTouches(base: Registry, now: Registry, after: Registry, q: SyncRequest, k: nat)
    requires k < |q.vehicles| && TelemetryKept(base, now) && OthersKept(base, now, q, k) && Listed(now, q, k)
    requires Writes(now, after, q, q.vehicles[k])
    ensures TelemetryKept(base, after) && OthersKept(base, after, q, k + 1) && Listed(after, q, k + 1)
  {
    hide TelemetryKept, OthersKept, Listed, Writes;
    PutKeepsTelemetry(base, now, after, q, q.vehicles[k]);
    PutKeepsOthers(base, now, after, q, k);
    PutLists(now, after, q, k);
  }

  lemma PutKeepsTelemetry(base: Registry, now: Registry, after: Registry, q: SyncRequest, v: TeslaVehicle)
    requires TelemetryKept(base, now) && Writes(now, after, q, v)
    ensures TelemetryKept(base, after)
  {
  }

  lemma PutKeepsOthers(base: Registry, now: Registry, after: Registry, q: SyncRequest, k: nat)
    requires k < |q.vehicles| && OthersKept(base, now, q, k) && Writes(now, after, q, q.vehicles[k])
    ensures OthersKept(base, after, q, k + 1)
  {
    ReturnedOneMore(q, k);
    hide Returned;
  }

  lemma PutLists(now: Registry, after: Registry, q: SyncRequest, k: nat)
    requires k < |q.vehicles| && Listed(now, q, k) && Writes(now, after, q, q.vehicles[k])
    ensures Listed(after, q, k + 1)
  {
    ReturnedOneMore(q, k);
    hide Returned;
  }

  /** A synchronisation fails exactly if a returned VIN belongs to someone else. When it succeeds the
      index and the records still agree, no VIN changes owner, telemetry fields survive, other users'
      records are untouched, and the connection's active vehicles are exactly those returned. */
  lemma SyncMeaning(base: Registry, q: SyncRequest)
    requires Agrees(base)
    ensures Bindable(base, q, |q.vehicles|) <==>
              !exists i :: 0 <= i < |q.vehicles| && q.vehicles[i].vin in base.index
                             && base.index[q.vehicles[i].vin].owner != q.owner
    ensures Bindable(base, q, |q.vehicles|) ==>
              var after := Synced(base, q);
              && Agrees(after)
              && (forall vin :: vin in base.index ==> vin in after.index && after.index[vin] == base.index[vin])
              && (forall id :: id in base.vehicles ==>
                       id in after.vehicles && after.vehicles[id].telemetry == base.vehicles[id].telemetry)
              && (forall id :: id in base.vehicles && base.vehicles[id].owner != q.owner ==>
                       after.vehicles[id] == base.vehicles[id])
              && (forall id :: id in after.vehicles ==>
                    (after.vehicles[id].owner == q.owner && after.vehicles[id].connection == q.connection
                     && after.vehicles[id].authorization == Active
                     <==> Returned(q, id, |q.vehicles|)))
              && (forall i :: 0 <= i < |q.vehicles| ==> Stable(q.owner, q.vehicles[i].vin) in after.vehicles)
  {
    forall i | 0 <= i < |q.vehicles| ensures VehicleIdFor(base.index, q.owner, q.vehicles[i].vin)
        == if q.vehicles[i].vin in base.index && base.index[q.vehicles[i].vin].owner != q.owner
           then Err(OwnershipConflict)
           else Ok(Stable(q.owner, q.vehicles[i].vin))
    {
      AgreedId(base, q.owner, q.vehicles[i].vin);
    }
    if Bindable(base, q, |q.vehicles|) {
      PutFirstProgresses(base, q, |q.vehicles|);
      ActiveIdsAreReturned(base, q);
      MissingMeaning(base, PutFirst(base, q, |q.vehicles|), q, ActiveIds(base, q, |q.vehicles|));
    }
  }

  lemma ActiveIdsAreReturned(base: Registry, q: SyncRequest)
    requires Agrees(base) && Bindable(base, q, |q.vehicles|)
    ensures forall id :: id in ActiveIds(base, q, |q.vehicles|) <==> Returned(q, id, |q.vehicles|)
  {
  }

  lemma MissingAgrees(base: Registry, now: Registry, q: SyncRequest, active: set<VehicleId>)
    requires Agrees(now)
    ensures Agrees(WithMissing(base, now, q, active, base.vehicles.Keys))
    ensures WithMissing(base, now, q, active, base.vehicles.Keys).vehicles.Keys == now.vehicles.Keys
  {
  }

  lemma ReturnedBelongs(base: Registry, now: Registry, q: SyncRequest)
    requires Progress(base, now, q, |q.vehicles|)
    ensures forall id :: Returned(q, id, |q.vehicles|) ==> id in now.vehicles && now.vehicles[id].owner == q.owner
  {
  }

  lemma MissingMeaning(base: Registry, now: Registry, q: SyncRequest, active: set<VehicleId>)
    requires Agrees(base) && Progress(base, now, q, |q.vehicles|)
    requires forall id :: id in active <==> Returned(q, id, |q.vehicles|)
    ensures var after := WithMissing(base, now, q, active, base.vehicles.Keys);
            && Agrees(after) && after.index == now.index
            && (forall id :: id in base.vehicles ==>
                     id in after.vehicles && after.vehicles[id].telemetry == base.vehicles[id].telemetry)
            && (forall id :: id in base.vehicles && base.vehicles[id].owner != q.owner ==>
                     after.vehicles[id] == base.vehicles[id])
            && (forall id :: id in after.vehicles ==>
                  (after.vehicles[id].owner == q.owner && after.vehicles[id].connection == q.connection
                   && after.vehicles[id].authorization == Active
                   <==> id in active))
            && (forall id :: id in now.vehicles ==> id in after.vehicles)
  {
    ReturnedBelongs(base, now, q);
    MissingAgrees(base, now, q, active);
    OthersKeepOwner(base, q);
    hide Returned, Agrees;
    forall id | id in now.vehicles
      ensures var after := WithMissing(base, now, q, active, base.vehicles.Keys);
              Mine(after.vehicles[id], q) && after.vehicles[id].authorization == Active <==> id in active
    {
      MarkedExactly(base, now, q, active, id);
    }
    assert TelemetryKept(base, now);
    hide Progress;
  }

  predicate Mine(doc: VehicleDoc, q: SyncRequest) {
    doc.owner == q.owner && doc.connection == q.connection
  }

  lemma MarkedExactly(base: Registry, now: Registry, q: SyncRequest, active: set<VehicleId>, id: VehicleId)
    requires Progress(base, now, q, |q.vehicles|) && id in now.vehicles
    requires forall id :: id in active <==> Returned(q, id, |q.vehicles|)
    ensures var after := WithMissing(base, now, q, active, base.vehicles.Keys);
            Mine(after.vehicles[id], q) && after.vehicles[id].authorization == Active <==> id in active
  {
    hide Returned, Agrees, IndexGrows, TelemetryKept;
    assert id !in active ==> id in base.vehicles && now.vehicles[id] == base.vehicles[id];
  }

  lemma OthersKeepOwner(base: Registry, q: SyncRequest)
    requires Agrees(base)
    ensures forall id :: id in base.vehicles && Returned(q, id, |q.vehicles|) ==> base.vehicles[id].owner == q.owner
  {
  }

  /** What a successful synchronisation stores for each vehicle: the last report under its VIN. */
  lemma {:induction false} LastReportIsStored(base: Registry, q: SyncRequest, k: nat, i: nat)
    requires Agrees(base) && Bindable(base, q, k) && i < k
    requires forall j :: i < j < k ==> q.vehicles[j].vin != q.vehicles[i].vin
    ensures var id := Stable(q.owner, q.vehicles[i].vin);
            id in PutFirst(base, q, k).vehicles && PutFirst(base, q, k).vehicles[id]
            == Merged(base.vehicles, id, q.owner, q.connection, q.vehicles[i], StatusOf(q.statuses, q.vehicles[i].vin))
  {
    hide Agrees, OthersKept, IndexGrows, Listed, Merged, TelemetryKept, StatusOf;
    AgreedId(base, q.owner, q.vehicles[k - 1].vin);
    if i < k - 1 {
      hide Put, VehicleIdFor;
      LastReportIsStored(base, q, k - 1, i);
      PutElsewhere(base, PutFirst(base, q, k - 1), q, q.vehicles[k - 1], Stable(q.owner, q.vehicles[i].vin));
    } else {
      hide VehicleIdFor;
      PutFirstProgresses(base, q, k - 1);
      MergeKeepsTelemetry(base, PutFirst(base, q, k - 1), Stable(q.owner, q.vehicles[i].vin), q, q.vehicles[i]);
    }
  }

  lemma PutElsewhere(base: Registry, now: Registry, q: SyncRequest, v: TeslaVehicle, id: VehicleId)
    requires VehicleIdFor(base.index, q.owner, v.vin).Ok? && VehicleIdFor(base.index, q.owner, v.vin).value != id
    requires id in now.vehicles
    ensures id in Put(base, now, q, v).vehicles && Put(base, now, q, v).vehicles[id] == now.vehicles[id]
  {
  }

  lemma MergeKeepsTelemetry(base: Registry, now: Registry, id: VehicleId, q: SyncRequest, v: TeslaVehicle)
    requires TelemetryKept(base, now)
    ensures Merged(now.vehicles, id, q.owner, q.connection, v, StatusOf(q.statuses, v.vin))
            == Merged(base.vehicles, id, q.owner, q.connection, v, StatusOf(q.statuses, v.vin))
  {
  }

  /** Record by record: the last report under a VIN is stored over the kept telemetry fields, a record
      of the connection that was not returned is marked and nothing else in it changes, and every
      other record is untouched. */
  lemma SyncedRecords(base: Registry, q: SyncRequest, i: nat, id: VehicleId)
    requires Agrees(base) && Bindable(base, q, |q.vehicles|)
    ensures i < |q.vehicles| && id == Stable(q.owner, q.vehicles[i].vin)
            && (forall j :: i < j < |q.vehicles| ==> q.vehicles[j].vin != q.vehicles[i].vin) ==>
              id in Synced(base, q).vehicles && Synced(base, q).vehicles[id]
              == Merged(base.vehicles, id, q.owner, q.connection, q.vehicles[i],
                        StatusOf(q.statuses, q.vehicles[i].vin))
    ensures i < |q.vehicles| && id == Stable(q.owner, q.vehicles[i].vin)
            && (forall j :: i < j < |q.vehicles| ==> q.vehicles[j].vin != q.vehicles[i].vin) ==>
              && Reports(Synced(base, q).vehicles[id], q, q.vehicles[i])
              && Synced(base, q).vehicles[id].telemetry
                 == if id in base.vehicles then base.vehicles[id].telemetry else NOT_CONFIGURED
    ensures id in base.vehicles && !Returned(q, id, |q.vehicles|) ==>
              id in Synced(base, q).vehicles && Synced(base, q).vehicles[id]
              == if base.vehicles[id].owner == q.owner && base.vehicles[id].connection == q.connection
                 then base.vehicles[id].(authorization := NotReturned) else base.vehicles[id]
  {
    var n := |q.vehicles|;
    PutFirstProgresses(base, q, n);
    ActiveIdsAreReturned(base, q);
    hide Agrees, Merged, Bindable, PutFirst, ActiveIds, Reports, StatusOf;
    if i < n && id == Stable(q.owner, q.vehicles[i].vin)
       && forall j :: i < j < n ==> q.vehicles[j].vin != q.vehicles[i].vin
    {
      assert Returned(q, id, n);
      LastReportIsStored(base, q, n, i);
      MergedReports(base.vehicles, id, q, q.vehicles[i]);
    }
  }

  // ---------------------------------------------------------------------------------------------
  // The store

  function UpdateFleetStatus(r: Registry, owner: string, id: VehicleId,
                             status: FleetStatus): Result<Registry, RegistryError> {
    if id !in r.vehicles then Err(NoSuchVehicle)
    else if r.vehicles[id].owner != owner then Err(CrossUserAccess)
    else if r.vehicles[id].authorization != Active then Err(NoLongerReturned)
    else if r.vehicles[id].vin != status.vin then Err(CrossUserAccess)
    else Ok(r.(vehicles := r.vehicles[id := r.vehicles[id].(virtualKey := VirtualKeyStatus(Some(status)),
                                                            protocolRequired := status.protocolRequired,
                                                            firmware := status.firmware,
                                                            telemetryVersion := status.telemetryVersion,
                                                            totalKeys := status.totalKeys)]))
  }

  /** The write behind saving a telemetry configuration. Its ownership check is an earlier read. */
  function WriteTelemetry(r: Registry, id: VehicleId, fields: TelemetryFields): Registry {
    if id !in r.vehicles then r else r.(vehicles := r.vehicles[id := r.vehicles[id].(telemetry := fields)])
  }

  /** Saving a telemetry configuration rewrites the telemetry fields of one stored vehicle and nothing else. */
  lemma SavedTelemetry(r: Registry, id: VehicleId, fields: TelemetryFields)
    ensures var after := WriteTelemetry(r, id, fields);
            && after.index == r.index && after.vehicles.Keys == r.vehicles.Keys
            && (forall other :: other in r.vehicles && other != id ==> after.vehicles[other] == r.vehicles[other])
            && (id in r.vehicles ==>
                  && after.vehicles[id].telemetry == fields
                  && after.vehicles[id].(telemetry := r.vehicles[id].telemetry) == r.vehicles[id])
  {
  }

  class VehicleRegistryStore {
    var registry: Registry

    constructor ()
      ensures registry == Registry(map[], map[])
    {
      registry := Registry(map[], map[]);
    }

    /** All reads come first and all writes are buffered, so an error leaves the registry alone. */
    method SyncVehicles(q: SyncRequest) returns (r: Result<seq<VehicleDoc>, RegistryError>)
      modifies this
      ensures r.Ok? <==> Bindable(old(registry), q, |q.vehicles|)
      ensures r.Ok? ==> registry == Synced(old(registry), q)
      ensures r.Ok? ==> |r.value| == |q.vehicles| && forall i :: 0 <= i < |q.vehicles| ==>
                Reports(r.value[i], q, q.vehicles[i]) && r.value[i].telemetry == NOT_CONFIGURED
      ensures r.Err? ==> registry == old(registry)
      ensures r.Err? ==> exists i :: 0 <= i < |q.vehicles| && Bindable(old(registry), q, i)
                                && VehicleIdFor(old(registry).index, q.owner, q.vehicles[i].vin) == Err(r.error)
    {
      hide Merged, VehicleIdFor, Missing, Reports, StatusOf;
      var base := registry;
      var pending := base;
      var active: set<VehicleId> := {};
      var records: seq<VehicleDoc> := [];
      for k := 0 to |q.vehicles|
        invariant Bindable(base, q, k) && pending == PutFirst(base, q, k) && active == ActiveIds(base, q, k)
        invariant |records| == k && forall i :: 0 <= i < k ==>
                    Reports(records[i], q, q.vehicles[i]) && records[i].telemetry == NOT_CONFIGURED
        invariant registry == base && base.vehicles.Keys <= pending.vehicles.Keys
      {
        var v := q.vehicles[k];
        var bound := VehicleIdFor(base.index, q.owner, v.vin);
        if bound.Err? {
          return Err(bound.error);
        }
        var id := bound.value;
        pending := Put(base, pending, q, v);
        active := active + {id};
        MergedReports(map[], NoId, q, v);
        records := records + [Merged(map[], NoId, q.owner, q.connection, v, StatusOf(q.statuses, v.vin))];
      }
      pending := MarkMissing(base, pending, q, active);
      registry := pending;
      r := Ok(records);
    }

    /** The second loop, over the user's records as the transaction read them. */
    method MarkMissing(base: Registry, now: Registry, q: SyncRequest, active: set<VehicleId>)
      returns (pending: Registry)
      requires base.vehicles.Keys <= now.vehicles.Keys
      ensures pending == WithMissing(base, now, q, active, base.vehicles.Keys)
    {
      hide WithMissing, Missing;
      NoneMarked(base, now, q, active);
      var existing := set id | id in base.vehicles && base.vehicles[id].owner == q.owner;
      pending := now;
      var todo := existing;
      assert existing - todo == {};
      while todo != {}
        invariant todo <= existing
        invariant pending == WithMissing(base, now, q, active, existing - todo)
        decreases |todo|
      {
        var id :| id in todo;
        OneMoreMarked(base, now, q, active, existing - todo, id);
        assert existing - (todo - {id}) == existing - todo + {id};
        if id !in active && base.vehicles[id].connection == q.connection {
          pending := pending.(vehicles := pending.vehicles[id := pending.vehicles[id].(authorization := NotReturned)]);
        }
        todo := todo - {id};
      }
      assert existing - todo == existing;
      OthersAreNotMissing(base, now, q, active, existing);
    }

    /** Five status fields of the owner's active vehicle with the reported VIN change, and nothing else;
        in every other case nothing changes. */
    method SaveFleetStatus(owner: string, id: VehicleId, status: FleetStatus) returns (error: Option<RegistryError>)
      modifies this
      ensures error.None?
              <==> id in old(registry).vehicles && Refreshable(old(registry).vehicles[id], owner, status.vin)
      ensures error.None? ==>
                registry.index == old(registry).index && id in registry.vehicles
                && registry.vehicles == old(registry).vehicles[id := registry.vehicles[id]]
                && StatusOnly(old(registry).vehicles[id], registry.vehicles[id], status)
      ensures error.Some? ==> registry == old(registry)
      ensures error == Some(NoSuchVehicle) <==> id !in old(registry).vehicles
      ensures error == Some(NoLongerReturned) <==>
                id in old(registry).vehicles && old(registry).vehicles[id].owner == owner
                && old(registry).vehicles[id].authorization != Active
      ensures Agrees(old(registry)) ==> Agrees(registry)
      ensures UpdateFleetStatus(old(registry), owner, id, status)
              == if error.None? then Ok(registry) else Err(error.value)
    {
      hide Agrees;
      if id !in registry.vehicles {
        return Some(NoSuchVehicle);
      }
      var doc := registry.vehicles[id];
      if doc.owner != owner {
        return Some(CrossUserAccess);
      }
      if doc.authorization != Active {
        return Some(NoLongerReturned);
      }
      if doc.vin != status.vin {
        return Some(CrossUserAccess);
      }
      var virtualKey :=
        if status.keyPaired.None? then "unknown" else if status.keyPaired.value then "paired" else "pending";
      var updated :=
        doc.(virtualKey := virtualKey, protocolRequired := status.protocolRequired, firmware := status.firmware,
                          telemetryVersion := status.telemetryVersion, totalKeys := status.totalKeys);
      if Agrees(registry) {
        RewriteAgrees(registry, id, updated);
      }
      registry := registry.(vehicles := registry.vehicles[id := updated]);
      error := None;
    }
  }

  predicate Refreshable(doc: VehicleDoc, owner: string, vin: string) {
    doc.owner == owner && doc.authorization == Active && doc.vin == vin
  }

  /** The document reports this fleet status and is otherwise what it was. */
  predicate StatusOnly(before: VehicleDoc, after: VehicleDoc, status: FleetStatus) {
    && (status.keyPaired == Some(true) <==> after.virtualKey == "paired")
    && (status.keyPaired == Some(false) <==> after.virtualKey == "pending")
    && (status.keyPaired == None <==> after.virtualKey == "unknown")
    && (after.protocolRequired, after.firmware, after.telemetryVersion, after.totalKeys)
       == (status.protocolRequired, status.firmware, status.telemetryVersion, status.totalKeys)
    && before == after.(virtualKey := before.virtualKey, protocolRequired := before.protocolRequired,
                        firmware := before.firmware,
                        telemetryVersion := before.telemetryVersion, totalKeys := before.totalKeys)
  }

  // ---------------------------------------------------------------------------------------------
  // Every run

  datatype Action =
    | Sync(request: SyncRequest)
    | RefreshStatus(owner: string, id: VehicleId, status: FleetStatus)
    | SaveTelemetry(id: VehicleId, fields: TelemetryFields)

  ghost function Apply(r: Registry, a: Action): Registry {
    match a
    case Sync(q) => if Bindable(r, q, |q.vehicles|) then Synced(r, q) else r
    case RefreshStatus(owner, id, status) =>
      if UpdateFleetStatus(r, owner, id, status).Ok? then UpdateFleetStatus(r, owner, id, status).value else r
    case SaveTelemetry(id, fields) => WriteTelemetry(r, id, fields)
  }

  ghost function Run(r: Registry, actions: seq<Action>): Registry
    decreases |actions|
  {
    if actions == [] then r else Apply(Run(r, actions[..|actions| - 1]), actions[|actions| - 1])
  }

  lemma RewriteAgrees(r: Registry, id: VehicleId, doc: VehicleDoc)
    requires Agrees(r) && id in r.vehicles && doc.owner == r.vehicles[id].owner && doc.vin == r.vehicles[id].vin
    ensures Agrees(r.(vehicles := r.vehicles[id := doc]))
  {
  }

  lemma ApplyAgrees(r: Registry, a: Action)
    requires Agrees(r)
    ensures Agrees(Apply(r, a))
    ensures forall vin :: vin in r.index ==> vin in Apply(r, a).index && Apply(r, a).index[vin] == r.index[vin]
  {
    hide Agrees, Synced, Bindable;
    match a {
      case Sync(q) => SyncMeaning(r, q);
      case RefreshStatus(owner, id, status) =>
        if UpdateFleetStatus(r, owner, id, status).Ok? {
          RewriteAgrees(r, id, UpdateFleetStatus(r, owner, id, status).value.vehicles[id]);
        }
      case SaveTelemetry(id, fields) =>
        if id in r.vehicles {
          RewriteAgrees(r, id, r.vehicles[id].(telemetry := fields));
        }
    }
  }

  /** Whatever users synchronise, refresh and save, in any order, index and records agree, and a VIN
      once indexed keeps its owner and its vehicle ID. */
  lemma {:induction false} RunKeepsOwners(r: Registry, actions: seq<Action>)
    requires Agrees(r)
    ensures Agrees(Run(r, actions))
    ensures forall vin :: vin in r.index ==> vin in Run(r, actions).index && Run(r, actions).index[vin] == r.index[vin]
    decreases |actions|
  {
    if actions != [] {
      hide Agrees, Apply;
      RunKeepsOwners(r, actions[..|actions| - 1]);
      ApplyAgrees(Run(r, actions[..|actions| - 1]), actions[|actions| - 1]);
    }
  }

  // ---------------------------------------------------------------------------------------------
  // Routing telemetry

  datatype Route = Route(userId: string, datasetId: string, vehicleId: VehicleId, teslaId: Option<string>,
                         version: Option<string>, hash: Option<string>)

  const DATASET_PREFIX := "tesla_u_"

  predicate DatasetId(s: string) {
    && |DATASET_PREFIX| < |s| <= |DATASET_PREFIX| + 80 && DATASET_PREFIX <= s
    && forall i :: |DATASET_PREFIX| <= i < |s| ==> 'a' <= s[i] <= 'z' || '0' <= s[i] <= '9' || s[i] == '_'
  }

  function NonEmpty(s: Option<string>): Option<string> {
    if s == Some("") then None else s
  }

  function Owners(db: IdentityBinding.Database, owner: string): set<string> {
    set e | e in db.users && db.users[e].UserDoc? && db.users[e].userId == IdentityBinding.Text(owner)
  }

  ghost function Resolve(r: Registry, db: IdentityBinding.Database, vin: string): Option<Route> {
    if vin !in r.index || r.index[vin].vehicleId !in r.vehicles then None
    else
      var entry := r.index[vin];
      var doc := r.vehicles[entry.vehicleId];
      if doc.vin != vin || doc.owner != entry.owner || |Owners(db, entry.owner)| != 1 then None
      else
        var e :| e in Owners(db, entry.owner);
        var user := db.users[e];
        if user.status != IdentityBinding.Text("active") || !user.datasetId.Text?
           || !DatasetId(user.datasetId.text)
        then None
        else Some(Route(entry.owner, user.datasetId.text, entry.vehicleId, NonEmpty(Some(doc.teslaId)),
                        NonEmpty(doc.telemetry.version), NonEmpty(doc.telemetry.hash)))
  }

  lemma OnlyOwner(db: IdentityBinding.Database, owner: string, e: string)
    requires IdentityBinding.Consistent(db) && e in db.users && IdentityBinding.Record(db, e).userId == owner
    ensures Owners(db, owner) == {e}
  {
    forall d | d in Owners(db, owner) ensures d == e {
      assert IdentityBinding.Record(db, d).userId == owner;
    }
  }

  lemma NoOwner(db: IdentityBinding.Database, owner: string)
    requires IdentityBinding.Consistent(db)
    requires forall e :: e in db.users ==> !RecordsUser(db, e, owner)
    ensures Owners(db, owner) == {}
  {
  }

  /** The consistency checks never reject an indexed VIN: a message for it is routed exactly when its
      owner is an active user with a well-formed dataset, and then to that dataset. */
  lemma RoutedExactly(r: Registry, db: IdentityBinding.Database, vin: string, route: Route)
    requires Agrees(r) && IdentityBinding.Consistent(db)
    ensures Resolve(r, db, vin) == Some(route) <==>
              vin in r.index && exists e :: e in db.users && Routes(r, db, vin, e, route)
  {
    hide IdentityBinding.Consistent, IdentityBinding.Record, IdentityBinding.RecordFromData, DatasetId;
    WellFormedExactly(route.datasetId);
    hide WellFormed;
    if vin in r.index {
      var owner := r.index[vin].owner;
      if e :| e in db.users && RecordsUser(db, e, owner) {
        OnlyOwner(db, owner, e);
        RecordFields(db, e);
        assert forall d :: d in db.users && Routes(r, db, vin, d, route) ==> RecordsUser(db, d, owner);
        forall d | d in db.users && RecordsUser(db, d, owner) ensures d == e {
          OnlyOwner(db, owner, d);
          assert d in Owners(db, owner);
        }
      } else {
        NoOwner(db, owner);
      }
    }
  }

  ghost predicate RecordsUser(db: IdentityBinding.Database, e: string, owner: string)
    requires e in db.users
  {
    IdentityBinding.RecordFromData(e, db.users[e]).Ok? && IdentityBinding.Record(db, e).userId == owner
  }

  lemma RecordFields(db: IdentityBinding.Database, e: string)
    requires IdentityBinding.Consistent(db) && e in db.users
    ensures IdentityBinding.RecordFromData(e, db.users[e]).Ok? && db.users[e].UserDoc?
    ensures var record := IdentityBinding.Record(db, e);
            && db.users[e].userId == IdentityBinding.Text(record.userId)
            && db.users[e].datasetId == IdentityBinding.Text(record.datasetId)
            && (db.users[e].status == IdentityBinding.Text("active") <==> record.status == IdentityBinding.Active)
  {
  }

  /** The prefix and after it one to eighty lower-case letters, digits or underscores. */
  ghost predicate WellFormed(datasetId: string) {
    exists rest :: datasetId == "tesla_u_" + rest && 1 <= |rest| <= 80
                   && forall c :: c in rest ==> 'a' <= c <= 'z' || '0' <= c <= '9' || c == '_'
  }

  lemma WellFormedExactly(s: string)
    ensures DatasetId(s) <==> WellFormed(s)
  {
    if DatasetId(s) {
      var rest := s[8..];
      assert s == s[..8] + rest && s[..8] == DATASET_PREFIX;
      forall c | c in rest ensures 'a' <= c <= 'z' || '0' <= c <= '9' || c == '_' {
        var i :| 0 <= i < |rest| && rest[i] == c;
        assert s[8 + i] == c;
      }
    }
    if rest :| s == "tesla_u_" + rest && 1 <= |rest| <= 80
               && forall c :: c in rest ==> 'a' <= c <= 'z' || '0' <= c <= '9' || c == '_'
    {
      assert |s| == 8 + |rest| && s[..8] == DATASET_PREFIX;
      forall i | 8 <= i < |s| ensures 'a' <= s[i] <= 'z' || '0' <= s[i] <= '9' || s[i] == '_' {
        assert s[i] == rest[i - 8] && rest[i - 8] in rest;
      }
    }
  }

  /** The text is carried over unless it is missing or empty. */
  predicate Carries(carried: Option<string>, text: Option<string>) {
    carried == (match text case None => None case Some(t) => if |t| == 0 then None else text)
  }

  /** The record e is an active user who owns the VIN, and the route leads to that user's dataset. */
  ghost predicate Routes(r: Registry, db: IdentityBinding.Database, vin: string, e: string, route: Route)
    requires vin in r.index && e in db.users
  {
    && IdentityBinding.RecordFromData(e, db.users[e]).Ok?
    && var user := IdentityBinding.Record(db, e);
       var id := r.index[vin].vehicleId;
       && user.userId == r.index[vin].owner == route.userId && user.status == IdentityBinding.Active
       && user.datasetId == route.datasetId && WellFormed(route.datasetId) && route.vehicleId == id
       && id in r.vehicles && Carries(route.teslaId, Some(r.vehicles[id].teslaId))
       && Carries(route.version, r.vehicles[id].telemetry.version)
       && Carries(route.hash, r.vehicles[id].telemetry.hash)
  }

  /** However vehicles are synchronised and however users log in or are administered in between, a
      VIN's telemetry never moves to another user or another dataset, and two VINs share a dataset
      only if they share an owner. */
  lemma TelemetryStaysWithItsOwner(r: Registry, db: IdentityBinding.Database, actions: seq<Action>,
                                   changes: seq<IdentityBinding.Action>, v: string, w: string)
    requires Agrees(r) && IdentityBinding.Consistent(db) && IdentityBinding.DrawsFresh(db, changes)
    requires Resolve(r, db, v).Some? && Resolve(Run(r, actions), IdentityBinding.Run(db, changes), w).Some?
    ensures var before := Resolve(r, db, v).value;
            var after := Resolve(Run(r, actions), IdentityBinding.Run(db, changes), w).value;
            && (v == w ==>
                  && before.userId == after.userId && before.datasetId == after.datasetId
                  && before.vehicleId == after.vehicleId)
            && (before.datasetId == after.datasetId <==> before.userId == after.userId)
  {
    hide Resolve, DatasetId, IdentityBinding.RecordFromData, Agrees, IdentityBinding.DrawsFresh;
    var later := IdentityBinding.Run(db, changes);
    RunKeepsOwners(r, actions);
    IdentityBinding.RunKeepsConsistent(db, changes);
    RoutedExactly(r, db, v, Resolve(r, db, v).value);
    RoutedExactly(Run(r, actions), later, w, Resolve(Run(r, actions), later, w).value);
    var d :| d in db.users && Routes(r, db, v, d, Resolve(r, db, v).value);
    var e :| e in later.users && Routes(Run(r, actions), later, w, e, Resolve(Run(r, actions), later, w).value);
    assert d in later.users && IdentityBinding.Record(later, d).userId == IdentityBinding.Record(db, d).userId;
  }
}
