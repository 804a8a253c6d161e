/**
 The telemetry control plane of one deployment: planning, applying, verifying and removing one
 vehicle's configuration, and the canary-first reconciliation of transport drift.

 Hashes are injective constructors of what they hash. Tesla's answers, store failures and the clock
 are nondeterministic. Vehicle records and scopes do not change during a call.
 */
module TelemetryControl {
  import opened Wrappers
  import opened TelemetryConfig
  import opened TelemetryDiff
  import TelemetryProfile

  /** What a profile holds besides its fields. */
  datatype Meta = Meta(version: string, schemaVersion: string, baseline: string, alertTypes: seq<AlertType>,
                       deliveryPolicy: string)

  datatype TrustProfile = TrustProfile(id: string, hostname: string, port: int, caPem: string, caHash: multiset<string>)

  datatype FieldHash = FieldHash(meta: Meta, fields: map<string, Field>)

  datatype ConfigHash = ConfigHash(fieldHash: FieldHash, hostname: string, port: int, trustHash: multiset<string>,
                                   trustId: string)

  datatype Status = NotConfigured | SyncedStatus | RemovedStatus

  datatype TelemetryState = TelemetryState(version: Option<string>, configHash: Option<ConfigHash>,
                                           fieldHash: Option<FieldHash>,
                                           trustId: Option<string>, trustHash: Option<multiset<string>>, status: Status,
                                           optIn: bool)

  const REMOVED := TelemetryState(None, None, None, None, None, RemovedStatus, false)

  datatype Vehicle = Vehicle(owner: string, active: bool, virtualKey: string)

  datatype Error =
    | Refused(category: string) | CrossUser | Onboarding | Reauthorization | Api(category: string) | Unexpected

  datatype Operation = Apply | Verify | Remove

  datatype Outcome = Attempted | Succeeded | Failed(category: string)

  /** `completions` counts the attempts to complete the record. */
  datatype AuditRecord = AuditRecord(vehicle: string, operation: Operation, hash: Option<ConfigHash>, result: Outcome,
                                     completions: nat)

  datatype ErrorEntry = NotAMapping | Undated | Unreadable | At(seconds: int)

  datatype ReportedErrors = NotAList | Entries(entries: seq<ErrorEntry>)

  /** What reading a vehicle's fleet status came to. */
  datatype StatusAnswer = Unanswered(error: Error) | Omitted | Answered(version: Option<TelemetryProfile.Version>)

  const BROAD_PROFILE_SINCE: TelemetryProfile.Version := (1, 0, 0)

  /** One operation at Tesla, in the order performed. */
  datatype Call =
    | StatusRead(vehicle: string, answer: StatusAnswer)
    | ConfigCreated(vehicle: string, config: Config)
    | ConfigRead(vehicle: string, document: map<string, Json>, synced: bool)
    | ConfigUnread(vehicle: string)
    | ErrorsRead(vehicle: string, relevant: bool)
    | ConfigDeleted(vehicle: string)

  function Category(e: Error): string {
    match e
    case Refused(category) => category
    case CrossUser => "cross_user_access_denied"
    case Reauthorization => "reauthorization_required"
    case Onboarding => "onboarding_error"
    case Api(category) => category
    case Unexpected => "unexpected_error"
  }

  /** The category an error is audited and reported under: its own if it has one. */
  lemma CategoryExactly(e: Error)
    ensures Category(e) == if e.CrossUser? then "cross_user_access_denied"
                           else if e.Reauthorization? then "reauthorization_required"
                           else if e.Onboarding? then "onboarding_error"
                           else if e.Unexpected? then "unexpected_error" else e.category
  {
  }

  /** Errors that stop a reconciliation instead of being reported for one vehicle. */
  predicate Fatal(e: Error) {
    e.CrossUser? || e.Onboarding? || e.Reauthorization?
  }

  // ---------------------------------------------------------------------------------------------
  // Plans

  /** The plan for a vehicle: the broad profile of the client version it reported. */
  function PlanFor(meta: Meta, sections: TelemetryProfile.Sections, answer: StatusAnswer): Result<FieldHash, Error> {
    match answer
    case Unanswered(e) => Err(e)
    case Omitted => Err(Refused("fleet_status_missing_vehicle"))
    case Answered(version) =>
      if !TelemetryProfile.AtLeast(version, BROAD_PROFILE_SINCE) then Err(Refused("telemetry_client_upgrade_required"))
      else if TelemetryProfile.PartitionErrorOf(sections).Some? then Err(Unexpected)
      else Ok(FieldHash(meta, TelemetryProfile.Fields(sections, version)))
  }

  /** A plan is made exactly for a client that reported version 1.0.0 or later, from accepted sections, and
      then it is that version's broad profile. */
  lemma PlanExactly(meta: Meta, sections: TelemetryProfile.Sections, answer: StatusAnswer, hash: FieldHash)
    ensures PlanFor(meta, sections, answer) == Ok(hash) <==>
              && answer.Answered? && TelemetryProfile.Since(answer.version, 1, 0)
              && TelemetryProfile.PartitionErrorOf(sections).None?
              && hash == FieldHash(meta, TelemetryProfile.Fields(sections, answer.version))
    ensures answer.Omitted? ==> PlanFor(meta, sections, answer) == Err(Refused("fleet_status_missing_vehicle"))
    ensures answer.Answered? && !TelemetryProfile.Since(answer.version, 1, 0) ==>
              PlanFor(meta, sections, answer) == Err(Refused("telemetry_client_upgrade_required"))
  {
    if answer.Answered? {
      TelemetryProfile.AtLeastExactly(answer.version, 1, 0);
    }
  }

  function Desired(trust: TrustProfile, hash: FieldHash): Config {
    Config(trust.hostname, trust.caPem, hash.fields, trust.port, hash.meta.alertTypes, None,
           Some(hash.meta.deliveryPolicy))
  }

  function HashOf(trust: TrustProfile, hash: FieldHash): ConfigHash {
    ConfigHash(hash, trust.hostname, trust.port, trust.caHash, trust.id)
  }

  function SyncedState(trust: TrustProfile, hash: FieldHash, optIn: bool): TelemetryState {
    TelemetryState(Some(hash.meta.version), Some(HashOf(trust, hash)), Some(hash), Some(trust.id), Some(trust.caHash),
                   SyncedStatus, optIn)
  }

  /** The hash identifies a plan: the fields with what the profile holds besides, and where and whom to trust. */
  lemma HashIdentifiesPlan(t: TrustProfile, h: FieldHash, u: TrustProfile, k: FieldHash)
    ensures HashOf(t, h) == HashOf(u, k) <==>
              && h == k && t.id == u.id && t.caHash == u.caHash && t.hostname == u.hostname && t.port == u.port
  {
  }

  /** A stored state is the synced one for a plan exactly if its trust, hashes and profile version are
      the plan's and the opt-in is the one given. */
  lemma SyncedStateExactly(state: TelemetryState, trust: TrustProfile, hash: FieldHash, optIn: bool)
    ensures state == SyncedState(trust, hash, optIn) <==>
              && state.status == SyncedStatus && state.optIn == optIn
              && state.trustId == Some(trust.id) && state.trustHash == Some(trust.caHash)
              && state.version == Some(hash.meta.version) && state.fieldHash == Some(hash)
              && state.configHash.Some? && state.configHash.value.fieldHash == hash
              && (state.configHash.value.hostname, state.configHash.value.port) == (trust.hostname, trust.port)
              && (state.configHash.value.trustId, state.configHash.value.trustHash) == (trust.id, trust.caHash)
  {
  }

  /** The configuration sent carries the plan's fields and alerts unchanged and never expires. */
  lemma PlanIsSentWhole(trust: TrustProfile, hash: FieldHash)
    ensures var c := Desired(trust, hash);
            && c.fields == hash.fields && c.alertTypes == hash.meta.alertTypes && c.exp.None?
            && c.deliveryPolicy == Some(hash.meta.deliveryPolicy)
            && (c.hostname, c.port, c.ca) == (trust.hostname, trust.port, trust.caPem)
  {
  }

  /** What loading a trust profile establishes: its hash is that of its certificates. */
  predicate Loaded(trust: TrustProfile, load: Loader) {
    load(trust.caPem).Some? && load(trust.caPem).value != [] && multiset(Ders(load(trust.caPem).value)) == trust.caHash
    && !ContainsNonCa(load(trust.caPem).value)
  }

  /** Tesla's document says synced, and the configuration in it is the desired one. */
  ghost predicate ReportsSynced(document: map<string, Json>, desired: Config, trust: TrustProfile, load: Loader) {
    && Parsed(document).Ok? && Parsed(document).value.Some?
    && Readable(Parsed(document).value.value, load) && Readable(desired, load)
    && DiffOf(Safe(Parsed(document).value.value, None, load), Safe(desired, Some(trust.id), load)) == InSync
  }

  /** A vehicle confirmed in sync streams exactly the planned fields, each as planned, to the deployment's
      own host, and trusts exactly the certificates of its trust profile, all of them CAs. */
  lemma ConfirmedMeaning(document: map<string, Json>, trust: TrustProfile, hash: FieldHash, load: Loader)
    requires Loaded(trust, load) && ReportsSynced(document, Desired(trust, hash), trust, load)
    ensures var c := Parsed(document).value.value;
            && c.hostname == trust.hostname && c.port == trust.port && SameFields(c.fields, hash.fields)
            && multiset(c.alertTypes) == multiset(hash.meta.alertTypes)
            && c.deliveryPolicy == Some(hash.meta.deliveryPolicy)
            && multiset(Ders(load(c.ca).value)) == trust.caHash
            && forall i :: 0 <= i < |load(c.ca).value| ==> load(c.ca).value[i].isCa
  {
    hide Parsed, DiffOf, SameFields, Ders;
    var c := Parsed(document).value.value;
    ConfigsInSyncExactly(c, Desired(trust, hash), Some(trust.id), load);
  }

  // ---------------------------------------------------------------------------------------------
  // Reported errors

  const RECENT_SECONDS := 900

  predicate Relevant(e: ErrorEntry, now: int) {
    e.Undated? || e.Unreadable? || (e.At? && e.seconds >= now - RECENT_SECONDS)
  }

  /** Undated errors count as recent, and everything that is not a list of records as no error. */
  method HasRelevantErrors(value: ReportedErrors, now: int) returns (relevant: bool)
    ensures relevant <==> value.Entries? && exists i :: 0 <= i < |value.entries| && Relevant(value.entries[i], now)
    ensures relevant ==>
              exists i :: 0 <= i < |value.entries|
                && (value.entries[i].At? ==> now - value.entries[i].seconds <= 900) && !value.entries[i].NotAMapping?
    ensures !relevant && value.Entries? ==> forall i :: 0 <= i < |value.entries| ==>
              value.entries[i].NotAMapping? || (value.entries[i].At? && now - value.entries[i].seconds > 900)
  {
    if value.NotAList? {
      return false;
    }
    for i := 0 to |value.entries|
      invariant forall k :: 0 <= k < i ==> !Relevant(value.entries[k], now)
    {
      var entry := value.entries[i];
      if entry.NotAMapping? {
        continue;
      }
      if entry.Undated? || entry.Unreadable? {
        return true;
      }
      if entry.seconds >= now - RECENT_SECONDS {
        return true;
      }
    }
    relevant := false;
  }

  // ---------------------------------------------------------------------------------------------
  // The service

  datatype Stored = Stored(states: map<string, TelemetryState>, audits: seq<AuditRecord>, calls: seq<Call>)

  /** Everything done between the two was done to this vehicle, under at most one audit record, whose
      completion was attempted exactly once. */
  ghost predicate OnlyTouches(before: Stored, after: Stored, id: string) {
    && after.states.Keys == before.states.Keys
    && (forall v :: v in before.states && v != id ==> after.states[v] == before.states[v])
    && CallsGrow(before.calls, after.calls, id)
    && |before.audits| <= |after.audits| <= |before.audits| + 1 && before.audits == after.audits[..|before.audits|]
    && (|after.audits| > |before.audits| ==>
          after.audits[|before.audits|].vehicle == id && after.audits[|before.audits|].completions == 1)
  }

  ghost predicate CallsGrow(before: seq<Call>, after: seq<Call>, id: string) {
    |before| <= |after| && before == after[..|before|] && forall i :: |before| <= i < |after| ==> after[i].vehicle == id
  }

  lemma CallsGrowOn(a: seq<Call>, b: seq<Call>, c: seq<Call>, id: string)
    requires CallsGrow(a, b, id) && CallsGrow(b, c, id)
    ensures CallsGrow(a, c, id)
  {
  }

  /** Tesla confirmed the configuration in one of the calls made since, and reported no recent error. */
  ghost predicate Confirmed(before: seq<Call>, after: seq<Call>, id: string, desired: Config, trust: TrustProfile,
                            load: Loader) {
    exists i :: |before| <= i < |after| - 1 && after[i].ConfigRead? && after[i].vehicle == id && after[i].synced
      && ReportsSynced(after[i].document, desired, trust, load) && after[i + 1] == ErrorsRead(id, false)
  }

  /** Each call from the given one on read a document, and none was the desired one reported as synced. */
  ghost predicate Unconfirmed(from: nat, calls: seq<Call>, desired: Config, trust: TrustProfile, load: Loader) {
    from <= |calls| && forall i :: from <= i < |calls| ==>
      calls[i].ConfigRead? && (calls[i].synced ==> !ReportsSynced(calls[i].document, desired, trust, load))
  }

  /** The document can be parsed and its bundle read, as can the desired one. */
  ghost predicate Understood(document: map<string, Json>, desired: Config, load: Loader) {
    && Parsed(document).Ok? && Readable(desired, load)
    && (Parsed(document).value.Some? ==> Readable(Parsed(document).value.value, load))
  }

  class ControlPlane {
    const user: string
    const trust: TrustProfile
    const meta: Meta
    const sections: TelemetryProfile.Sections
    const load: Loader
    const syncAttempts: nat
    const vehicles: map<string, Vehicle>
    const scopes: Option<set<string>>
    var states: map<string, TelemetryState>
    var audits: seq<AuditRecord>
    var calls: seq<Call>
    var pauses: nat
    /** Failures that no call shows: of the store, of a client, and what Tesla skipped. */
    ghost var faults: seq<Error>

    ghost predicate Valid()
      reads this
    {
      Loaded(trust, load) && 1 <= syncAttempts <= 60 && states.Keys == vehicles.Keys
    }

    ghost function Now(): Stored
      reads this
    {
      Stored(states, audits, calls)
    }

    constructor (user: string, trust: TrustProfile, meta: Meta, sections: TelemetryProfile.Sections, load: Loader,
                 syncAttempts: nat,
                 vehicles: map<string, Vehicle>, scopes: Option<set<string>>, states: map<string, TelemetryState>)
      requires Loaded(trust, load) && 1 <= syncAttempts <= 60 && states.Keys == vehicles.Keys
      ensures Valid() && this.trust == trust && this.vehicles == vehicles && this.states == states && audits == []
      ensures calls == []
    {
      this.user, this.trust, this.meta, this.sections, this.load := user, trust, meta, sections, load;
      this.syncAttempts, this.vehicles, this.scopes, this.states := syncAttempts, vehicles, scopes, states;
      audits, calls, pauses, faults := [], [], 0, [];
    }

    /** Reading a record checks its owner and that Tesla still returns the vehicle. */
    function GetVehicle(id: string): Result<Vehicle, Error> {
      if id !in vehicles then Err(Onboarding)
      else if vehicles[id].owner != user then Err(CrossUser)
      else if !vehicles[id].active then Err(Onboarding)
      else Ok(vehicles[id])
    }

    /** The first check repeats one that reading the record has made, so it never refuses. */
    function EligibleVehicle(id: string): (error: Option<Error>)
      ensures error.None? ==>
                && id in vehicles && vehicles[id].owner == user && vehicles[id].active
                && vehicles[id].virtualKey == "paired"
      ensures error != Some(Refused("vehicle_not_active"))
    {
      var vehicle := GetVehicle(id);
      if vehicle.Err? then Some(vehicle.error)
      else if !vehicle.value.active then Some(Refused("vehicle_not_active"))
      else if vehicle.value.virtualKey != "paired" then Some(Refused("virtual_key_required"))
      else if scopes.None? then Some(Onboarding)
      else if !({"vehicle_device_data", "vehicle_location"} <= scopes.value) then Some(Refused("missing_tesla_scope"))
      else None
    }

    /** A vehicle is eligible exactly if it is the user's, still returned and paired, and the connection has
        both scopes; every refusal but that for a missing scope says exactly what is missing. */
    lemma EligibleExactly(id: string)
      ensures EligibleVehicle(id).None? <==>
                && id in vehicles && vehicles[id].owner == user && vehicles[id].active
                && vehicles[id].virtualKey == "paired"
                && scopes.Some? && "vehicle_device_data" in scopes.value && "vehicle_location" in scopes.value
      ensures EligibleVehicle(id) == Some(CrossUser) <==> id in vehicles && vehicles[id].owner != user
      ensures EligibleVehicle(id) == Some(Onboarding) <==>
                || id !in vehicles || (vehicles[id].owner == user && !vehicles[id].active)
                || (vehicles[id].owner == user && vehicles[id].virtualKey == "paired" && scopes.None?)
      ensures EligibleVehicle(id) == Some(Refused("virtual_key_required")) <==>
                && id in vehicles && vehicles[id].owner == user && vehicles[id].active
                && vehicles[id].virtualKey != "paired"
      ensures EligibleVehicle(id).Some? ==>
                EligibleVehicle(id).value in {CrossUser, Onboarding, Refused("virtual_key_required"),
                                              Refused("missing_tesla_scope")}
    {
    }

    /** The newest fault, and one of those since there were `failed`. */
    ghost predicate Faulted(failed: nat, e: Error)
      reads this`faults
    {
      failed < |faults| && faults[|faults| - 1] == e
    }

    /** The last of the calls since there were `seen` gave no plan. */
    ghost predicate Planless(seen: nat, e: Error)
      reads this`calls
    {
      seen < |calls| && calls[|calls| - 1].StatusRead? && PlanRead(calls[|calls| - 1]) == Err(e)
    }

    /** The error is what Tesla's last answers, among the calls since there were `seen`, say. */
    ghost predicate Answers(seen: nat, desired: Config, e: Error)
      reads this`calls
    {
      && seen < |calls|
      && match calls[|calls| - 1]
         case ErrorsRead(_, relevant) => relevant && e == Refused("tesla_reported_errors")
         case ConfigRead(_, document, _) =>
           || (!Understood(document, desired, load) && e == Refused("invalid_tesla_configuration"))
           || (e == Refused("sync_timeout") && seen + syncAttempts <= |calls|
               && Unconfirmed(|calls| - syncAttempts, calls, desired, trust, load))
         case _ => false
    }

    /** The last plan read is not the expected one. */
    ghost predicate Stale(seen: nat, expected: ConfigHash, e: Error)
      reads this`calls
    {
      && seen < |calls| && PlanRead(calls[|calls| - 1]).Ok?
      && HashOf(trust, PlanRead(calls[|calls| - 1]).value) != expected
      && e == Refused("stale_plan")
    }

    /** Something failed, or Tesla's answers confirm nothing. */
    ghost predicate Undeployed(seen: nat, failed: nat, desired: Config, e: Error)
      reads this`calls, this`faults
    {
      Faulted(failed, e) || Answers(seen, desired, e)
    }

    /** What makes applying the expected configuration to a vehicle fail with this error. */
    ghost predicate Unapplied(seen: nat, failed: nat, id: string, expected: ConfigHash, e: Error)
      reads this`calls, this`faults
    {
      || EligibleVehicle(id) == Some(e) || Planless(seen, e) || Stale(seen, expected, e)
      || Undeployed(seen, failed, Desired(trust, expected.fieldHash), e)
    }

    lemma FaultUndeploys(seen: nat, failed: nat, desired: Config, e: Error)
      requires Faulted(failed, e)
      ensures Undeployed(seen, failed, desired, e)
    {
    }

    lemma SaysErrors(seen: nat, failed: nat, desired: Config)
      requires seen < |calls| && calls[|calls| - 1].ErrorsRead? && calls[|calls| - 1].relevant
      ensures Undeployed(seen, failed, desired, Refused("tesla_reported_errors"))
    {
    }

    lemma SaysInvalid(seen: nat, failed: nat, desired: Config)
      requires seen < |calls| && calls[|calls| - 1].ConfigRead?
      requires !Understood(calls[|calls| - 1].document, desired, load)
      ensures Undeployed(seen, failed, desired, Refused("invalid_tesla_configuration"))
    {
      hide Understood;
    }

    lemma SaysNothing(seen: nat, failed: nat, desired: Config)
      requires 1 <= syncAttempts && |calls| == seen + syncAttempts && Unconfirmed(seen, calls, desired, trust, load)
      ensures Undeployed(seen, failed, desired, Refused("sync_timeout"))
    {
      hide ReportsSynced;
    }

    lemma UndeployedSince(seen: nat, failed: nat, sooner: nat, fewer: nat, desired: Config, e: Error)
      requires sooner <= seen && fewer <= failed && Undeployed(seen, failed, desired, e)
      ensures Undeployed(sooner, fewer, desired, e)
    {
      hide Understood, Unconfirmed;
    }

    lemma UnappliedSince(seen: nat, failed: nat, sooner: nat, fewer: nat, id: string, expected: ConfigHash, e: Error)
      requires sooner <= seen && fewer <= failed && Unapplied(seen, failed, id, expected, e)
      ensures Unapplied(sooner, fewer, id, expected, e)
      ensures Fatal(e) ==> Stopped(sooner, fewer, id, e)
    {
      hide EligibleVehicle, PlanRead, HashOf, Desired, Understood, Unconfirmed;
    }

    lemma StoppedSince(seen: nat, failed: nat, sooner: nat, fewer: nat, id: string, e: Error)
      requires sooner <= seen && fewer <= failed && Stopped(seen, failed, id, e)
      ensures Stopped(sooner, fewer, id, e)
    {
    }

    lemma Ineligible(seen: nat, failed: nat, id: string, expected: ConfigHash)
      requires EligibleVehicle(id).Some?
      ensures Unapplied(seen, failed, id, expected, EligibleVehicle(id).value)
    {
    }

    lemma NoPlan(seen: nat, e: Error)
      requires seen < |calls| && calls[|calls| - 1].StatusRead? && PlanRead(calls[|calls| - 1]) == Err(e)
      ensures Planless(seen, e)
    {
    }

    lemma OtherPlan(seen: nat, expected: ConfigHash)
      requires seen < |calls| && PlanRead(calls[|calls| - 1]).Ok?
      requires HashOf(trust, PlanRead(calls[|calls| - 1]).value) != expected
      ensures Stale(seen, expected, Refused("stale_plan"))
    {
    }

    /** What makes a reconciliation stop with this error at a vehicle. */
    ghost predicate Stopped(seen: nat, failed: nat, id: string, e: Error)
      reads this`calls, this`faults
    {
      || Faulted(failed, e) || Planless(seen, e)
      || ((e.CrossUser? || e.Onboarding? || e.Reauthorization?) && EligibleVehicle(id) == Some(e))
    }

    /** Any failure that is not a refusal by this service. */
    method Oracle() returns (e: Error)
      modifies this`faults
      ensures !e.Refused? && faults == old(faults) + [e]
    {
      var category := *;
      if {
        case true => e := CrossUser;
        case true => e := Onboarding;
        case true => e := Reauthorization;
        case true => e := Api(category);
        case true => e := Unexpected;
      }
      faults := faults + [e];
    }

    /** The plan that a call read, if it is a status read. */
    function PlanRead(call: Call): Result<FieldHash, Error> {
      if call.StatusRead? then PlanFor(meta, sections, call.answer) else Err(Unexpected)
    }

    /** The vehicle's client version is read afresh, so two plans of one vehicle may differ. */
    method CapabilityProfile(id: string) returns (r: Result<FieldHash, Error>, ghost read: Call)
      modifies this`calls, this`faults
      ensures old(faults) <= faults && calls == old(calls) + [read] && read.StatusRead? && read.vehicle == id
      ensures r == PlanRead(read)
      ensures if read.answer.Unanswered? then r == Err(read.answer.error) else faults == old(faults)
      ensures read.answer.Omitted? ==> r == Err(Refused("fleet_status_missing_vehicle"))
      ensures read.answer.Answered? ==>
                (r == Err(Refused("telemetry_client_upgrade_required"))
                 <==> !TelemetryProfile.Since(read.answer.version, 1, 0))
      ensures r.Ok? ==>
                && read.answer.Answered? && TelemetryProfile.AtLeast(read.answer.version, BROAD_PROFILE_SINCE)
                && TelemetryProfile.PartitionErrorOf(sections).None?
                && r.value == FieldHash(meta, TelemetryProfile.Fields(sections, read.answer.version))
    {
      var version: Option<TelemetryProfile.Version> := *;
      var answer: StatusAnswer;
      if {
        case true =>
          var e := Oracle();
          answer := Unanswered(e);
        case true => answer := Omitted;
        case true => answer := Answered(version);
      }
      read := StatusRead(id, answer);
      calls := calls + [StatusRead(id, answer)];
      if answer.Unanswered? {
        return Err(answer.error), read;
      }
      if answer.Omitted? {
        return Err(Refused("fleet_status_missing_vehicle")), read;
      }
      TelemetryProfile.AtLeastExactly(answer.version, 1, 0);
      if !TelemetryProfile.AtLeast(answer.version, BROAD_PROFILE_SINCE) {
        return Err(Refused("telemetry_client_upgrade_required")), read;
      }
      var profile := TelemetryProfile.BroadProfile(sections, answer.version);
      r := if profile.Err? then Err(Unexpected) else Ok(FieldHash(meta, profile.value.fields));
    }

    /** Polls until Tesla reports the desired configuration. Writes nothing. */
    method WaitUntilSynced(id: string, desired: Config) returns (error: Option<Error>)
      requires Valid() && Readable(desired, load)
      modifies this`calls, this`pauses, this`faults
      ensures CallsGrow(old(calls), calls, id) && Sends(old(calls), calls, None)
      ensures |calls| <= |old(calls)| + syncAttempts + 1
      ensures pauses < old(pauses) + syncAttempts
      ensures error.None? ==> Confirmed(old(calls), calls, id, desired, trust, load)
      ensures old(faults) <= faults && |calls| > |old(calls)| && (error.None? ==> faults == old(faults))
      ensures error.Some? ==> Undeployed(|old(calls)|, |old(faults)|, desired, error.value)
      ensures error == Some(Refused("sync_timeout")) ==> pauses == old(pauses) + syncAttempts - 1
    {
      hide Parsed, DiffOf, Safe, Readable, Undeployed, Answers;
      for attempt := 0 to syncAttempts
        invariant CallsGrow(old(calls), calls, id) && Sends(old(calls), calls, None)
        invariant |calls| == |old(calls)| + attempt
        invariant faults == old(faults)
        invariant Unconfirmed(|old(calls)|, calls, desired, trust, load)
        invariant pauses == old(pauses) + (if attempt == syncAttempts then attempt - 1 else attempt)
      {
        if * {
          calls := calls + [ConfigUnread(id)];
          var e := Oracle();
          FaultUndeploys(|old(calls)|, |old(faults)|, desired, e);
          return Some(e);
        }
        var document: map<string, Json>, synced: bool := *, *;
        calls := calls + [ConfigRead(id, document, synced)];
        ghost var read := |calls| - 1;
        var current := ParseTeslaConfig(document);
        if current.Err? {
          SaysInvalid(|old(calls)|, |old(faults)|, desired);
          return Some(Refused("invalid_tesla_configuration"));
        }
        var difference := ConfigDiff(current.value, desired, trust.id, load);
        if difference.None? {
          SaysInvalid(|old(calls)|, |old(faults)|, desired);
          return Some(Refused("invalid_tesla_configuration"));
        }
        if synced && difference.value == InSync {
          assert ReportsSynced(document, desired, trust, load);
          if * {
            var e := Oracle();
            FaultUndeploys(|old(calls)|, |old(faults)|, desired, e);
            return Some(e);
          }
          var errors: ReportedErrors, now: int := *, *;
          var relevant := HasRelevantErrors(errors, now);
          calls := calls + [ErrorsRead(id, relevant)];
          if relevant {
            SaysErrors(|old(calls)|, |old(faults)|, desired);
            return Some(Refused("tesla_reported_errors"));
          }
          assert calls[read] == ConfigRead(id, document, synced) && calls[read + 1] == ErrorsRead(id, false);
          return None;
        }
        if attempt + 1 < syncAttempts {
          pauses := pauses + 1;
        }
      }
      SaysNothing(|old(calls)|, |old(faults)|, desired);
      error := Some(Refused("sync_timeout"));
    }

    /** A failing write may have taken effect. */
    method Save(id: string, state: TelemetryState) returns (error: Option<Error>)
      requires Valid() && id in states
      modifies this`states, this`faults
      ensures Valid() && states == old(states)[id := states[id]] && states[id] in {old(states)[id], state}
      ensures error.None? ==> states[id] == state
      ensures old(faults) <= faults
      ensures if error.Some? then Faulted(|old(faults)|, error.value) else faults == old(faults)
    {
      error := None;
      if * {
        var e := Oracle();
        error := Some(e);
        if * {
          return;
        }
      }
      states := states[id := state];
    }

    method BeginAudit(id: string, operation: Operation, hash: Option<ConfigHash>) returns (error: Option<Error>)
      modifies this`audits, this`faults
      ensures error.None? ==> audits == old(audits) + [AuditRecord(id, operation, hash, Attempted, 0)]
      ensures error.Some? ==> audits == old(audits) && Faulted(|old(faults)|, error.value)
      ensures old(faults) <= faults && (error.None? ==> faults == old(faults))
    {
      if * {
        var e := Oracle();
        return Some(e);
      }
      audits := audits + [AuditRecord(id, operation, hash, Attempted, 0)];
      error := None;
    }

    /** One attempt to complete the newest record. */
    method CompleteAudit(outcome: Outcome) returns (error: Option<Error>)
      requires audits != []
      modifies this`audits, this`faults
      ensures |audits| == |old(audits)| && audits[..|audits| - 1] == old(audits)[..|audits| - 1]
      ensures var before, after := old(audits)[|audits| - 1], audits[|audits| - 1];
              && after == before.(completions := before.completions + 1, result := after.result)
              && after.result in {before.result, outcome} && (error.None? ==> after.result == outcome)
      ensures old(faults) <= faults
      ensures if error.None? then faults == old(faults) else Faulted(|old(faults)|, error.value)
    {
      var last := |audits| - 1;
      var stored := *;
      audits := audits[last := audits[last].(completions := audits[last].completions + 1,
                                             result := if stored then outcome else audits[last].result)];
      error := None;
      if !stored {
        var e := Oracle();
        error := Some(e);
      }
    }

    // -------------------------------------------------------------------------------------------
    // Applying, verifying, removing

    /** The first call made since read the vehicle's status, and this is the plan it gives. */
    ghost predicate Planned(before: seq<Call>, after: seq<Call>, hash: FieldHash) {
      |before| < |after| && PlanRead(after[|before|]) == Ok(hash)
    }

    /** Later calls do not change which plan was read first. */
    lemma PlannedStill(before: seq<Call>, read: seq<Call>, after: seq<Call>, hash: FieldHash)
      requires |before| < |read| <= |after| && read == after[..|read|]
      ensures Planned(before, after, hash) <==> Planned(before, read, hash)
    {
      assert after[|before|] == read[|before|];
    }

    lemma NothingRead(calls: seq<Call>, config: Config)
      ensures Sends(calls, calls, None) && Sends(calls, calls, Some(config))
      ensures forall hash :: !Planned(calls, calls, hash)
    {
    }

    /** The first read settles what was planned. */
    lemma PlanWasRead(before: seq<Call>, call: Call, after: seq<Call>)
      requires |before| < |after| && before + [call] == after[..|before| + 1] && call.StatusRead?
      ensures forall hash :: Planned(before, after, hash) <==> PlanRead(call) == Ok(hash)
    {
      assert after[|before|] == after[..|before| + 1][|before|] == call;
    }

    /** The first call made since sent this configuration, and it was sent only once. */
    ghost predicate Sent(before: seq<Call>, after: seq<Call>, id: string, config: Config) {
      |before| < |after| && before + [ConfigCreated(id, config)] == after[..|before| + 1]
      && Sends(after[..|before| + 1], after, None)
    }

    /** Sends the plan, waits for Tesla to confirm it, and stores it. */
    method Deploy(id: string, hash: FieldHash, optIn: bool) returns (error: Option<Error>)
      requires Valid() && id in states
      modifies this`calls, this`pauses, this`states, this`faults
      ensures Valid() && CallsGrow(old(calls), calls, id) && |calls| > |old(calls)|
      ensures Sends(old(calls), calls, Some(Desired(trust, hash)))
      ensures states == old(states)[id := states[id]]
      ensures states[id] in {old(states)[id], SyncedState(trust, hash, optIn)}
      ensures error.None? ==>
                && states[id] == SyncedState(trust, hash, optIn)
                && Confirmed(old(calls), calls, id, Desired(trust, hash), trust, load)
      ensures calls[..|old(calls)| + 1] == old(calls) + [ConfigCreated(id, Desired(trust, hash))]
      ensures Sends(calls[..|old(calls)| + 1], calls, None)
      ensures old(faults) <= faults && (error.None? ==> faults == old(faults))
      ensures error.Some? ==> Undeployed(|old(calls)|, |old(faults)|, Desired(trust, hash), error.value)
    {
      hide Confirmed, Readable, Answers;
      var desired := Desired(trust, hash);
      calls := calls + [ConfigCreated(id, desired)];
      ghost var sent := calls;
      if * {
        var e := Oracle();
        return Some(e);
      }
      if * {
        faults := faults + [Refused("vehicle_skipped")];
        return Some(Refused("vehicle_skipped"));
      }
      error := Confirm(id, hash, optIn);
      if error.Some? {
        UndeployedSince(|sent|, |old(faults)|, |old(calls)|, |old(faults)|, desired, error.value);
      }
      CallsGrowOn(old(calls), sent, calls, id);
      SendsOn(old(calls), sent, calls, Some(desired));
      if error.None? {
        ConfirmedSince(old(calls), sent, calls, calls, id, desired, trust, load);
      }
    }

    /** Waits for Tesla to confirm the plan and stores it, sending nothing. */
    method Confirm(id: string, hash: FieldHash, optIn: bool) returns (error: Option<Error>)
      requires Valid() && id in states
      modifies this`calls, this`pauses, this`states, this`faults
      ensures Valid() && CallsGrow(old(calls), calls, id) && Sends(old(calls), calls, None)
      ensures states == old(states)[id := states[id]]
      ensures states[id] in {old(states)[id], SyncedState(trust, hash, optIn)}
      ensures error.None? ==>
                && states[id] == SyncedState(trust, hash, optIn)
                && Confirmed(old(calls), calls, id, Desired(trust, hash), trust, load)
      ensures old(faults) <= faults && (error.None? ==> faults == old(faults))
      ensures error.Some? ==> Undeployed(|old(calls)|, |old(faults)|, Desired(trust, hash), error.value)
    {
      hide Confirmed, Answers;
      error := WaitUntilSynced(id, Desired(trust, hash));
      if error.Some? {
        return;
      }
      error := Save(id, SyncedState(trust, hash, optIn));
    }

    method Apply(id: string, expected: ConfigHash, confirm: bool, optIn: bool) returns (error: Option<Error>)
      requires Valid()
      modifies this`calls, this`pauses, this`states, this`audits, this`faults
      ensures Valid() && OnlyTouches(old(Now()), Now(), id)
      ensures !confirm || EligibleVehicle(id).Some? ==> Now() == old(Now()) && error.Some?
      ensures Audited(old(Now()), Now(), id, Operation.Apply, Some(expected),
                      SyncedState(trust, expected.fieldHash, optIn), error)
      ensures Sends(old(calls), calls, Some(Desired(trust, expected.fieldHash)))
      ensures |audits| == |old(audits)| ==> Sends(old(calls), calls, None)
      ensures |audits| > |old(audits)| ==>
                Planned(old(calls), calls, expected.fieldHash) && expected == HashOf(trust, expected.fieldHash)
      ensures forall hash :: Planned(old(calls), calls, hash) && expected != HashOf(trust, hash) ==>
                error == Some(Refused("stale_plan"))
      ensures error.None? ==> Confirmed(old(calls), calls, id, Desired(trust, expected.fieldHash), trust, load)
      ensures |audits| > |old(audits)| ==>
                |calls| > |old(calls)|
                && Sent(calls[..|old(calls)| + 1], calls, id, Desired(trust, expected.fieldHash))
      ensures error.None? ==> faults == old(faults)
      ensures old(faults) <= faults && (!confirm ==> error == Some(Refused("confirmation_required")))
      ensures confirm && error.Some? ==> Unapplied(|old(calls)|, |old(faults)|, id, expected, error.value)
    {
      hide Confirmed, Loaded, OnlyTouches, Audited, EligibleVehicle, Unapplied, Planned, Sends, Sent;
      NothingTouched(Now(), id, trust, load);
      NothingRead(calls, Desired(trust, expected.fieldHash));
      Unsettled(Now(), Now(), id, Operation.Apply, Some(expected), SyncedState(trust, expected.fieldHash, optIn));
      if !confirm {
        return Some(Refused("confirmation_required"));
      }
      error := EligibleVehicle(id);
      if error.Some? {
        Ineligible(|calls|, |faults|, id, expected);
        return;
      }
      error := ApplyEligible(id, expected, optIn);
    }

    /** Reads the plan, and applies it if it is the expected one. */
    method ApplyEligible(id: string, expected: ConfigHash, optIn: bool) returns (error: Option<Error>)
      requires Valid() && id in states
      modifies this`calls, this`pauses, this`states, this`audits, this`faults
      ensures Valid() && OnlyTouches(old(Now()), Now(), id)
      ensures Audited(old(Now()), Now(), id, Operation.Apply, Some(expected),
                      SyncedState(trust, expected.fieldHash, optIn), error)
      ensures Sends(old(calls), calls, Some(Desired(trust, expected.fieldHash)))
      ensures |audits| == |old(audits)| ==> Sends(old(calls), calls, None)
      ensures |audits| > |old(audits)| ==>
                Planned(old(calls), calls, expected.fieldHash) && expected == HashOf(trust, expected.fieldHash)
      ensures forall hash :: Planned(old(calls), calls, hash) && expected != HashOf(trust, hash) ==>
                error == Some(Refused("stale_plan"))
      ensures error.None? ==> Confirmed(old(calls), calls, id, Desired(trust, expected.fieldHash), trust, load)
      ensures |audits| > |old(audits)| ==>
                |calls| > |old(calls)|
                && Sent(calls[..|old(calls)| + 1], calls, id, Desired(trust, expected.fieldHash))
      ensures error.None? ==> faults == old(faults)
      ensures old(faults) <= faults
      ensures error.Some? ==> Unapplied(|old(calls)|, |old(faults)|, id, expected, error.value)
    {
      hide Confirmed, Loaded, PlanRead, OnlyTouches, Audited, EligibleVehicle, Undeployed, Stale, Planless, Planned,
           Sends, Sent, HashOf, SyncedState, Desired;
      var plan, answer := CapabilityProfile(id);
      Unsettled(old(Now()), Now(), id, Operation.Apply, Some(expected), SyncedState(trust, expected.fieldHash, optIn));
      PlanWasRead(old(calls), answer, calls);
      NothingSent(old(calls), answer, Desired(trust, expected.fieldHash));
      if plan.Err? {
        NoPlan(|old(calls)|, plan.error);
        return Some(plan.error);
      }
      if expected != HashOf(trust, plan.value) {
        OtherPlan(|old(calls)|, expected);
        return Some(Refused("stale_plan"));
      }
      HashedPlan(plan.value);
      ghost var read := Now();
      ghost var failed := |faults|;
      error := ApplyPlan(id, plan.value, optIn);
      if error.Some? {
        UndeployedSince(|read.calls|, failed, |old(calls)|, |old(faults)|, Desired(trust, plan.value), error.value);
      }
      AfterReading(old(Now()), read, Now(), id, Some(expected), SyncedState(trust, plan.value, optIn), error);
      assert calls[..|old(calls)| + 1] == read.calls;
      PlanWasRead(old(calls), answer, calls);
      SendsOn(old(calls), read.calls, calls, Some(Desired(trust, plan.value)));
      if error.None? {
        ConfirmedSince(old(calls), read.calls, calls, calls, id, Desired(trust, plan.value), trust, load);
      }
    }

    lemma HashedPlan(hash: FieldHash)
      ensures HashOf(trust, hash).fieldHash == hash
    {
    }

    /** Begins the audit, deploys, and completes the audit. */
    method ApplyPlan(id: string, hash: FieldHash, optIn: bool) returns (error: Option<Error>)
      requires Valid() && id in states
      modifies this`calls, this`pauses, this`states, this`audits, this`faults
      ensures Valid() && OnlyTouches(old(Now()), Now(), id)
      ensures Audited(old(Now()), Now(), id, Operation.Apply, Some(HashOf(trust, hash)),
                      SyncedState(trust, hash, optIn), error)
      ensures CallsGrow(old(calls), calls, id) && Sends(old(calls), calls, Some(Desired(trust, hash)))
      ensures |audits| == |old(audits)| ==> calls == old(calls)
      ensures error.None? ==> Confirmed(old(calls), calls, id, Desired(trust, hash), trust, load)
      ensures |audits| > |old(audits)| ==> Sent(old(calls), calls, id, Desired(trust, hash))
      ensures old(faults) <= faults && (error.None? ==> faults == old(faults))
      ensures error.Some? ==> Undeployed(|old(calls)|, |old(faults)|, Desired(trust, hash), error.value)
    {
      hide Confirmed, Loaded, OnlyTouches, Audited, Answers;
      error := BeginAudit(id, Operation.Apply, Some(HashOf(trust, hash)));
      Unsettled(old(Now()), old(Now()), id, Operation.Apply, Some(HashOf(trust, hash)),
                SyncedState(trust, hash, optIn));
      if error.Some? {
        return;
      }
      error := Deploy(id, hash, optIn);
      var incomplete := CompleteAudit(if error.None? then Succeeded else Failed(Category(error.value)));
      Settled(old(Now()), Now(), id, Operation.Apply, Some(HashOf(trust, hash)), SyncedState(trust, hash, optIn), error,
              incomplete);
      if incomplete.Some? {
        error := incomplete;
      }
    }

    /** Repairs what is stored about a vehicle that Tesla already reports in sync. Sends nothing. */
    method VerifyConfig(id: string) returns (error: Option<Error>, ghost hash: Option<FieldHash>)
      requires Valid()
      modifies this`calls, this`pauses, this`states, this`audits, this`faults
      ensures Valid() && OnlyTouches(old(Now()), Now(), id) && Sends(old(calls), calls, None)
      ensures EligibleVehicle(id).Some? ==> Now() == old(Now()) && error.Some?
      ensures error.None? ==> faults == old(faults)
      ensures hash.None? ==> error.Some? && states == old(states) && audits == old(audits)
      ensures hash.Some? ==> id in old(states) && Planned(old(calls), calls, hash.value)
      ensures hash.Some? ==>
                Audited(old(Now()), Now(), id, Verify, Some(HashOf(trust, hash.value)),
                        SyncedState(trust, hash.value, old(states)[id].optIn), error)
      ensures error.None? ==> hash.Some? && Confirmed(old(calls), calls, id, Desired(trust, hash.value), trust, load)
      ensures hash.None? ==>
                || EligibleVehicle(id) == error || Planless(|old(calls)|, error.value)
                || Faulted(|old(faults)|, error.value)
      ensures hash.Some? && error.Some? ==>
                Undeployed(|old(calls)|, |old(faults)|, Desired(trust, hash.value), error.value)
    {
      hide Confirmed, Loaded, OnlyTouches, Audited, EligibleVehicle, Answers, PlanFor;
      NothingTouched(Now(), id, trust, load);
      hash := None;
      error := EligibleVehicle(id);
      if error.Some? {
        return;
      }
      var plan, answer := CapabilityProfile(id);
      Unsettled(old(Now()), Now(), id, Verify, None, REMOVED);
      if plan.Err? {
        return Some(plan.error), None;
      }
      if * {
        var e := Oracle();
        return Some(e), None;
      }
      var prior := states[id];
      hash := Some(plan.value);
      ghost var read := calls;
      ghost var goal := SyncedState(trust, plan.value, prior.optIn);
      Unsettled(old(Now()), Now(), id, Verify, Some(HashOf(trust, plan.value)), goal);
      error := BeginAudit(id, Verify, Some(HashOf(trust, plan.value)));
      if error.Some? {
        return;
      }
      ghost var failed := |faults|;
      error := Confirm(id, plan.value, prior.optIn);
      if error.Some? {
        UndeployedSince(|read|, failed, |old(calls)|, |old(faults)|, Desired(trust, plan.value), error.value);
      }
      PlannedStill(old(calls), read, calls, plan.value);
      CallsGrowOn(old(calls), read, calls, id);
      SendsOn(old(calls), read, calls, None);
      if error.None? {
        ConfirmedSince(old(calls), read, calls, calls, id, Desired(trust, plan.value), trust, load);
      }
      var incomplete := CompleteAudit(if error.None? then Succeeded else Failed(Category(error.value)));
      Settled(old(Now()), Now(), id, Verify, Some(HashOf(trust, plan.value)), goal, error, incomplete);
      if incomplete.Some? {
        error := incomplete;
      }
    }

    method RemoveConfig(id: string, confirm: bool) returns (error: Option<Error>)
      requires Valid()
      modifies this`calls, this`states, this`audits, this`faults
      ensures Valid() && OnlyTouches(old(Now()), Now(), id)
      ensures !confirm || EligibleVehicle(id).Some? ==> Now() == old(Now()) && error.Some?
      ensures Audited(old(Now()), Now(), id, Remove, None, REMOVED, error)
      ensures calls == old(calls) + if |audits| == |old(audits)| then [] else [ConfigDeleted(id)]
      ensures !confirm ==> error == Some(Refused("confirmation_required"))
      ensures error.None? ==> faults == old(faults)
      ensures confirm && error.Some? ==> EligibleVehicle(id) == error || Faulted(|old(faults)|, error.value)
    {
      hide Loaded, OnlyTouches, Audited, EligibleVehicle;
      NothingTouched(Now(), id, trust, load);
      Unsettled(Now(), Now(), id, Remove, None, REMOVED);
      if !confirm {
        return Some(Refused("confirmation_required"));
      }
      error := EligibleVehicle(id);
      if error.Some? {
        return;
      }
      error := RemoveEligible(id);
    }

    /** Deletes under an audit, and stores the removed state. */
    method RemoveEligible(id: string) returns (error: Option<Error>)
      requires Valid() && id in states
      modifies this`calls, this`states, this`audits, this`faults
      ensures Valid() && OnlyTouches(old(Now()), Now(), id)
      ensures Audited(old(Now()), Now(), id, Remove, None, REMOVED, error)
      ensures calls == old(calls) + if |audits| == |old(audits)| then [] else [ConfigDeleted(id)]
      ensures error.None? ==> faults == old(faults)
      ensures error.Some? ==> Faulted(|old(faults)|, error.value)
    {
      hide Loaded, OnlyTouches, Audited, EligibleVehicle, Category;
      Unsettled(Now(), Now(), id, Remove, None, REMOVED);
      error := BeginAudit(id, Remove, None);
      if error.Some? {
        return;
      }
      calls := calls + [ConfigDeleted(id)];
      if * {
        var e := Oracle();
        error := Some(e);
      } else {
        error := Save(id, REMOVED);
      }
      var incomplete := CompleteAudit(if error.None? then Succeeded else Failed(Category(error.value)));
      Settled(old(Now()), Now(), id, Remove, None, REMOVED, error, incomplete);
      if incomplete.Some? {
        error := incomplete;
      }
    }

    // -------------------------------------------------------------------------------------------
    // Reconciling

    /** The plan was read, and nothing else done, and it has other fields than those stored. */
    ghost predicate Drifted(before: seq<Call>, after: seq<Call>, state: TelemetryState) {
      exists read :: after == before + [read] && PlanRead(read).Ok? && state.fieldHash != Some(PlanRead(read).value)
    }

    /** A failed line's category is that of an error, not a fatal one, that applying had to fail with. */
    ghost predicate Excused(seen: nat, failed: nat, id: string, expected: ConfigHash, category: string)
      reads this`calls, this`faults
    {
      exists e: Error :: !e.CrossUser? && !e.Onboarding? && !e.Reauthorization?
                           && Category(e) == category && Unapplied(seen, failed, id, expected, e)
    }

    lemma SeesDrift(before: seq<Call>, read: Call, state: TelemetryState)
      requires PlanRead(read).Ok? && state.fieldHash != Some(PlanRead(read).value)
      ensures Drifted(before, before + [read], state)
    {
    }

    /** An error of applying either stops the reconciliation or excuses a failed line. */
    lemma Excuses(seen: nat, failed: nat, sooner: nat, fewer: nat, id: string, expected: ConfigHash, e: Error)
      requires sooner <= seen && fewer <= failed && Unapplied(seen, failed, id, expected, e)
      ensures if Fatal(e) then Stopped(sooner, fewer, id, e) else Excused(sooner, fewer, id, expected, Category(e))
    {
      hide Unapplied, Stopped, Category;
      UnappliedSince(seen, failed, sooner, fewer, id, expected, e);
    }

    /** One vehicle's turn. Only opted-in transport drift is applied. */
    method ReconcileOne(id: string) returns (r: Result<Line, Error>)
      requires Valid() && id in states
      modifies this`calls, this`pauses, this`states, this`audits, this`faults
      ensures Valid() && OnlyTouches(old(Now()), Now(), id)
      ensures states[id].fieldHash == old(states)[id].fieldHash
      ensures (!old(states)[id].optIn ==> states[id] == old(states)[id])
      ensures r == Ok(Line(id, LineSynced)) ==>
                UpToDate(states[id], trust) && ConfirmedFor(old(calls), calls, id, states[id], trust, load)
      ensures r.Ok? ==> r.value.vehicle == id && (r.value.status == OptInRequired <==> !old(states)[id].optIn)
      ensures r.Ok? && r.value.status == FieldDriftBlocked ==>
                Now() == old(Now()).(calls := calls) && Drifted(old(calls), calls, old(states)[id])
      ensures r.Ok? && r.value.status !in {OptInRequired, FieldDriftBlocked} ==>
                old(states)[id].fieldHash.Some? && Planned(old(calls), calls, old(states)[id].fieldHash.value)
      ensures r.Ok? && !r.value.status.LineFailed? ==> faults == old(faults)
      ensures old(faults) <= faults && (r.Err? ==> Stopped(|old(calls)|, |old(faults)|, id, r.error))
      ensures r.Ok? && r.value.status.LineFailed? ==>
                Excused(|old(calls)|, |old(faults)|, id, HashOf(trust, old(states)[id].fieldHash.value),
                        r.value.status.category)
    {
      hide Confirmed, Loaded, Unapplied, EligibleVehicle, PlanRead, Planned, Category, Sends, OnlyTouches, Audited,
           UpToDate, Drifted, Excused, Fatal, Sent;
      NothingTouched(Now(), id, trust, load);
      if * {
        var e := Oracle();
        return Err(e);
      }
      var state := states[id];
      var plan, answer := CapabilityProfile(id);
      Unsettled(old(Now()), Now(), id, Operation.Apply, None, REMOVED);
      if plan.Err? {
        return Err(plan.error);
      }
      if !state.optIn {
        return Ok(Line(id, OptInRequired));
      }
      if state.fieldHash != Some(plan.value) {
        SeesDrift(old(calls), answer, state);
        return Ok(Line(id, FieldDriftBlocked));
      }
      ghost var read, failed := Now(), |faults|;
      var error := Apply(id, HashOf(trust, plan.value), true, true);
      AfterReading(old(Now()), read, Now(), id, Some(HashOf(trust, plan.value)), SyncedState(trust, plan.value, true),
                   error);
      AppliedKeepsFields(old(Now()), Now(), id, trust, plan.value, error);
      assert calls[..|old(calls)| + 1] == read.calls;
      PlanWasRead(old(calls), answer, calls);
      if error.Some? {
        Excuses(|read.calls|, failed, |old(calls)|, |old(faults)|, id, HashOf(trust, plan.value), error.value);
        return if Fatal(error.value) then Err(error.value) else Ok(Line(id, LineFailed(Category(error.value))));
      }
      ConfirmedSince(old(calls), read.calls, calls, calls, id, Desired(trust, plan.value), trust, load);
      r := Ok(Line(id, LineSynced));
    }

    predicate ActiveHere(id: string) {
      id in vehicles && vehicles[id].owner == user && vehicles[id].active
    }

    /** The user's active vehicles, each once, with the canary in front. */
    method CanaryFirst(canary: string) returns (ordered: seq<string>)
      requires ActiveHere(canary)
      ensures |ordered| > 0 && ordered[0] == canary && TelemetryProfile.Distinct(ordered) && forall id ::
                id in ordered <==> ActiveHere(id)
    {
      ordered := [canary];
      var todo := set id | id in vehicles && vehicles[id].owner == user && vehicles[id].active && id != canary;
      while todo != {}
        invariant |ordered| > 0 && ordered[0] == canary && TelemetryProfile.Distinct(ordered)
        invariant forall id :: ActiveHere(id) <==> id in ordered || id in todo
        invariant forall id :: id in ordered ==> id !in todo
        decreases |todo|
      {
        var id :| id in todo;
        ordered := ordered + [id];
        todo := todo - {id};
      }
    }

    /** Reapplies transport drift to the opted-in vehicles, canary first. On every exit, no stored
        field selection has changed and no vehicle outside the opted-in active ones was written, and if
        anything at all was done to another vehicle, the canary was confirmed and stored first. The
        report says ready exactly if every active vehicle was synced. */
    method ReconcileOptedInTransport(canary: string) returns (r: Result<Report, Error>)
      requires Valid()
      modifies this`calls, this`pauses, this`states, this`audits, this`faults
      ensures Valid()
      ensures forall id :: id in states ==> states[id].fieldHash == old(states)[id].fieldHash
      ensures forall id :: id in states && (!old(states)[id].optIn || !ActiveHere(id)) ==> states[id] == old(states)[id]
      ensures OnlyTouches(old(Now()), Now(), canary)
              || (canary in states && UpToDate(states[canary], trust)
                  && ConfirmedFor(old(calls), calls, canary, states[canary], trust, load))
      ensures |old(audits)| <= |audits| && forall i :: |old(audits)| <= i < |audits| ==> audits[i].completions == 1
      ensures !ActiveHere(canary) ==> r == Err(Refused("invalid_canary")) && Now() == old(Now())
      ensures r.Ok? && r.value.ready ==>
                (forall id :: ActiveHere(id) ==>
                   UpToDate(states[id], trust) && ConfirmedFor(old(calls), calls, id, states[id], trust, load))
      ensures r.Ok? ==> (r.value.ready <==> (forall id :: ActiveHere(id) ==> Line(id, LineSynced) in r.value.lines))
      ensures r.Ok? ==> Listed(r.value.lines, canary) && forall line :: line in r.value.lines ==>
                ActiveHere(line.vehicle) && (line.status == OptInRequired <==> !old(states)[line.vehicle].optIn)
      ensures r.Ok? && r.value.lines[0].status == LineSynced ==>
                forall id :: ActiveHere(id) ==> exists line :: line in r.value.lines && line.vehicle == id
      ensures r.Err? && ActiveHere(canary) ==>
                exists id :: ActiveHere(id) && Stopped(|old(calls)|, |old(faults)|, id, r.error)
    {
      hide Confirmed, Loaded, UpToDate, ConfirmedFor, Reported, OnlyTouches, Underway, Ended, Stopped, Unapplied,
           Planned,
           PlanRead, HashOf, Category;
      NothingTouched(Now(), canary, trust, load);
      if canary !in vehicles || vehicles[canary].owner != user || !vehicles[canary].active {
        return Err(Refused("invalid_canary"));
      }
      var ordered := CanaryFirst(canary);
      var lines: seq<Line> := [];
      ghost var start, failed := Now(), |faults|;
      NoTurns(start, ordered, trust, load);
      for index := 0 to |ordered|
        invariant Valid() && Underway(start, Now(), ordered, lines, trust, load) && |lines| == index
        invariant index > 0 ==> Ended(start, Now(), ordered, lines, trust, load)
        invariant |start.calls| <= |calls| && failed <= |faults|
      {
        var id := ordered[index];
        assert ActiveHere(id);
        ghost var before, faulted := Now(), |faults|;
        var line := ReconcileOne(id);
        TurnTaken(start, before, Now(), ordered, lines, line, trust, load);
        if line.Err? {
          StoppedSince(|before.calls|, faulted, |start.calls|, failed, id, line.error);
          return Err(line.error);
        }
        lines := lines + [line.value];
        if line.value.status != LineSynced && index == 0 {
          break;
        }
      }
      var ready := |lines| == |ordered| && forall i :: 0 <= i < |lines| ==> lines[i].status == LineSynced;
      EndedMeaning(start, Now(), ordered, lines, trust, load);
      ReportMeaning(start, Now(), ordered, lines, trust, load, ready);
      r := Ok(Report(ready, lines));
    }
  }

  datatype LineStatus = OptInRequired | FieldDriftBlocked | LineSynced | LineFailed(category: string)

  datatype Line = Line(vehicle: string, status: LineStatus)

  /** The canary comes first, and only a synced canary is followed by another vehicle. */
  predicate Listed(lines: seq<Line>, canary: string) {
    lines != [] && lines[0].vehicle == canary && (lines[0].status != LineSynced ==> |lines| == 1)
  }

  datatype Report = Report(ready: bool, lines: seq<Line>)

  /** Stored as synced, by opt-in, under this trust profile. */
  predicate UpToDate(state: TelemetryState, trust: TrustProfile) {
    state.fieldHash.Some? && state == SyncedState(trust, state.fieldHash.value, true)
  }

  /** The stored field selection was confirmed at Tesla in between. */
  ghost predicate ConfirmedFor(before: seq<Call>, after: seq<Call>, id: string, state: TelemetryState,
                               trust: TrustProfile, load: Loader) {
    state.fieldHash.Some? && Confirmed(before, after, id, Desired(trust, state.fieldHash.value), trust, load)
  }

  /** What the turns of the first n vehicles may have done. */
  ghost predicate Effects(start: Stored, now: Stored, ordered: seq<string>, n: nat) {
    && 0 < |ordered| && n <= |ordered| && now.states.Keys == start.states.Keys
    && (forall id :: id in start.states ==>
          && now.states[id].fieldHash == start.states[id].fieldHash
          && (!start.states[id].optIn || id !in ordered[..n] ==> now.states[id] == start.states[id]))
    && |start.calls| <= |now.calls| && start.calls == now.calls[..|start.calls|]
    && |start.audits| <= |now.audits|
    && (forall i :: |start.audits| <= i < |now.audits| ==> now.audits[i].completions == 1)
    && (n <= 1 ==> OnlyTouches(start, now, ordered[0]))
  }

  lemma EffectsGrow(start: Stored, before: Stored, now: Stored, ordered: seq<string>, n: nat)
    requires Effects(start, before, ordered, n) && n < |ordered| && OnlyTouches(before, now, ordered[n])
    requires ordered[n] in start.states
    requires TelemetryProfile.Distinct(ordered) && (n == 0 ==> before == start)
    requires now.states[ordered[n]].fieldHash == before.states[ordered[n]].fieldHash
    requires !before.states[ordered[n]].optIn ==> now.states[ordered[n]] == before.states[ordered[n]]
    ensures before.states[ordered[n]] == start.states[ordered[n]] && ordered[n] in now.states
    ensures Effects(start, now, ordered, n + 1) && |start.calls| <= |before.calls| <= |now.calls|
  {
    assert ordered[..n + 1] == ordered[..n] + [ordered[n]];
    assert forall i :: 0 <= i < |before.audits| ==> now.audits[i] == before.audits[i] by {
      assert forall i :: 0 <= i < |before.audits| ==> now.audits[..|before.audits|][i] == now.audits[i];
    }
    assert start.calls == now.calls[..|start.calls|] by {
      assert forall i :: 0 <= i < |before.calls| ==> now.calls[..|before.calls|][i] == now.calls[i];
    }
  }

  /** Where the loop stands before the next vehicle's turn. */
  ghost predicate Underway(start: Stored, now: Stored, ordered: seq<string>, lines: seq<Line>, trust: TrustProfile,
                           load: Loader) {
    && Effects(start, now, ordered, |lines|) && Reported(start, now, ordered, lines, trust, load)
    && TelemetryProfile.Distinct(ordered) && (forall id :: id in ordered ==> id in start.states)
    && if lines == [] then now == start
       else lines[0].status == LineSynced && Established(start, now, ordered[0], trust, load)
  }

  /** The canary is stored as synced, and that was confirmed. */
  ghost predicate Established(start: Stored, now: Stored, canary: string, trust: TrustProfile, load: Loader) {
    canary in now.states && UpToDate(now.states[canary], trust)
    && ConfirmedFor(start.calls, now.calls, canary, now.states[canary], trust, load)
  }

  /** Where it stands after a turn that was reported. */
  ghost predicate Ended(start: Stored, now: Stored, ordered: seq<string>, lines: seq<Line>, trust: TrustProfile,
                        load: Loader) {
    && Effects(start, now, ordered, |lines|) && Reported(start, now, ordered, lines, trust, load)
    && Listed(lines, ordered[0])
    && (|lines| <= 1 || Established(start, now, ordered[0], trust, load))
  }

  lemma TurnTaken(start: Stored, before: Stored, now: Stored, ordered: seq<string>, lines: seq<Line>, turn: Result<Line,
                  Error>,
                  trust: TrustProfile, load: Loader)
    requires Underway(start, before, ordered, lines, trust, load) && |lines| < |ordered|
    requires OnlyTouches(before, now, ordered[|lines|]) && ordered[|lines|] in before.states
    requires now.states[ordered[|lines|]].fieldHash == before.states[ordered[|lines|]].fieldHash
    requires !before.states[ordered[|lines|]].optIn ==> now.states[ordered[|lines|]] == before.states[ordered[|lines|]]
    requires turn.Ok? ==> turn.value.vehicle == ordered[|lines|]
                          && (turn.value.status == OptInRequired <==> !before.states[ordered[|lines|]].optIn)
    requires turn.Ok? && turn.value.status == LineSynced ==>
               Established(before, now, ordered[|lines|], trust, load)
    ensures |start.calls| <= |before.calls| <= |now.calls| && ordered[|lines|] in now.states
    ensures Effects(start, now, ordered, |lines| + 1)
    ensures (lines == [] || Established(start, now, ordered[0], trust, load))
    ensures turn.Ok? ==> Ended(start, now, ordered, lines + [turn.value], trust, load)
    ensures turn.Ok? && (lines != [] || turn.value.status == LineSynced) ==>
              Underway(start, now, ordered, lines + [turn.value], trust, load)
  {
    hide Reported, UpToDate, ConfirmedFor, Effects, OnlyTouches;
    EffectsGrow(start, before, now, ordered, |lines|);
    ReportedKept(start, before, now, ordered, lines, trust, load);
    if turn.Ok? {
      ReportedMore(start, before, now, ordered, lines, turn.value, trust, load);
    }
  }

  lemma EndedMeaning(start: Stored, now: Stored, ordered: seq<string>, lines: seq<Line>, trust: TrustProfile,
                     load: Loader)
    requires Ended(start, now, ordered, lines, trust, load)
    ensures Effects(start, now, ordered, |lines|) && Reported(start, now, ordered, lines, trust, load)
    ensures Listed(lines, ordered[0])
    ensures OnlyTouches(start, now, ordered[0]) || Established(start, now, ordered[0], trust, load)
  {
  }

  lemma ReportedMore(start: Stored, before: Stored, now: Stored, ordered: seq<string>, lines: seq<Line>, line: Line,
                     trust: TrustProfile, load: Loader)
    requires Reported(start, now, ordered, lines, trust, load) && |lines| < |ordered| && |start.calls| <= |before.calls|
    requires line.vehicle == ordered[|lines|] && line.vehicle in now.states && line.vehicle in start.states
    requires line.status == OptInRequired <==> !start.states[line.vehicle].optIn
    requires line.status == LineSynced ==>
               UpToDate(now.states[line.vehicle], trust)
               && ConfirmedFor(before.calls, now.calls, line.vehicle, now.states[line.vehicle], trust, load)
    ensures Reported(start, now, ordered, lines + [line], trust, load)
    ensures lines == [] && line.status == LineSynced ==>
              UpToDate(now.states[ordered[0]], trust)
              && ConfirmedFor(start.calls, now.calls, ordered[0], now.states[ordered[0]], trust, load)
  {
  }

  lemma ReportMeaning(start: Stored, now: Stored, ordered: seq<string>, lines: seq<Line>, trust: TrustProfile,
                      load: Loader, ready: bool)
    requires Reported(start, now, ordered, lines, trust, load) && TelemetryProfile.Distinct(ordered)
    requires ready <==> |lines| == |ordered| && forall i :: 0 <= i < |lines| ==> lines[i].status == LineSynced
    ensures ready ==> forall id :: id in ordered ==>
              id in now.states && UpToDate(now.states[id], trust)
              && ConfirmedFor(start.calls, now.calls, id, now.states[id], trust, load)
    ensures ready <==> forall id :: id in ordered ==> Line(id, LineSynced) in lines
    ensures forall line :: line in lines ==>
              line.vehicle in ordered && line.vehicle in start.states
              && (line.status == OptInRequired <==> !start.states[line.vehicle].optIn)
    ensures lines != [] ==> lines[0].vehicle == ordered[0]
    ensures |lines| == |ordered| ==> forall id :: id in ordered ==> exists line :: line in lines && line.vehicle == id
  {
    hide UpToDate, ConfirmedFor;
    if |lines| == |ordered| {
      forall id | id in ordered ensures exists line :: line in lines && line.vehicle == id {
        var i :| 0 <= i < |ordered| && ordered[i] == id;
        assert lines[i] in lines;
      }
    }
    if ready {
      forall id | id in ordered ensures Line(id, LineSynced) in lines {
        var i :| 0 <= i < |ordered| && ordered[i] == id;
        assert lines[i] == Line(id, LineSynced);
      }
    } else if forall id :: id in ordered ==> Line(id, LineSynced) in lines {
      if i :| 0 <= i < |lines| && lines[i].status != LineSynced {
        NotListed(start, now, ordered, lines, trust, load, i);
      } else {
        NotListed(start, now, ordered, lines, trust, load, |lines|);
      }
    }
  }

  /** A vehicle whose line says something else, or that has none, is not listed as synced. */
  lemma NotListed(start: Stored, now: Stored, ordered: seq<string>, lines: seq<Line>, trust: TrustProfile, load: Loader,
                  i: nat)
    requires Reported(start, now, ordered, lines, trust, load) && TelemetryProfile.Distinct(ordered) && i < |ordered|
    requires i < |lines| ==> lines[i].status != LineSynced
    ensures Line(ordered[i], LineSynced) !in lines
  {
  }

  lemma NothingTouched(s: Stored, id: string, trust: TrustProfile, load: Loader)
    ensures OnlyTouches(s, s, id)
  {
  }

  lemma NoTurns(s: Stored, ordered: seq<string>, trust: TrustProfile, load: Loader)
    requires ordered != []
    requires TelemetryProfile.Distinct(ordered) && forall id :: id in ordered ==> id in s.states
    ensures Underway(s, s, ordered, [], trust, load)
  {
  }

  /** What the report says of the vehicles that had their turn. */
  ghost predicate Reported(start: Stored, now: Stored, ordered: seq<string>, lines: seq<Line>, trust: TrustProfile,
                           load: Loader) {
    && |lines| <= |ordered|
    && forall i :: 0 <= i < |lines| ==>
         && lines[i].vehicle == ordered[i] && ordered[i] in now.states && ordered[i] in start.states
         && (lines[i].status == OptInRequired <==> !start.states[ordered[i]].optIn)
         && (lines[i].status == LineSynced ==>
               UpToDate(now.states[ordered[i]], trust)
               && ConfirmedFor(start.calls, now.calls, ordered[i], now.states[ordered[i]], trust, load))
  }

  lemma ReportedKept(start: Stored, before: Stored, now: Stored, ordered: seq<string>, lines: seq<Line>,
                     trust: TrustProfile, load: Loader)
    requires Reported(start, before, ordered, lines, trust, load) && |lines| < |ordered|
    requires TelemetryProfile.Distinct(ordered)
    requires OnlyTouches(before, now, ordered[|lines|])
    ensures Reported(start, now, ordered, lines, trust, load)
    ensures |lines| > 0 && lines[0].status == LineSynced ==>
              UpToDate(now.states[ordered[0]], trust)
              && ConfirmedFor(start.calls, now.calls, ordered[0], now.states[ordered[0]], trust, load)
  {
  }

  /** Nothing was sent to Tesla in between except, if given, this configuration. */
  ghost predicate Sends(before: seq<Call>, after: seq<Call>, config: Option<Config>) {
    |before| <= |after| && forall i :: |before| <= i < |after| ==>
      !after[i].ConfigDeleted? && (after[i].ConfigCreated? ==> Some(after[i].config) == config)
  }

  lemma NothingSent(before: seq<Call>, call: Call, config: Config)
    requires call.StatusRead?
    ensures Sends(before, before + [call], None) && Sends(before, before + [call], Some(config))
  {
  }

  lemma SendsOn(a: seq<Call>, b: seq<Call>, c: seq<Call>, config: Option<Config>)
    requires Sends(a, b, config) && (Sends(b, c, config) || Sends(b, c, None)) && |b| <= |c| && b == c[..|b|]
    ensures Sends(a, c, config)
  {
  }

  lemma ConfirmedSince(a: seq<Call>, b: seq<Call>, c: seq<Call>, d: seq<Call>, id: string, desired: Config,
                       trust: TrustProfile, load: Loader)
    requires |a| <= |b| && |c| <= |d| && c == d[..|c|] && Confirmed(b, c, id, desired, trust, load)
    ensures Confirmed(a, d, id, desired, trust, load)
  {
    hide ReportsSynced;
    var i :| |b| <= i < |c| - 1 && c[i].ConfigRead? && c[i].vehicle == id && c[i].synced
             && ReportsSynced(c[i].document, desired, trust, load) && c[i + 1] == ErrorsRead(id, false);
    assert d[i] == c[i] && d[i + 1] == c[i + 1];
  }

  /** An operation on one vehicle changes its stored state to the goal or not at all, succeeds only if
      it did so under an audit record that says succeeded, and no such record says so wrongly. */
  ghost predicate Audited(before: Stored, after: Stored, id: string, operation: Operation, hash: Option<ConfigHash>,
                          goal: TelemetryState, error: Option<Error>)
  {
    && after.states.Keys == before.states.Keys
    && (id in after.states ==> after.states[id] in {before.states[id], goal})
    && |before.audits| <= |after.audits| <= |before.audits| + 1
    && (|after.audits| == |before.audits| ==> after.states == before.states && error.Some?)
    && (|after.audits| > |before.audits| ==>
          var record := after.audits[|before.audits|];
          && id in after.states && record.operation == operation && record.hash == hash
          && (record.result == Succeeded ==> after.states[id] == goal)
          && (record.result.Failed? ==> error.Some?)
          && (error.None? ==> record.result == Succeeded))
  }

  /** Reads alone are no outcome of an operation. */
  lemma Unsettled(before: Stored, after: Stored, id: string, operation: Operation, hash: Option<ConfigHash>,
                  goal: TelemetryState)
    requires after.states == before.states && after.audits == before.audits && CallsGrow(before.calls, after.calls, id)
    ensures OnlyTouches(before, after, id)
    ensures forall error: Error :: Audited(before, after, id, operation, hash, goal, Some(error))
  {
  }

  /** Reading the plan first takes nothing away from what was done under it. */
  lemma AfterReading(before: Stored, read: Stored, after: Stored, id: string, hash: Option<ConfigHash>,
                     goal: TelemetryState, error: Option<Error>)
    requires read.states == before.states && read.audits == before.audits && CallsGrow(before.calls, read.calls, id)
    requires OnlyTouches(read, after, id) && Audited(read, after, id, Operation.Apply, hash, goal, error)
    ensures OnlyTouches(before, after, id) && Audited(before, after, id, Operation.Apply, hash, goal, error)
    ensures |read.calls| <= |after.calls| && read.calls == after.calls[..|read.calls|]
  {
    CallsGrowOn(before.calls, read.calls, after.calls, id);
  }

  /** Applying the stored field selection keeps it. */
  lemma AppliedKeepsFields(before: Stored, after: Stored, id: string, trust: TrustProfile, hash: FieldHash,
                           error: Option<Error>)
    requires id in before.states && before.states[id].fieldHash == Some(hash)
    requires Audited(before, after, id, Operation.Apply, Some(HashOf(trust, hash)), SyncedState(trust, hash, true),
                     error)
    ensures id in after.states && after.states[id].fieldHash == Some(hash)
    ensures error.None? ==> UpToDate(after.states[id], trust)
  {
  }

  /** One operation under one record: what was tried failed or reached the goal, and completing the
      record was attempted once. */
  lemma Settled(before: Stored, after: Stored, id: string, operation: Operation, hash: Option<ConfigHash>,
                goal: TelemetryState,
                failure: Option<Error>, incomplete: Option<Error>)
    requires id in before.states && id in after.states && after.states == before.states[id := after.states[id]]
    requires after.states[id] in {before.states[id], goal} && (failure.None? ==> after.states[id] == goal)
    requires CallsGrow(before.calls, after.calls, id)
    requires |after.audits| == |before.audits| + 1 && after.audits[..|before.audits|] == before.audits
    requires var record, outcome := 
                 after.audits[|before.audits|], if failure.None? then Succeeded else Failed(Category(failure.value));
             && record == AuditRecord(id, operation, hash, record.result, 1)
             && record.result in {Attempted, outcome} && (incomplete.None? ==> record.result == outcome)
    ensures OnlyTouches(before, after, id)
    ensures Audited(before, after, id, operation, hash, goal, if incomplete.Some? then incomplete else failure)
  {
  }
}
