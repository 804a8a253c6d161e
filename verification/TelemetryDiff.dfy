/**
 Operator-safe telemetry documents and the difference between two of them.

 Loading certificates is a parameter. A digest of sorted certificates is their multiset, a sorted
 list of alert types is theirs, and numbers are equal by value, as in the source language.
 */
module TelemetryDiff {
  import opened Wrappers
  import opened TelemetryConfig

  datatype Certificate = Certificate(der: string, isCa: bool)

  type Loader = string -> Option<seq<Certificate>>

  datatype SafeCa = SafeCa(profileId: Option<string>, digest: multiset<string>, count: nat, containsNonCa: bool)

  datatype SafeDocument = SafeDocument(hostname: string, port: int, ca: SafeCa, fields: map<string, Field>,
                                       alertTypes: multiset<AlertType>, deliveryPolicy: Option<string>)

  // ---------------------------------------------------------------------------------------------
  // Safe documents

  function Value(n: Number): real {
    match n case Whole(i) => i as real case Fraction(r) => r
  }

  /** A field with its delta reduced to a value. */
  function Canonical(f: Field): Field {
    if f.delta.None? then f else f.(delta := Some(Fraction(Value(f.delta.value))))
  }

  function CanonicalFields(fields: map<string, Field>): map<string, Field> {
    map name | name in fields :: Canonical(fields[name])
  }

  function Ders(certificates: seq<Certificate>): seq<string> {
    seq(|certificates|, i requires 0 <= i < |certificates| => certificates[i].der)
  }

  predicate ContainsNonCa(certificates: seq<Certificate>) {
    exists i :: 0 <= i < |certificates| && !certificates[i].isCa
  }

  predicate Readable(c: Config, load: Loader) {
    load(c.ca).Some? && load(c.ca).value != []
  }

  function Safe(c: Config, profileId: Option<string>, load: Loader): SafeDocument
    requires Readable(c, load)
  {
    var certificates := load(c.ca).value;
    SafeDocument(c.hostname, c.port,
                 SafeCa(profileId, multiset(Ders(certificates)), |certificates|, ContainsNonCa(certificates)),
                 CanonicalFields(c.fields), multiset(c.alertTypes), c.deliveryPolicy)
  }

  method SafeConfigDocument(c: Config, profileId: Option<string>, load: Loader) returns (r: Option<SafeDocument>)
    ensures r == if Readable(c, load) then Some(Safe(c, profileId, load)) else None
    ensures r.Some? <==> load(c.ca).Some? && |load(c.ca).value| > 0
  {
    var loaded := load(c.ca);
    if loaded.None? || loaded.value == [] {
      return None;
    }
    var certificates := loaded.value;
    var containsNonCa := false;
    for i := 0 to |certificates|
      invariant containsNonCa <==> exists k :: 0 <= k < i && !certificates[k].isCa
    {
      containsNonCa := containsNonCa || !certificates[i].isCa;
    }
    r := Some(SafeDocument(c.hostname, c.port,
                           SafeCa(profileId, multiset(Ders(certificates)), |certificates|, containsNonCa),
                           CanonicalFields(c.fields), multiset(c.alertTypes), c.deliveryPolicy));
  }

  // ---------------------------------------------------------------------------------------------
  // Differences

  datatype Section =
    | Text(text: string)
    | Port(port: int)
    | Trust(ca: SafeCa)
    | AlertSet(alerts: multiset<AlertType>)
    | Policy(policy: Option<string>)

  const SECTIONS := ["hostname", "port", "ca", "alert_types", "delivery_policy"]

  function SectionOf(d: SafeDocument, key: string): Section {
    match key
    case "hostname" => Text(d.hostname)
    case "port" => Port(d.port)
    case "ca" => Trust(d.ca)
    case "alert_types" => AlertSet(d.alertTypes)
    case _ => Policy(d.deliveryPolicy)
  }

  /** The trust profile's name is not compared. */
  function Comparable(s: Section): Section {
    if s.Trust? then Trust(s.ca.(profileId := None)) else s
  }

  predicate SectionDiffers(current: SafeDocument, desired: SafeDocument, key: string) {
    Comparable(SectionOf(current, key)) != Comparable(SectionOf(desired, key))
  }

  datatype Change<T> = Change(current: T, desired: T)

  datatype FieldChanges = FieldChanges(added: map<string, Field>, removed: map<string, Field>,
                                       changed: map<string, Change<Field>>)

  datatype Diff =
    | Absent(desired: SafeDocument)
    | InSync
    | Drifted(sections: map<string, Change<Section>>, fields: FieldChanges)

  function SectionChanges(current: SafeDocument, desired: SafeDocument): map<string, Change<Section>> {
    map key | key in SECTIONS && SectionDiffers(current, desired, key) ::
         Change(SectionOf(current, key), SectionOf(desired, key))
  }

  /** The fields of the second map whose names the first one lacks. */
  function Lacking(fields: map<string, Field>, other: map<string, Field>): map<string, Field> {
    map name | name in other && name !in fields :: other[name]
  }

  function Changed(current: map<string, Field>, desired: map<string, Field>): map<string, Change<Field>> {
    map name | name in current && name in desired && current[name] != desired[name] ::
         Change(current[name], desired[name])
  }

  function DiffFields(current: map<string, Field>, desired: map<string, Field>): FieldChanges {
    FieldChanges(Lacking(current, desired), Lacking(desired, current), Changed(current, desired))
  }

  function DiffOf(current: SafeDocument, desired: SafeDocument): Diff {
    var sections := SectionChanges(current, desired);
    var fields := DiffFields(current.fields, desired.fields);
    if sections == map[] && fields == FieldChanges(map[], map[], map[]) then InSync else Drifted(sections, fields)
  }

  method CompareSections(now: SafeDocument, goal: SafeDocument) returns (changes: map<string, Change<Section>>)
    ensures changes == SectionChanges(now, goal)
  {
    hide SectionDiffers, SectionOf;
    changes := map[];
    for i := 0 to |SECTIONS|
      invariant changes == map key | key in SECTIONS[..i] && SectionDiffers(now, goal, key) ::
                             Change(SectionOf(now, key), SectionOf(goal, key))
    {
      var key := SECTIONS[i];
      assert SECTIONS[..i + 1] == SECTIONS[..i] + [key];
      if SectionDiffers(now, goal, key) {
        changes := changes[key := Change(SectionOf(now, key), SectionOf(goal, key))];
      }
    }
    assert SECTIONS[..|SECTIONS|] == SECTIONS;
  }

  /** Fails only if a certificate bundle cannot be read. */
  method ConfigDiff(current: Option<Config>, desired: Config, trustProfileId: string, load: Loader)
    returns (r: Option<Diff>)
    ensures r.Some? <==> Readable(desired, load) && (current.Some? ==> Readable(current.value, load))
    ensures r.Some? ==> r.value == if current.None? then Absent(Safe(desired, Some(trustProfileId), load))
                                   else DiffOf(Safe(current.value, None, load),
                                               Safe(desired, Some(trustProfileId), load))
  {
    hide Safe, Readable, SectionDiffers, SectionChanges, Lacking, Changed;
    var desiredSafe := SafeConfigDocument(desired, Some(trustProfileId), load);
    if desiredSafe.None? {
      return None;
    }
    if current.None? {
      return Some(Absent(desiredSafe.value));
    }
    var currentSafe := SafeConfigDocument(current.value, None, load);
    if currentSafe.None? {
      return None;
    }
    var now, goal := currentSafe.value, desiredSafe.value;
    var changes := CompareSections(now, goal);
    var added := Lacking(now.fields, goal.fields);
    var removed := Lacking(goal.fields, now.fields);
    var changed := Changed(now.fields, goal.fields);
    if changes == map[] && added == map[] && removed == map[] && changed == map[] {
      return Some(InSync);
    }
    r := Some(Drifted(changes, FieldChanges(added, removed, changed)));
  }

  // ---------------------------------------------------------------------------------------------
  // What a difference means

  function Patched(fields: map<string, Field>, d: FieldChanges): map<string, Field> {
    fields - d.removed.Keys + d.added + map name | name in d.changed :: d.changed[name].desired
  }

  function Reverted(fields: map<string, Field>, d: FieldChanges): map<string, Field> {
    fields - d.added.Keys + d.removed + map name | name in d.changed :: d.changed[name].current
  }

  /** Whether the two maps disagree on a field. */
  predicate FieldDiffers(current: map<string, Field>, desired: map<string, Field>, name: string) {
    (name in current) != (name in desired) || (name in current && name in desired && current[name] != desired[name])
  }

  /** The field changes lead from the current fields to the desired ones and back. */
  lemma FieldChangesArePatch(current: map<string, Field>, desired: map<string, Field>)
    ensures Patched(current, DiffFields(current, desired)) == desired
    ensures Reverted(desired, DiffFields(current, desired)) == current
  {
    hide Reverted, Patched;
    PatchLeadsForward(current, desired);
    PatchLeadsBack(current, desired);
  }

  lemma PatchLeadsForward(current: map<string, Field>, desired: map<string, Field>)
    ensures Patched(current, DiffFields(current, desired)) == desired
  {
    assert Patched(current, DiffFields(current, desired)).Keys == desired.Keys;
  }

  lemma PatchLeadsBack(current: map<string, Field>, desired: map<string, Field>)
    ensures Reverted(desired, DiffFields(current, desired)) == current
  {
    assert Reverted(desired, DiffFields(current, desired)).Keys == current.Keys;
  }

  /** They name every field that differs exactly once, and nothing else. */
  lemma FieldChangesAreMinimal(current: map<string, Field>, desired: map<string, Field>)
    ensures var d := DiffFields(current, desired);
            && d.added.Keys !! d.removed.Keys !! d.changed.Keys
            && (forall name :: name in d.added.Keys + d.removed.Keys + d.changed.Keys
                  <==> FieldDiffers(current, desired, name))
  {
  }

  lemma NoFieldChanges(current: map<string, Field>, desired: map<string, Field>)
    ensures DiffFields(current, desired) == FieldChanges(map[], map[], map[]) <==> current == desired
  {
    if DiffFields(current, desired) == FieldChanges(map[], map[], map[]) {
      FieldChangesArePatch(current, desired);
      assert Patched(current, FieldChanges(map[], map[], map[])) == current;
    }
  }

  /** In sync means equal documents, apart from the trust profile's name. */
  lemma InSyncExactly(current: SafeDocument, desired: SafeDocument)
    ensures DiffOf(current, desired) == InSync <==>
              current.(ca := current.ca.(profileId := None)) == desired.(ca := desired.ca.(profileId := None))
  {
    NoFieldChanges(current.fields, desired.fields);
    NoSectionChanges(current, desired);
    hide SectionDiffers, SectionChanges, DiffFields;
  }

  lemma NoSectionChanges(current: SafeDocument, desired: SafeDocument)
    ensures SectionChanges(current, desired) == map[]
            <==> forall key :: key in SECTIONS ==> !SectionDiffers(current, desired, key)
    ensures (forall key :: key in SECTIONS ==> !SectionDiffers(current, desired, key)) <==>
              && current.hostname == desired.hostname && current.port == desired.port
              && current.ca.(profileId := None) == desired.ca.(profileId := None)
              && current.alertTypes == desired.alertTypes && current.deliveryPolicy == desired.deliveryPolicy
  {
    if forall key :: key in SECTIONS ==> !SectionDiffers(current, desired, key) {
      assert !SectionDiffers(current, desired, SECTIONS[0]) && !SectionDiffers(current, desired, SECTIONS[1])
             && !SectionDiffers(current, desired, SECTIONS[2]) && !SectionDiffers(current, desired, SECTIONS[3])
             && !SectionDiffers(current, desired, SECTIONS[4]);
    }
    if key :| key in SECTIONS && SectionDiffers(current, desired, key) {
      assert key in SectionChanges(current, desired);
    }
  }

  /** Numbers are equal by value, whole or not. */
  predicate SameNumber(a: Number, b: Number) {
    match (a, b)
    case (Whole(i), Whole(j)) => i == j
    case (Whole(i), Fraction(r)) => i as real == r
    case (Fraction(r), Whole(i)) => r == i as real
    case (Fraction(r), Fraction(t)) => r == t
  }

  /** The two fields are streamed alike: every setting is the same, a minimum delta by its value. */
  predicate SameSettings(f: Field, g: Field) {
    && f.interval == g.interval && f.resend == g.resend && f.includes == g.includes
    && match (f.delta, g.delta)
       case (None, None) => true
       case (Some(a), Some(b)) => SameNumber(a, b)
       case _ => false
  }

  predicate SameFields(current: map<string, Field>, desired: map<string, Field>) {
    && current.Keys == desired.Keys
    && forall name :: name in current ==> SameSettings(current[name], desired[name])
  }

  /** Which fields a difference reports: those that only one side configures, and those not streamed alike. */
  lemma FieldDiffersExactly(current: map<string, Field>, desired: map<string, Field>, name: string)
    ensures FieldDiffers(CanonicalFields(current), CanonicalFields(desired), name) <==>
              || (name in current) != (name in desired)
              || (name in current && name in desired && !SameSettings(current[name], desired[name]))
  {
  }

  lemma SameFieldsExactly(current: map<string, Field>, desired: map<string, Field>)
    ensures CanonicalFields(current) == CanonicalFields(desired) <==> SameFields(current, desired)
  {
    forall name ensures FieldDiffers(CanonicalFields(current), CanonicalFields(desired), name) <==>
      || (name in current) != (name in desired)
      || (name in current && name in desired && !SameSettings(current[name], desired[name]))
    {
      FieldDiffersExactly(current, desired, name);
    }
    hide SameSettings, Canonical;
    if SameFields(current, desired) {
      forall name | name in current ensures CanonicalFields(current)[name] == CanonicalFields(desired)[name] {
        assert !FieldDiffers(CanonicalFields(current), CanonicalFields(desired), name);
      }
    }
  }

  /** In sync in terms of the configurations themselves: same host and port, the same certificates with a
      non-CA one on both sides or neither, the same fields streamed alike, the same alerts in any order,
      and the same delivery policy. */
  lemma ConfigsInSyncExactly(current: Config, desired: Config, profileId: Option<string>, load: Loader)
    requires Readable(current, load) && Readable(desired, load)
    ensures DiffOf(Safe(current, None, load), Safe(desired, profileId, load)) == InSync <==>
              && current.hostname == desired.hostname && current.port == desired.port
              && SameCertificates(load(current.ca).value, load(desired.ca).value)
              && SameFields(current.fields, desired.fields)
              && multiset(current.alertTypes) == multiset(desired.alertTypes)
              && current.deliveryPolicy == desired.deliveryPolicy
  {
    InSyncExactly(Safe(current, None, load), Safe(desired, profileId, load));
    SameFieldsExactly(current.fields, desired.fields);
    SameCount(load(current.ca).value, load(desired.ca).value);
    hide DiffOf, CanonicalFields, SameFields, Ders, ContainsNonCa;
  }

  /** The same encodings, each as often, and a certificate that is no CA on both sides or on neither. */
  predicate SameCertificates(a: seq<Certificate>, b: seq<Certificate>) {
    && multiset(Ders(a)) == multiset(Ders(b))
    && ((exists i :: 0 <= i < |a| && !a[i].isCa) <==> (exists i :: 0 <= i < |b| && !b[i].isCa))
  }

  lemma SameCount(a: seq<Certificate>, b: seq<Certificate>)
    ensures multiset(Ders(a)) == multiset(Ders(b)) ==> |a| == |b|
    ensures SameCertificates(a, b) <==>
              multiset(Ders(a)) == multiset(Ders(b)) && (ContainsNonCa(a) <==> ContainsNonCa(b))
  {
    assert |multiset(Ders(a))| == |a| && |multiset(Ders(b))| == |b|;
  }

  /** What a difference shows of the sections: each that differs, its current value first. */
  lemma SectionChangesExactly(current: SafeDocument, desired: SafeDocument)
    ensures var changes := SectionChanges(current, desired);
            && (forall key :: key in changes ==> key in {"hostname", "port", "ca", "alert_types", "delivery_policy"})
            && ("hostname" in changes <==> current.hostname != desired.hostname)
            && ("hostname" in changes ==> changes["hostname"] == Change(Text(current.hostname), Text(desired.hostname)))
            && ("port" in changes <==> current.port != desired.port)
            && ("port" in changes ==> changes["port"] == Change(Port(current.port), Port(desired.port)))
            && ("ca" in changes <==> current.ca.(profileId := None) != desired.ca.(profileId := None))
            && ("ca" in changes ==> changes["ca"] == Change(Trust(current.ca), Trust(desired.ca)))
    ensures var changes := SectionChanges(current, desired);
            && ("alert_types" in changes <==> current.alertTypes != desired.alertTypes)
            && ("alert_types" in changes ==>
                  changes["alert_types"] == Change(AlertSet(current.alertTypes), AlertSet(desired.alertTypes)))
            && ("delivery_policy" in changes <==> current.deliveryPolicy != desired.deliveryPolicy)
            && ("delivery_policy" in changes ==>
                  changes["delivery_policy"] == Change(Policy(current.deliveryPolicy), Policy(desired.deliveryPolicy)))
  {
    assert "hostname" == SECTIONS[0] && "port" == SECTIONS[1] && "ca" == SECTIONS[2]
           && "alert_types" == SECTIONS[3] && "delivery_policy" == SECTIONS[4];
  }

  /** A vehicle that reports back what it was sent is in sync, whatever the configuration. */
  lemma AppliedConfigIsInSync(document: map<string, Json>, sent: Config, profileId: Option<string>, load: Loader)
    requires Get(document, "config", JNull) == JObject(Payload(sent)) && Readable(sent, load)
    ensures Parsed(document).Ok? && Parsed(document).value.Some?
    ensures Readable(Parsed(document).value.value, load)
    ensures DiffOf(Safe(Parsed(document).value.value, None, load), Safe(sent, profileId, load)) == InSync
  {
    hide Payload, Parsed, Get, DiffOf;
    PayloadRoundTrip(document, sent);
    InSyncExactly(Safe(sent.(exp := None), None, load), Safe(sent, profileId, load));
  }
}
