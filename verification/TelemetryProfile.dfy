/**
 The declarative telemetry profile: a reviewed baseline, the changes made to it, and what one vehicle's
 client version leaves of the result.

 The catalog and the sections are arbitrary inputs. A version is what the version pattern matched.
 */
module TelemetryProfile {
  import opened Wrappers
  import opened TelemetryConfig

  const BASELINE_SIZE: nat := 93
  const SELF_DRIVING := {"MilesSinceReset", "SelfDrivingMilesSinceReset"}

  /** The sections without their rationales. */
  datatype Sections = Sections(catalog: set<string>, baseline: map<string, Field>, overrides: map<string, Field>,
                               additions: map<string, Field>, removals: map<string, string>,
                               omissions: map<string, string>)

  /** What a capability omission is about: a field, or only the fields included with it. */
  datatype Omission = OfField(name: string) | OfIncludes(name: string)

  datatype Profile = Profile(fields: map<string, Field>, excluded: map<string, string>,
                             capabilityOmissions: set<Omission>)

  type Version = (nat, nat, nat)

  // ---------------------------------------------------------------------------------------------
  // Loading

  predicate Distinct(s: seq<string>) {
    forall i, j :: 0 <= i < j < |s| ==> s[i] != s[j]
  }

  /** Self-driving statistics include, and are included by, only each other. */
  predicate LoadedField(catalog: set<string>, name: string, f: Field) {
    && name in catalog && f.interval > 0 && f.resend.None?
    && (f.delta.Some? ==> match f.delta.value case Whole(i) => i > 0 case Fraction(r) => r > 0.0)
    && Distinct(f.includes) && name !in f.includes
    && forall i :: i in f.includes ==>
         i in catalog && (name in SELF_DRIVING || i in SELF_DRIVING ==> {name, i} == SELF_DRIVING)
  }

  /** The section loaders accepted every entry. */
  ghost predicate Loaded(s: Sections) {
    && (forall name :: name in s.baseline ==> LoadedField(s.catalog, name, s.baseline[name]))
    && (forall name :: name in s.overrides ==> LoadedField(s.catalog, name, s.overrides[name]))
    && (forall name :: name in s.additions ==> LoadedField(s.catalog, name, s.additions[name]))
    && s.removals.Keys <= s.catalog && s.omissions.Keys <= s.catalog
  }

  datatype PartitionError =
    | BaselineSize
    | OverridesOutsideBaseline
    | RemovalsOutsideBaseline
    | OverriddenAndRemoved
    | AdditionsInBaseline
    | OmissionsInBaseline
    | AddedAndOmitted
    | Undecided

  function PartitionErrorOf(s: Sections): Option<PartitionError> {
    var baseline := s.baseline.Keys;
    if |baseline| != BASELINE_SIZE then Some(BaselineSize)
    else if !(s.overrides.Keys <= baseline) then Some(OverridesOutsideBaseline)
    else if !(s.removals.Keys <= baseline) then Some(RemovalsOutsideBaseline)
    else if s.overrides.Keys * s.removals.Keys != {} then Some(OverriddenAndRemoved)
    else if s.additions.Keys * baseline != {} then Some(AdditionsInBaseline)
    else if s.omissions.Keys * baseline != {} then Some(OmissionsInBaseline)
    else if s.additions.Keys * s.omissions.Keys != {} then Some(AddedAndOmitted)
    else if s.additions.Keys + s.omissions.Keys != s.catalog - baseline then Some(Undecided)
    else None
  }

  // ---------------------------------------------------------------------------------------------
  // Merging

  predicate AtLeast(version: Option<Version>, minimum: Version) {
    version.Some? && !Less(version.value, minimum)
  }

  predicate Less(a: Version, b: Version) {
    a.0 < b.0 || (a.0 == b.0 && (a.1 < b.1 || (a.1 == b.1 && a.2 < b.2)))
  }

  const SELF_DRIVING_SINCE: Version := (1, 2, 0)
  const INCLUDES_SINCE: Version := (1, 3, 0)

  function Merged(s: Sections): map<string, Field> {
    s.baseline - s.removals.Keys + s.overrides + s.additions
  }

  predicate Supported(version: Option<Version>, name: string) {
    AtLeast(version, SELF_DRIVING_SINCE) || name !in SELF_DRIVING
  }

  function Projected(version: Option<Version>, f: Field): Field {
    if AtLeast(version, INCLUDES_SINCE) then f else f.(includes := [])
  }

  function Fields(s: Sections, version: Option<Version>): map<string, Field> {
    map name | name in Merged(s) && Supported(version, name) :: Projected(version, Merged(s)[name])
  }

  function OfFields(names: set<string>): set<Omission> {
    set name | name in names :: OfField(name)
  }

  function OfAllIncludes(fields: map<string, Field>): set<Omission> {
    set name | name in fields && fields[name].includes != [] :: OfIncludes(name)
  }

  /** The merged fields that the version supports. */
  function SupportedFields(s: Sections, version: Option<Version>): map<string, Field> {
    map name | name in Merged(s) && Supported(version, name) :: Merged(s)[name]
  }

  function CapabilityOmissions(s: Sections, version: Option<Version>): set<Omission> {
    OfFields(Merged(s).Keys - SupportedFields(s, version).Keys)
    + if AtLeast(version, INCLUDES_SINCE) then {} else OfAllIncludes(SupportedFields(s, version))
  }

  /** The dictionaries edited in place. */
  method BroadProfile(s: Sections, version: Option<Version>) returns (r: Result<Profile, PartitionError>)
    ensures PartitionErrorOf(s).Some? ==> r == Err(PartitionErrorOf(s).value)
    ensures PartitionErrorOf(s).None? ==>
              r == Ok(Profile(Fields(s, version), s.omissions + s.removals, CapabilityOmissions(s, version)))
  {
    hide AtLeast, OfFields, OfAllIncludes, PartitionErrorOf, Fields, SupportedFields;
    var error := PartitionErrorOf(s);
    if error.Some? {
      return Err(error.value);
    }
    RemovalsInBaseline(s);
    var configured := RemoveAll(s.baseline, s.removals.Keys);
    configured := configured + s.overrides;
    configured := configured + s.additions;
    var omitted: set<Omission> := {};
    SupportedByVersion(s, version);
    if !AtLeast(version, SELF_DRIVING_SINCE) {
      configured, omitted := OmitFields(configured, SELF_DRIVING * configured.Keys);
    } else {
      NoFields();
    }
    assert configured == SupportedFields(s, version);
    if !AtLeast(version, INCLUDES_SINCE) {
      var more;
      configured, more := OmitIncludes(configured);
      omitted := omitted + more;
    }
    assert configured == Fields(s, version);
    assert omitted == CapabilityOmissions(s, version);
    r := Ok(Profile(configured, s.omissions + s.removals, omitted));
  }

  lemma RemovalsInBaseline(s: Sections)
    requires PartitionErrorOf(s).None?
    ensures s.removals.Keys <= s.baseline.Keys
  {
  }

  /** Which merged fields are supported, and how they are configured. */
  lemma SupportedByVersion(s: Sections, version: Option<Version>)
    ensures !AtLeast(version, SELF_DRIVING_SINCE) ==>
              && SupportedFields(s, version) == Merged(s) - SELF_DRIVING * Merged(s).Keys
              && Merged(s).Keys - SupportedFields(s, version).Keys == SELF_DRIVING * Merged(s).Keys
    ensures AtLeast(version, SELF_DRIVING_SINCE) ==>
              SupportedFields(s, version) == Merged(s) && Merged(s).Keys - SupportedFields(s, version).Keys == {}
    ensures Fields(s, version)
            == if AtLeast(version, INCLUDES_SINCE) then SupportedFields(s, version)
               else map name | name in SupportedFields(s, version) :: SupportedFields(s, version)[name].(includes := [])
  {
    hide AtLeast, Merged;
    var supported := SupportedFields(s, version);
    assert !AtLeast(version, SELF_DRIVING_SINCE) ==>
             supported.Keys == Merged(s).Keys - SELF_DRIVING && supported == Merged(s) - SELF_DRIVING * Merged(s).Keys;
    assert Fields(s, version).Keys == supported.Keys;
    assert forall name :: name in supported ==> Fields(s, version)[name] == Projected(version, supported[name]);
  }

  lemma NoFields()
    ensures OfFields({}) == {}
  {
  }

  lemma OneMoreField(names: set<string>, name: string)
    ensures OfFields(names + {name}) == OfFields(names) + {OfField(name)}
  {
  }

  method RemoveAll(fields: map<string, Field>, names: set<string>) returns (configured: map<string, Field>)
    requires names <= fields.Keys
    ensures configured == fields - names
  {
    configured := fields;
    var todo := names;
    while todo != {}
      invariant todo <= names && configured == fields - (names - todo)
      decreases |todo|
    {
      var name :| name in todo;
      configured := configured - {name};
      todo := todo - {name};
    }
    assert names - todo == names;
  }

  method OmitFields(fields: map<string, Field>, names: set<string>)
    returns (configured: map<string, Field>, omitted: set<Omission>)
    ensures configured == fields - names && omitted == OfFields(names)
  {
    hide OfFields;
    NoFields();
    configured, omitted := fields, {};
    var todo := names;
    assert names - todo == {};
    while todo != {}
      invariant todo <= names && configured == fields - (names - todo)
      invariant omitted == OfFields(names - todo)
      decreases |todo|
    {
      var name :| name in todo;
      OneMoreField(names - todo, name);
      assert names - (todo - {name}) == names - todo + {name};
      omitted := omitted + {OfField(name)};
      configured := configured - {name};
      todo := todo - {name};
    }
    assert names - todo == names;
  }

  method OmitIncludes(fields: map<string, Field>) returns (configured: map<string, Field>, omitted: set<Omission>)
    ensures configured == map name | name in fields :: fields[name].(includes := [])
    ensures omitted == OfAllIncludes(fields)
  {
    configured, omitted := fields, {};
    var todo := fields.Keys;
    while todo != {}
      invariant todo <= fields.Keys
      invariant configured == map name | name in fields ::
                                if name in todo then fields[name] else fields[name].(includes := [])
      invariant omitted == set name | name in fields && name !in todo && fields[name].includes != [] :: OfIncludes(name)
      decreases |todo|
    {
      var name :| name in todo;
      if fields[name].includes != [] {
        configured := configured[name := fields[name].(includes := [])];
        omitted := omitted + {OfIncludes(name)};
      }
      todo := todo - {name};
    }
  }

  // ---------------------------------------------------------------------------------------------
  // Properties of every accepted profile

  lemma Common(a: set<string>, b: set<string>)
    ensures a * b != {} <==> exists n :: n in a && n in b
    ensures !(a <= b) <==> exists n :: n in a && n !in b
  {
    assert forall n :: n in a * b <==> n in a && n in b;
  }

  lemma Covered(a: set<string>, b: set<string>, all: set<string>, base: set<string>)
    ensures a + b == all - base <==> forall n :: n in a || n in b <==> n in all && n !in base
  {
    assert forall n :: n in a + b <==> n in a || n in b;
    assert forall n :: n in all - base <==> n in all && n !in base;
  }

  /** The sections are accepted exactly if the baseline has its 93 fields, overrides and removals are about
      different ones of them, and the rest of the catalog is split into additions and omissions. */
  lemma PartitionExactly(s: Sections)
    ensures PartitionErrorOf(s).None? <==>
              && |s.baseline.Keys| == 93
              && (forall n :: n in s.overrides.Keys || n in s.removals.Keys ==> n in s.baseline.Keys)
              && (forall n :: n in s.overrides.Keys ==> n !in s.removals.Keys)
              && (forall n ::
                    n in s.additions.Keys || n in s.omissions.Keys <==> n in s.catalog && n !in s.baseline.Keys)
              && (forall n :: n in s.additions.Keys ==> n !in s.omissions.Keys)
  {
    var baseline, overrides, removals := s.baseline.Keys, s.overrides.Keys, s.removals.Keys;
    var additions, omissions := s.additions.Keys, s.omissions.Keys;
    Common(overrides, baseline);
    Common(removals, baseline);
    Common(overrides, removals);
    Common(additions, baseline);
    Common(omissions, baseline);
    Common(additions, omissions);
    Covered(additions, omissions, s.catalog, baseline);
  }

  /** A refusal names something that is not so. */
  lemma PartitionErrorIsTrue(s: Sections)
    ensures match PartitionErrorOf(s)
            case None => true
            case Some(BaselineSize) => |s.baseline.Keys| != 93
            case Some(OverridesOutsideBaseline) => exists n :: n in s.overrides.Keys && n !in s.baseline.Keys
            case Some(RemovalsOutsideBaseline) => exists n :: n in s.removals.Keys && n !in s.baseline.Keys
            case Some(OverriddenAndRemoved) => exists n :: n in s.overrides.Keys && n in s.removals.Keys
            case Some(AdditionsInBaseline) => exists n :: n in s.additions.Keys && n in s.baseline.Keys
            case Some(OmissionsInBaseline) => exists n :: n in s.omissions.Keys && n in s.baseline.Keys
            case Some(AddedAndOmitted) => exists n :: n in s.additions.Keys && n in s.omissions.Keys
            case Some(Undecided) =>
              && (forall n :: n in s.additions.Keys || n in s.omissions.Keys ==> n !in s.baseline.Keys)
              && (forall n :: n in s.additions.Keys ==> n !in s.omissions.Keys)
              && exists n ::
                   (n in s.additions.Keys || n in s.omissions.Keys) != (n in s.catalog && n !in s.baseline.Keys)
  {
    var baseline, overrides, removals := s.baseline.Keys, s.overrides.Keys, s.removals.Keys;
    var additions, omissions := s.additions.Keys, s.omissions.Keys;
    Common(overrides, baseline);
    Common(removals, baseline);
    Common(overrides, removals);
    Common(additions, baseline);
    Common(omissions, baseline);
    Common(additions, omissions);
    Covered(additions, omissions, s.catalog, baseline);
  }

  /** The client version is this one or a later one. */
  predicate Since(version: Option<Version>, major: nat, minor: nat) {
    version.Some? && (version.value.0 > major || (version.value.0 == major && version.value.1 >= minor))
  }

  lemma AtLeastExactly(version: Option<Version>, major: nat, minor: nat)
    ensures AtLeast(version, (major, minor, 0)) <==> Since(version, major, minor)
    ensures forall patch: nat :: AtLeast(version, (major, minor, patch)) <==>
              Since(version, major, minor)
              && (version.value.0 == major && version.value.1 == minor ==> version.value.2 >= patch)
  {
    if version.Some? {
      var (a, b, c) := version.value;
    }
  }

  /** The field's definition before capabilities: an addition, else an override, else the baseline unless
      it is removed. */
  function Definition(s: Sections, name: string): Option<Field> {
    if name in s.additions then Some(s.additions[name])
    else if name in s.overrides then Some(s.overrides[name])
    else if name in s.baseline && name !in s.removals then Some(s.baseline[name])
    else None
  }

  /** What is configured: every definition except those of self-driving fields before version 1.2.0, with
      its included fields from version 1.3.0 on and without them before. */
  lemma FieldsExactly(s: Sections, version: Option<Version>, name: string)
    ensures name in Fields(s, version) <==>
              && Definition(s, name).Some?
              && (name in {"MilesSinceReset", "SelfDrivingMilesSinceReset"} ==> Since(version, 1, 2))
    ensures name in Fields(s, version) ==>
              var defined := Definition(s, name).value;
              Fields(s, version)[name] == if Since(version, 1, 3) then defined else defined.(includes := [])
  {
    hide AtLeast, Since;
    AtLeastExactly(version, 1, 2);
    AtLeastExactly(version, 1, 3);
  }

  /** What is noticed as omitted: those self-driving fields, and the included fields dropped. */
  lemma OmissionsExactly(s: Sections, version: Option<Version>, name: string)
    ensures OfField(name) in CapabilityOmissions(s, version) <==>
              && Definition(s, name).Some? && !Since(version, 1, 2)
              && name in {"MilesSinceReset", "SelfDrivingMilesSinceReset"}
    ensures OfIncludes(name) in CapabilityOmissions(s, version) <==>
              name in Fields(s, version) && !Since(version, 1, 3) && Definition(s, name).value.includes != []
  {
    hide AtLeast, Since;
    AtLeastExactly(version, 1, 2);
    AtLeastExactly(version, 1, 3);
  }

  ghost predicate Accepted(s: Sections) {
    Loaded(s) && PartitionErrorOf(s).None?
  }

  /** Every catalog field is configured, excluded or omitted for want of a capability, and only one of them. */
  lemma CatalogIsPartitioned(s: Sections, version: Option<Version>, name: string)
    requires Accepted(s)
    ensures var configured := name in Fields(s, version);
            var excluded := name in s.omissions + s.removals;
            var omitted := OfField(name) in CapabilityOmissions(s, version);
            && (name in s.catalog <==> configured || excluded || omitted)
            && !(configured && excluded) && !(configured && omitted) && !(excluded && omitted)
  {
    hide AtLeast, LoadedField;
    assert forall n :: n in s.baseline ==> n in s.catalog by { InCatalog(s); }
    assert forall n :: n in s.additions ==> n in s.catalog by { InCatalog(s); }
    assert name in s.additions && name in s.omissions ==> name in s.additions.Keys * s.omissions.Keys;
    assert name in s.additions && name in s.baseline ==> name in s.additions.Keys * s.baseline.Keys;
    assert name in s.omissions && name in s.baseline ==> name in s.omissions.Keys * s.baseline.Keys;
    assert name in s.overrides && name in s.removals ==> name in s.overrides.Keys * s.removals.Keys;
    assert name in s.catalog - s.baseline.Keys <==> name in s.additions.Keys + s.omissions.Keys;
  }

  lemma InCatalog(s: Sections)
    requires Loaded(s)
    ensures s.baseline.Keys <= s.catalog && s.additions.Keys <= s.catalog
  {
  }

  lemma Newer(v: Option<Version>, w: Option<Version>, minimum: Version)
    requires NotOlder(v, w) && AtLeast(v, minimum)
    ensures AtLeast(w, minimum)
  {
  }

  /** The client version w is v or a later one; an unreadable version comes before all others. */
  predicate NotOlder(v: Option<Version>, w: Option<Version>) {
    v.Some? ==> AtLeast(w, v.value)
  }

  /** A newer client never loses a field or an included field, and never changes an interval or a delta. */
  lemma NewerClientsGetMore(s: Sections, v: Option<Version>, w: Option<Version>, name: string)
    requires NotOlder(v, w) && name in Fields(s, v)
    ensures name in Fields(s, w)
    ensures var older, newer := Fields(s, v)[name], Fields(s, w)[name];
            && older.interval == newer.interval && older.delta == newer.delta && older.resend == newer.resend
            && forall i :: i in older.includes ==> i in newer.includes
    ensures forall n :: OfField(n) in CapabilityOmissions(s, w) ==> OfField(n) in CapabilityOmissions(s, v)
  {
    if AtLeast(v, SELF_DRIVING_SINCE) {
      Newer(v, w, SELF_DRIVING_SINCE);
    }
    if AtLeast(v, INCLUDES_SINCE) {
      Newer(v, w, INCLUDES_SINCE);
    }
    hide AtLeast, NotOlder;
  }

  /** No configured field includes a field that the client lacks the capability for. */
  lemma IncludesAreSupported(s: Sections, version: Option<Version>, name: string, i: string)
    requires name in Fields(s, version) && i in Fields(s, version)[name].includes
    ensures OfField(i) !in CapabilityOmissions(s, version)
  {
  }

  /** The omission notice of a field says that the fields it included remain configured on their own.
      That holds exactly if no field so noticed includes an excluded one. */
  lemma IncludedRemainConfigured(s: Sections, version: Option<Version>)
    requires Accepted(s)
    ensures (forall name, i :: Noticed(s, version, name, i) ==> i in Fields(s, version))
            <==> (forall name, i :: Noticed(s, version, name, i) ==> i !in s.omissions && i !in s.removals)
  {
    hide Noticed, Accepted, Fields;
    forall name, i | Noticed(s, version, name, i)
      ensures i in Fields(s, version) <==> i !in s.omissions && i !in s.removals
    {
      NoticedInclude(s, version, name, i);
    }
  }

  /** The field has an omission notice, and i is among the fields it included. */
  ghost predicate Noticed(s: Sections, version: Option<Version>, name: string, i: string) {
    OfIncludes(name) in CapabilityOmissions(s, version) && name in Merged(s) && i in Merged(s)[name].includes
  }

  lemma NoticedInclude(s: Sections, version: Option<Version>, name: string, i: string)
    requires Accepted(s) && Noticed(s, version, name, i)
    ensures i in Fields(s, version) <==> i !in s.omissions && i !in s.removals
  {
    hide AtLeast, PartitionErrorOf, Loaded, Fields, CapabilityOmissions, LoadedField, Merged;
    CatalogIsPartitioned(s, version, i);
    OmissionMeaning(s, version, name);
    OmissionMeaning(s, version, i);
    MergedIsLoaded(s, name);
    SelfDrivingInclude(s.catalog, name, Merged(s)[name], i);
  }

  lemma OmissionMeaning(s: Sections, version: Option<Version>, name: string)
    ensures OfField(name) in CapabilityOmissions(s, version) <==> name in Merged(s) && !Supported(version, name)
    ensures OfIncludes(name) in CapabilityOmissions(s, version) <==>
              name in Merged(s) && Supported(version, name) && !AtLeast(version, INCLUDES_SINCE)
              && Merged(s)[name].includes != []
  {
  }

  lemma MergedIsLoaded(s: Sections, name: string)
    requires Loaded(s) && name in Merged(s)
    ensures LoadedField(s.catalog, name, Merged(s)[name])
  {
  }

  lemma SelfDrivingInclude(catalog: set<string>, name: string, f: Field, i: string)
    requires LoadedField(catalog, name, f) && i in f.includes
    ensures i in catalog && (i in SELF_DRIVING ==> name in SELF_DRIVING)
  {
  }

  /** Baseline fields named by one letter repeated. */
  function Filler(n: nat): (fields: map<string, Field>)
    ensures |fields| == n
    ensures forall name :: name in fields ==> |name| < n && fields[name] == Field(60, None, None, [])
    ensures forall name :: name in fields ==> forall i :: 0 <= i < |name| ==> name[i] == 'x'
  {
    if n == 0 then map[] else Filler(n - 1)[seq(n - 1, _ => 'x') := Field(60, None, None, [])]
  }

  /** Field a is added and includes b, which is omitted. */
  function Example(baseline: map<string, Field>, a: string, b: string): Sections {
    Sections(baseline.Keys + {a, b}, baseline, map[], map[a := Field(60, None, None, [b])], map[],
             map[b := "not needed"])
  }

  ghost predicate Exemplary(baseline: map<string, Field>, a: string, b: string) {
    && |baseline| == BASELINE_SIZE && a != b && a !in baseline && b !in baseline
    && a !in SELF_DRIVING && b !in SELF_DRIVING
    && forall name :: name in baseline ==> baseline[name] == Field(60, None, None, [])
  }

  lemma ExampleIsLoaded(baseline: map<string, Field>, a: string, b: string)
    requires Exemplary(baseline, a, b)
    ensures Loaded(Example(baseline, a, b))
  {
  }

  lemma ExampleIsPartitioned(baseline: map<string, Field>, a: string, b: string)
    requires Exemplary(baseline, a, b)
    ensures PartitionErrorOf(Example(baseline, a, b)).None?
  {
    var s := Example(baseline, a, b);
    assert s.additions.Keys == {a} && s.omissions.Keys == {b} && s.removals.Keys == {} && s.overrides.Keys == {};
    assert |s.baseline.Keys| == |s.baseline|;
    assert s.additions.Keys + s.omissions.Keys == s.catalog - s.baseline.Keys;
  }

  lemma IncludedIsExcluded(baseline: map<string, Field>, a: string, b: string)
    requires Exemplary(baseline, a, b)
    ensures var s := Example(baseline, a, b);
            Noticed(s, None, a, b) && b !in Fields(s, None)
  {
  }

  lemma NamesAreNew(n: nat)
    ensures "A" !in Filler(n) && "B" !in Filler(n)
  {
    hide Filler;
    assert "A"[0] == 'A' && "B"[0] == 'B';
  }

  lemma NamesAreOrdinary()
    ensures "A" != "B" && "A" !in SELF_DRIVING && "B" !in SELF_DRIVING
  {
  }

  /** The notice is false of sections that the loaders and the partition check accept. */
  lemma IncludedMayBeExcluded()
    ensures exists s, name, i :: Accepted(s) && Noticed(s, None, name, i) && i !in Fields(s, None)
  {
    hide Filler;
    NamesAreNew(BASELINE_SIZE);
    NamesAreOrdinary();
    var baseline := Filler(BASELINE_SIZE);
    assert Exemplary(baseline, "A", "B");
    hide Exemplary, Loaded, PartitionErrorOf, Noticed, Fields;
    ExampleIsLoaded(baseline, "A", "B");
    ExampleIsPartitioned(baseline, "A", "B");
    IncludedIsExcluded(baseline, "A", "B");
    assert Accepted(Example(baseline, "A", "B"));
  }
}
