/**
 Publication of certificate releases to four append-only versioned secrets, deployment to the
 telemetry edge, and destruction of older versions once a release has been verified there.

 A run may stop at any call, raising or crashing; a write that failed may still have taken effect.
 Digests are injective constructors; certificates and archives are structured values.
 */
module CertificateRelease {
  import opened Wrappers
  import opened RenewalWindow

  // ---------------------------------------------------------------------------------------------
  // Certificates and releases

  datatype Leaf = Leaf(serial: nat, names: set<string>, publicKey: string, notBefore: int, notAfter: int)

  /** A PEM chain, leaf first. */
  datatype Chain = Chain(leaf: Leaf, issuers: seq<string>)

  datatype Key = Key(publicKey: string)

  datatype Material = Material(chain: Chain, key: Key)

  datatype Digest = LeafDigest(leaf: Leaf) | ChainDigest(chain: Chain)

  datatype Trust = Trust(id: string, digest: string)

  datatype Manifest = Manifest(hostname: string, cert: int, key: int, state: int,
                               leaf: Digest, chain: Digest, notAfter: int, trust: Trust)

  /** The certificate checks that need no private key and no safety window. */
  predicate ChainFits(chain: Chain, hostname: string) {
    |chain.issuers| >= 1 && hostname in chain.leaf.names
  }

  /** Fit for activation: complete, for this host, matching its key, and valid for seven more days. */
  predicate Activatable(m: Material, hostname: string, now: int) {
    && ChainFits(m.chain, hostname)
    && m.chain.leaf.notAfter >= now + MINIMUM_ACTIVATION_REMAINING
    && m.key.publicKey == m.chain.leaf.publicKey
  }

  // ---------------------------------------------------------------------------------------------
  // Versioned secrets

  datatype Secret = Cert | PrivateKey | State | Release

  datatype Payload =
    | CertPayload(chain: Chain)
    | KeyPayload(key: Key)
    | StatePayload(material: Option<Material>)
    | ReleasePayload(manifest: Manifest)

  datatype Version = Live(payload: Payload) | Destroyed

  /** Version number v of a secret is element v - 1 of its sequence. */
  datatype Store = Store(cert: seq<Version>, key: seq<Version>, state: seq<Version>, release: seq<Version>) {
    function Of(x: Secret): seq<Version> {
      match x
      case Cert => cert
      case PrivateKey => key
      case State => state
      case Release => release
    }

    function With(x: Secret, versions: seq<Version>): (s: Store)
      ensures forall y: Secret :: s.Of(y) == if y == x then versions else Of(y)
    {
      match x
      case Cert => this.(cert := versions)
      case PrivateKey => this.(key := versions)
      case State => this.(state := versions)
      case Release => this.(release := versions)
    }

    function Newest(x: Secret): int {
      |Of(x)|
    }

    function Get(x: Secret, number: int): Option<Payload> {
      if 1 <= number <= |Of(x)| && Of(x)[number - 1].Live? then Some(Of(x)[number - 1].payload) else None
    }
  }

  /** The version of a secret that a release retains. */
  function Named(m: Manifest, release: int, x: Secret): int {
    match x
    case Cert => m.cert
    case PrivateKey => m.key
    case State => m.state
    case Release => release
  }

  function ManifestAt(s: Store, release: int): Option<Manifest> {
    match s.Get(Release, release)
    case Some(ReleasePayload(m)) => Some(m)
    case _ => None
  }

  /** The manifest's digests describe the chain and the key belongs to it. */
  predicate Describes(m: Manifest, cert: Option<Payload>, key: Option<Payload>) {
    match cert
    case Some(CertPayload(c)) =>
      && m.leaf == LeafDigest(c.leaf) && m.chain == ChainDigest(c) && m.notAfter == c.leaf.notAfter
      && key == Some(KeyPayload(Key(c.leaf.publicKey)))
    case _ => false
  }

  /** The release and everything it names is present and undestroyed, and the stored certificate and
      key are the ones its digests describe. */
  ghost predicate Intact(s: Store, release: int) {
    match ManifestAt(s, release)
    case None => false
    case Some(m) => Describes(m, s.Get(Cert, m.cert), s.Get(PrivateKey, m.key)) && s.Get(State, m.state).Some?
  }

  /** What the first release retains is no newer than what the second one does. */
  ghost predicate NamesUpTo(s: Store, older: int, newer: int) {
    match (ManifestAt(s, older), ManifestAt(s, newer))
    case (Some(a), Some(b)) => forall x: Secret :: Named(a, older, x) <= Named(b, newer, x)
    case _ => false
  }

  /** Only versions older than what the given release retains have been destroyed. */
  ghost predicate DestroyedBelow(s: Store, release: int) {
    match ManifestAt(s, release)
    case None => false
    case Some(m) => forall x: Secret, i :: 0 <= i < |s.Of(x)| && s.Of(x)[i].Destroyed? ==> i + 1 < Named(m, release, x)
  }

  ghost predicate NothingDestroyed(s: Store) {
    forall x: Secret, i :: 0 <= i < |s.Of(x)| ==> s.Of(x)[i].Live?
  }

  ghost predicate ReleasesAreManifests(s: Store) {
    forall i :: 0 <= i < |s.release| && s.release[i].Live? ==> s.release[i].payload.ReleasePayload?
  }

  ghost predicate NewestSurvive(s: Store) {
    forall x: Secret :: |s.Of(x)| > 0 ==> s.Of(x)[|s.Of(x)| - 1].Live?
  }

  /** Versions have been destroyed only below what the intact verified release retains. */
  ghost predicate Retained(s: Store, verified: Option<int>) {
    match verified
    case None => NothingDestroyed(s)
    case Some(v) => Intact(s, v) && NamesUpTo(s, v, s.Newest(Release)) && DestroyedBelow(s, v)
  }

  /** The safety invariant. `verified` is the release last verified on the edge. The newest release
      and the verified one are intact, the newest version of every secret survives, and versions have
      been destroyed only below what the verified release retains. */
  ghost predicate Safe(s: Store, verified: Option<int>) {
    && ReleasesAreManifests(s)
    && NewestSurvive(s)
    && (s.Newest(Release) > 0 ==> Intact(s, s.Newest(Release)))
    && Retained(s, verified)
  }

  // ---------------------------------------------------------------------------------------------
  // What single writes do to the invariant

  function Added(s: Store, x: Secret, p: Payload): Store {
    s.With(x, s.Of(x) + [Live(p)])
  }

  function WithDestroyed(s: Store, x: Secret, number: int): Store
    requires 1 <= number <= |s.Of(x)|
  {
    s.With(x, s.Of(x)[number - 1 := Destroyed])
  }

  /** Versions are only appended or destroyed. */
  ghost predicate Grows(before: Store, after: Store) {
    forall x: Secret :: |before.Of(x)| <= |after.Of(x)|
      && forall i :: 0 <= i < |before.Of(x)| ==> after.Of(x)[i] == before.Of(x)[i] || after.Of(x)[i].Destroyed?
  }

  lemma AddingKeepsReads(s: Store, x: Secret, p: Payload, y: Secret, n: int)
    requires n <= |s.Of(y)|
    ensures Added(s, x, p).Get(y, n) == s.Get(y, n)
  {
  }

  lemma AddingKeepsIntact(s: Store, x: Secret, p: Payload, release: int)
    requires Intact(s, release)
    ensures Intact(Added(s, x, p), release)
    ensures ManifestAt(Added(s, x, p), release) == ManifestAt(s, release)
  {
    var m := ManifestAt(s, release).value;
    AddingKeepsReads(s, x, p, Release, release);
    AddingKeepsReads(s, x, p, Cert, m.cert);
    AddingKeepsReads(s, x, p, PrivateKey, m.key);
    AddingKeepsReads(s, x, p, State, m.state);
  }

  lemma IntactNamesExisting(s: Store, release: int, x: Secret)
    requires Intact(s, release)
    ensures var n := Named(ManifestAt(s, release).value, release, x); 1 <= n <= |s.Of(x)| && s.Of(x)[n - 1].Live?
  {
  }

  lemma AddingKeepsDestroyed(s: Store, x: Secret, p: Payload)
    ensures NothingDestroyed(s) ==> NothingDestroyed(Added(s, x, p))
    ensures forall v :: Intact(s, v) && DestroyedBelow(s, v) ==> DestroyedBelow(Added(s, x, p), v)
  {
    var after := Added(s, x, p);
    assert forall y: Secret, i :: 0 <= i < |after.Of(y)| && after.Of(y)[i].Destroyed? ==>
              i < |s.Of(y)| && s.Of(y)[i].Destroyed?;
    forall v | Intact(s, v) && DestroyedBelow(s, v) ensures DestroyedBelow(after, v) {
      AddingKeepsIntact(s, x, p, v);
    }
  }

  lemma AddingKeepsForm(s: Store, x: Secret, p: Payload)
    requires ReleasesAreManifests(s) && NewestSurvive(s) && (x.Release? ==> p.ReleasePayload?)
    ensures ReleasesAreManifests(Added(s, x, p)) && NewestSurvive(Added(s, x, p))
  {
  }

  /** Adding a version of anything but a release is always safe. */
  lemma AddingMaterialIsSafe(s: Store, verified: Option<int>, x: Secret, p: Payload)
    requires Safe(s, verified) && !x.Release?
    ensures Safe(Added(s, x, p), verified)
  {
    hide Intact, DestroyedBelow, NothingDestroyed, ManifestAt, ReleasesAreManifests, NewestSurvive;
    AddingKeepsForm(s, x, p);
    AddingKeepsDestroyed(s, x, p);
    if s.Newest(Release) > 0 {
      AddingKeepsIntact(s, x, p, s.Newest(Release));
    }
    if verified.Some? {
      VerifiedExists(s, verified);
      AddingKeepsIntact(s, x, p, verified.value);
    }
  }

  lemma VerifiedExists(s: Store, verified: Option<int>)
    requires Safe(s, verified)
    ensures verified.Some? ==> 1 <= verified.value <= s.Newest(Release) && Intact(s, verified.value)
    ensures s.Newest(Release) > 0 ==> Intact(s, s.Newest(Release)) && ManifestAt(s, s.Newest(Release)).Some?
  {
  }

  lemma PublishedIsIntact(s: Store, m: Manifest)
    requires m.state == s.Newest(State) > 0 && NewestSurvive(s)
    requires Describes(m, s.Get(Cert, m.cert), s.Get(PrivateKey, m.key))
    ensures ManifestAt(Added(s, Release, ReleasePayload(m)), s.Newest(Release) + 1) == Some(m)
    ensures Intact(Added(s, Release, ReleasePayload(m)), s.Newest(Release) + 1)
  {
    AddedIsReadable(s, Release, ReleasePayload(m));
    AddingKeepsReads(s, Release, ReleasePayload(m), Cert, m.cert);
    AddingKeepsReads(s, Release, ReleasePayload(m), PrivateKey, m.key);
    AddingKeepsReads(s, Release, ReleasePayload(m), State, m.state);
    hide Added, Describes;
  }

  lemma AddedIsReadable(s: Store, x: Secret, p: Payload)
    ensures Added(s, x, p).Newest(x) == s.Newest(x) + 1 && Added(s, x, p).Get(x, s.Newest(x) + 1) == Some(p)
  {
  }

  /** Publishing a release is safe if it names the newest material and describes it correctly. */
  lemma PublishingIsSafe(s: Store, verified: Option<int>, m: Manifest)
    requires Safe(s, verified)
    requires m.cert == s.Newest(Cert) && m.key == s.Newest(PrivateKey) && m.state == s.Newest(State) > 0
    requires Describes(m, s.Get(Cert, m.cert), s.Get(PrivateKey, m.key))
    ensures Safe(Added(s, Release, ReleasePayload(m)), verified)
    ensures ManifestAt(Added(s, Release, ReleasePayload(m)), s.Newest(Release) + 1) == Some(m)
  {
    hide NothingDestroyed, DestroyedBelow, Intact, ManifestAt, Describes, ReleasesAreManifests, NewestSurvive;
    var p := ReleasePayload(m);
    var top := s.Newest(Release) + 1;
    AddingKeepsForm(s, Release, p);
    AddingKeepsDestroyed(s, Release, p);
    PublishedIsIntact(s, m);
    assert Added(s, Release, p).Newest(Release) == top;
    if verified.Some? {
      VerifiedExists(s, verified);
      AddingKeepsIntact(s, Release, p, verified.value);
      forall x: Secret ensures Named(ManifestAt(s, verified.value).value, verified.value, x) <= Named(m, top, x) {
        IntactNamesExisting(s, verified.value, x);
      }
    }
  }

  /** Verifying the newest release moves the retained boundary up. */
  lemma VerifyingIsSafe(s: Store, verified: Option<int>)
    requires Safe(s, verified) && s.Newest(Release) > 0
    ensures Safe(s, Some(s.Newest(Release)))
  {
  }

  lemma DestroyingKeepsIntact(s: Store, x: Secret, number: int, release: int)
    requires Intact(s, release) && 1 <= number <= |s.Of(x)|
    requires number < Named(ManifestAt(s, release).value, release, x)
    ensures Intact(WithDestroyed(s, x, number), release)
    ensures ManifestAt(WithDestroyed(s, x, number), release) == ManifestAt(s, release)
  {
    hide Describes;
    var m := ManifestAt(s, release).value;
    var after := WithDestroyed(s, x, number);
    forall y: Secret ensures after.Get(y, Named(m, release, y)) == s.Get(y, Named(m, release, y)) {
    }
    assert after.Get(Release, Named(m, release, Release)) == s.Get(Release, release);
    assert after.Get(Cert, Named(m, release, Cert)) == s.Get(Cert, m.cert);
    assert after.Get(PrivateKey, Named(m, release, PrivateKey)) == s.Get(PrivateKey, m.key);
    assert after.Get(State, Named(m, release, State)) == s.Get(State, m.state);
  }

  lemma DestroyingKeepsForm(s: Store, x: Secret, number: int)
    requires ReleasesAreManifests(s) && NewestSurvive(s) && 1 <= number < |s.Of(x)|
    ensures ReleasesAreManifests(WithDestroyed(s, x, number)) && NewestSurvive(WithDestroyed(s, x, number))
  {
  }

  /** Destroying a version below what the verified newest release retains keeps everything safe. */
  lemma DestroyingIsSafe(s: Store, x: Secret, number: int)
    requires s.Newest(Release) > 0 && Safe(s, Some(s.Newest(Release)))
    requires 1 <= number < Named(ManifestAt(s, s.Newest(Release)).value, s.Newest(Release), x)
    ensures number <= |s.Of(x)| && Safe(WithDestroyed(s, x, number), Some(s.Newest(Release)))
    ensures ManifestAt(WithDestroyed(s, x, number), s.Newest(Release)) == ManifestAt(s, s.Newest(Release))
  {
    hide Intact, ReleasesAreManifests, NewestSurvive, ManifestAt;
    var top := s.Newest(Release);
    var m := ManifestAt(s, top).value;
    IntactNamesExisting(s, top, x);
    DestroyingKeepsForm(s, x, number);
    DestroyingKeepsIntact(s, x, number, top);
    var after := WithDestroyed(s, x, number);
    forall y: Secret, i | 0 <= i < |after.Of(y)| && after.Of(y)[i].Destroyed? ensures i + 1 < Named(m, top, y) {
      assert s.Of(y)[i].Destroyed? || (y == x && i == number - 1);
    }
  }

  // ---------------------------------------------------------------------------------------------
  // Every run, step by step

  datatype Snapshot = Snapshot(store: Store, verified: Option<int>)

  datatype Step = Adding(secret: Secret, payload: Payload) | Verifying | Destroying(secret: Secret, number: int)

  const FRESH := Snapshot(Store([], [], [], []), None)

  /** A release is added only if it names the newest material and describes it, and a version is
      destroyed only below what the newest release retains, and only while that release is the one
      last verified. */
  ghost predicate Enabled(s: Snapshot, step: Step) {
    var top := s.store.Newest(Release);
    match step
    case Adding(x, p) => x.Release? ==> p.ReleasePayload? && Publishable(s.store, p.manifest)
    case Verifying => top > 0
    case Destroying(x, number) =>
      top > 0 && s.verified == Some(top) && RetainedVersion(s.store, x).Some?
      && 1 <= number < RetainedVersion(s.store, x).value
  }

  ghost predicate Publishable(s: Store, m: Manifest) {
    && m.cert == s.Newest(Cert) && m.key == s.Newest(PrivateKey) && m.state == s.Newest(State) > 0
    && Describes(m, s.Get(Cert, m.cert), s.Get(PrivateKey, m.key))
  }

  function After(s: Snapshot, step: Step): Snapshot {
    match step
    case Adding(x, p) => s.(store := Added(s.store, x, p))
    case Verifying => s.(verified := Some(s.store.Newest(Release)))
    case Destroying(x, number) =>
      if 1 <= number <= |s.store.Of(x)| then s.(store := WithDestroyed(s.store, x, number)) else s
  }

  function Final(s: Snapshot, steps: seq<Step>): Snapshot {
    if steps == [] then s else After(Final(s, steps[..|steps| - 1]), steps[|steps| - 1])
  }

  ghost predicate Runs(s: Snapshot, steps: seq<Step>) {
    steps == [] || (Runs(s, steps[..|steps| - 1]) && Enabled(Final(s, steps[..|steps| - 1]), steps[|steps| - 1]))
  }

  /** A step that is enabled after a safe history extends it safely. */
  lemma StepTaken(history: seq<Step>, s: Snapshot, step: Step)
    requires Runs(FRESH, history) && Final(FRESH, history) == s && Safe(s.store, s.verified) && Enabled(s, step)
    ensures Runs(FRESH, history + [step]) && Final(FRESH, history + [step]) == After(s, step)
    ensures Safe(After(s, step).store, After(s, step).verified) && Since(history, history + [step])
  {
    hide Safe, Runs, Final, Enabled, After;
    OneMoreStep(FRESH, history, step);
    StepIsSafe(s, step);
  }

  /** The later history continues the earlier one. */
  ghost predicate Since(before: seq<Step>, now: seq<Step>) {
    before <= now
  }

  lemma SinceThen(a: seq<Step>, b: seq<Step>, c: seq<Step>)
    ensures Since(a, a) && (Since(a, b) && Since(b, c) ==> Since(a, c))
  {
  }

  lemma MayVerify(s: Snapshot)
    requires ManifestAt(s.store, s.store.Newest(Release)).Some?
    ensures Enabled(s, Verifying)
  {
  }

  lemma MayDestroy(s: Store, x: Secret, number: int)
    requires s.Newest(Release) > 0 && RetainedVersion(s, x).Some? && 1 <= number < RetainedVersion(s, x).value
    ensures Enabled(Snapshot(s, Some(s.Newest(Release))), Destroying(x, number))
  {
  }

  lemma OneMoreStep(s: Snapshot, steps: seq<Step>, step: Step)
    requires Runs(s, steps) && Enabled(Final(s, steps), step)
    ensures Runs(s, steps + [step]) && Final(s, steps + [step]) == After(Final(s, steps), step)
  {
    assert (steps + [step])[..|steps|] == steps;
  }

  lemma StepIsSafe(s: Snapshot, step: Step)
    requires Safe(s.store, s.verified) && Enabled(s, step)
    ensures Safe(After(s, step).store, After(s, step).verified) && Grows(s.store, After(s, step).store)
  {
    hide Safe, Describes, Grows, ManifestAt;
    match step {
      case Adding(x, p) =>
        AddedGrows(s.store, s.store, x, p);
        NothingYet(s.store);
        if x.Release? {
          PublishingIsSafe(s.store, s.verified, p.manifest);
        } else {
          AddingMaterialIsSafe(s.store, s.verified, x, p);
        }
      case Verifying =>
        NothingYet(s.store);
        VerifyingIsSafe(s.store, s.verified);
      case Destroying(x, number) =>
        DestroyingIsSafe(s.store, x, number);
        DestroyedGrows(s.store, x, number);
    }
  }

  lemma DestroyedGrows(s: Store, x: Secret, number: int)
    requires 1 <= number <= |s.Of(x)|
    ensures Grows(s, WithDestroyed(s, x, number))
  {
  }

  lemma {:induction false} RunIsSafe(s: Snapshot, steps: seq<Step>)
    requires Safe(s.store, s.verified) && Runs(s, steps)
    ensures Safe(Final(s, steps).store, Final(s, steps).verified) && Grows(s.store, Final(s, steps).store)
  {
    hide Safe, Grows, Enabled, After;
    if steps == [] {
      NothingYet(s.store);
    } else {
      var front := steps[..|steps| - 1];
      RunIsSafe(s, front);
      StepIsSafe(Final(s, front), steps[|steps| - 1]);
      GrowsFurther(s.store, Final(s, front).store, Final(s, steps).store);
    }
  }

  lemma {:induction false} PrefixRuns(s: Snapshot, steps: seq<Step>, k: nat)
    requires Runs(s, steps) && k <= |steps|
    ensures Runs(s, steps[..k]) && (k < |steps| ==> Enabled(Final(s, steps[..k]), steps[k]))
    decreases |steps| - k
  {
    if k == |steps| {
      assert steps[..k] == steps;
    } else {
      PrefixRuns(s, steps, k + 1);
      assert steps[..k + 1][..k] == steps[..k];
    }
  }

  /** Over any number of runs one after another, each able to stop between any two calls: at every
      moment the newest release and the one last verified are intact, the newest version of every
      secret survives, versions have only been added or destroyed, and only below what the verified
      release retains. */
  lemma EveryMomentIsSafe(steps: seq<Step>, j: nat, k: nat)
    requires Runs(FRESH, steps) && j <= k <= |steps|
    ensures var s := Final(FRESH, steps[..k]);
            && Safe(s.store, s.verified) && Grows(Final(FRESH, steps[..j]).store, s.store)
            && (s.store.Newest(Release) > 0 ==> Intact(s.store, s.store.Newest(Release)))
            && (s.verified.Some? ==> Intact(s.store, s.verified.value) && DestroyedBelow(s.store, s.verified.value))
            && (s.verified.None? ==> NothingDestroyed(s.store))
  {
    EmptyIsSafe();
    PrefixRuns(FRESH, steps, k);
    RunIsSafe(FRESH, steps[..k]);
    hide Intact, DestroyedBelow, NothingDestroyed, Grows, ReleasesAreManifests, NewestSurvive, NamesUpTo, Runs, Enabled;
    GrowsBetween(steps, j, k);
  }

  lemma {:induction false} GrowsBetween(steps: seq<Step>, j: nat, k: nat)
    requires Runs(FRESH, steps) && j <= k <= |steps|
    ensures Grows(Final(FRESH, steps[..j]).store, Final(FRESH, steps[..k]).store)
    decreases k - j
  {
    hide Safe, Grows, Enabled, After, Runs;
    if j == k {
      NothingYet(Final(FRESH, steps[..j]).store);
    } else {
      EmptyIsSafe();
      PrefixRuns(FRESH, steps, k - 1);
      RunIsSafe(FRESH, steps[..k - 1]);
      GrowsBetween(steps, j, k - 1);
      StepIsSafe(Final(FRESH, steps[..k - 1]), steps[k - 1]);
      assert steps[..k][..k - 1] == steps[..k - 1];
      GrowsFurther(Final(FRESH, steps[..j]).store, Final(FRESH, steps[..k - 1]).store, Final(FRESH, steps[..k]).store);
    }
  }

  /** Whenever a version is destroyed, the release that is newest then was verified before, and
      no release has been added since. */
  lemma {:induction false} DestructionFollowsVerification(steps: seq<Step>, k: nat) returns (j: nat)
    requires Runs(FRESH, steps) && k < |steps| && steps[k].Destroying?
    ensures j < k && steps[j] == Verifying
    ensures forall i :: j < i < k ==> !(steps[i].Adding? && steps[i].secret.Release?)
    ensures Final(FRESH, steps[..j]).store.Newest(Release) == Final(FRESH, steps[..k]).store.Newest(Release)
  {
    PrefixRuns(FRESH, steps, k);
    j := LastVerification(steps, k);
  }

  lemma {:induction false} LastVerification(steps: seq<Step>, k: nat) returns (j: nat)
    requires Runs(FRESH, steps) && k <= |steps|
    requires var s := Final(FRESH, steps[..k]);
             s.store.Newest(Release) > 0 && s.verified == Some(s.store.Newest(Release))
    ensures j < k && steps[j] == Verifying
    ensures forall i :: j < i < k ==> !(steps[i].Adding? && steps[i].secret.Release?)
    ensures Final(FRESH, steps[..j]).store.Newest(Release) == Final(FRESH, steps[..k]).store.Newest(Release)
    decreases k
  {
    hide Safe, Intact, Runs, Enabled, After;
    var before := Final(FRESH, steps[..k - 1]);
    assert steps[..k][..k - 1] == steps[..k - 1];
    j := k - 1;
    StillVerified(before, steps[j]);
    if steps[j] != Verifying {
      EmptyIsSafe();
      PrefixRuns(FRESH, steps, k - 1);
      RunIsSafe(FRESH, steps[..k - 1]);
      VerifiedExists(before.store, before.verified);
      j := LastVerification(steps, k - 1);
    }
  }

  /** The newest release stays the verified one only through steps that add no release. */
  lemma StillVerified(s: Snapshot, step: Step)
    requires var t := After(s, step); t.store.Newest(Release) > 0 && t.verified == Some(t.store.Newest(Release))
    ensures After(s, step).store.Newest(Release) == s.store.Newest(Release) || (step.Adding? && step.secret.Release?)
    ensures step != Verifying && (s.verified.Some? ==> s.verified.value <= s.store.Newest(Release)) ==>
              s.verified == Some(s.store.Newest(Release)) && !(step.Adding? && step.secret.Release?)
    ensures step == Verifying ==> After(s, step).store == s.store
  {
  }

  // ---------------------------------------------------------------------------------------------
  // The clients

  class SecretManager {
    var store: Store
    /** The release last verified on the edge. */
    ghost var verified: Option<int>
    /** Every write, destruction and verification so far. */
    ghost var history: seq<Step>
    /** How many calls have failed, and other things gone wrong that stop a run. */
    ghost var stops: nat

    ghost predicate Valid()
      reads this`store, this`verified, this`history
    {
      Runs(FRESH, history) && Final(FRESH, history) == Snapshot(store, verified) && Safe(store, verified)
    }

    constructor ()
      ensures Valid() && verified == None && store == Store([], [], [], [])
    {
      EmptyIsSafe();
      store := Store([], [], [], []);
      verified, history, stops := None, [], 0;
    }

    /** The newest release has been seen on the edge. */
    ghost method MarkVerified(e: Edge)
      requires Valid() && ManifestAt(store, store.Newest(Release)).Some?
      requires e.Shows(store.Newest(Release), ManifestAt(store, store.Newest(Release)).value.leaf)
      modifies this`verified, this`history
      ensures Valid() && Safe(store, verified) && verified == Some(store.Newest(Release))
      ensures Since(old(history), history)
    {
      hide Safe, Runs, Final, ManifestAt, Since, Enabled, Edge.Shows;
      MayVerify(Snapshot(store, verified));
      StepTaken(history, Snapshot(store, verified), Verifying);
      verified, history := Some(store.Newest(Release)), history + [Verifying];
    }

    /** Reads the newest version. Outer None: the call failed or the version cannot be read. */
    method ReadLatest(x: Secret) returns (r: Option<Option<(Payload, int)>>)
      modifies this`stops
      ensures stops == old(stops) + if r.None? then 1 else 0
      ensures r.Some? && r.value.None? ==> store.Newest(x) == 0
      ensures r.Some? && r.value.Some? ==>
                r.value.value.1 == store.Newest(x) > 0 && store.Get(x, store.Newest(x)) == Some(r.value.value.0)
    {
      var n, ok := store.Newest(x), *;
      if !ok || (n > 0 && !store.Of(x)[n - 1].Live?) {
        stops := stops + 1;
        return None;
      }
      return Some(if n == 0 then None else Some((store.Of(x)[n - 1].payload, n)));
    }

    /** A crash, or a check or call that is not modelled and fails. */
    method Interrupted() returns (stop: bool)
      modifies this`stops
      ensures stops == old(stops) + if stop then 1 else 0
    {
      stop := *;
      stops := stops + if stop then 1 else 0;
    }

    method ReadVersion(x: Secret, number: int) returns (r: Option<Payload>)
      modifies this`stops
      ensures r.Some? ==> store.Get(x, number) == r && stops == old(stops)
      ensures r.None? ==> stops > old(stops) || store.Get(x, number).None?
      ensures stops >= old(stops)
    {
      var ok := *;
      if !ok {
        stops := stops + 1;
        return None;
      }
      return store.Get(x, number);
    }

    method AddVersion(x: Secret, p: Payload) returns (r: Option<int>)
      requires Valid() && Enabled(Snapshot(store, verified), Adding(x, p))
      modifies this`store, this`history, this`stops
      ensures Valid() && Safe(store, verified) && Since(old(history), history)
      ensures r.Some? ==> store == Added(old(store), x, p) && r.value == store.Newest(x)
      ensures r.None? ==> store == old(store) || store == Added(old(store), x, p)
      ensures stops == old(stops) + if r.None? then 1 else 0
    {
      hide Safe, Runs, Final, Enabled, Since;
      SinceThen(history, history, history);
      var ok := *;
      var effective := *;
      if ok || effective {
        StepTaken(history, Snapshot(store, verified), Adding(x, p));
        store, history := Added(store, x, p), history + [Adding(x, p)];
      }
      stops := stops + if ok then 0 else 1;
      return if ok then Some(store.Newest(x)) else None;
    }

    method DestroyVersion(x: Secret, number: int) returns (ok: bool)
      requires Valid() && 1 <= number <= store.Newest(x) && Enabled(Snapshot(store, verified), Destroying(x, number))
      modifies this`store, this`history, this`stops
      ensures Valid() && Safe(store, verified) && Since(old(history), history)
      ensures ok ==> store == WithDestroyed(old(store), x, number)
      ensures !ok ==> store == old(store) || store == WithDestroyed(old(store), x, number)
      ensures stops == old(stops) + if ok then 0 else 1
    {
      hide Safe, Runs, Final, Enabled, Since;
      SinceThen(history, history, history);
      ok := *;
      var effective := *;
      if ok || effective {
        StepTaken(history, Snapshot(store, verified), Destroying(x, number));
        store, history := WithDestroyed(store, x, number), history + [Destroying(x, number)];
      }
      stops := stops + if ok then 0 else 1;
    }

    /** Destroys one version if it is older than the retained one and survives. */
    method PruneVersion(x: Secret, number: int, retained: int, ghost before: Store) returns (ok: bool, ghost from: int)
      requires Valid() && Safe(store, verified) && store.Newest(Release) > 0 && verified == Some(store.Newest(Release))
      requires Some(retained) == RetainedVersion(store, x) && 1 <= number <= store.Newest(x)
      requires PrunedFrom(before, store, x, retained, number + 1)
      modifies this`store, this`history, this`stops
      ensures Valid() && Safe(store, verified) && Since(old(history), history)
      ensures store.Newest(Release) == old(store.Newest(Release))
      ensures ManifestAt(store, store.Newest(Release)) == old(ManifestAt(store, store.Newest(Release)))
      ensures store.Newest(x) == old(store.Newest(x))
      ensures PrunedFrom(before, store, x, retained, from) && (ok ==> from == number)
      ensures stops >= old(stops) && (ok <==> stops == old(stops))
    {
      hide Valid, Safe, ManifestAt, PrunedFrom, Enabled, Since;
      SinceThen(history, history, history);
      PrunedFurther(before, store, x, retained, number);
      ok, from := true, number;
      if number < retained && store.Of(x)[number - 1].Live? {
        DestroyingIsSafe(store, x, number);
        MayDestroy(store, x, number);
        ok := DestroyVersion(x, number);
        from := if store.Of(x)[number - 1].Destroyed? then number else number + 1;
      }
    }

    /** Destroys the surviving versions below the retained one, newest first, stopping at a failure. */
    method PruneSecret(x: Secret, retained: int) returns (ok: bool, ghost from: int)
      requires Valid() && store.Newest(Release) > 0 && verified == Some(store.Newest(Release))
      requires Some(retained) == RetainedVersion(store, x)
      modifies this`store, this`history, this`stops
      ensures Valid() && Safe(store, verified) && Since(old(history), history)
      ensures store.Newest(Release) == old(store.Newest(Release))
      ensures ManifestAt(store, store.Newest(Release)) == old(ManifestAt(store, store.Newest(Release)))
      ensures PrunedFrom(old(store), store, x, retained, from) && (ok ==> from == 1)
      ensures stops >= old(stops) && (ok <==> stops == old(stops))
    {
      hide Valid, Safe, ManifestAt, PrunedFrom, Since;
      assert Safe(store, verified) by { ValidIsSafe(); }
      SinceThen(history, history, history);
      ghost var top, before := store.Newest(Release), store;
      ghost var m := ManifestAt(store, top);
      ok, from := true, store.Newest(x) + 1;
      NothingPruned(before, x, retained);
      for i := store.Newest(x) downto 0
        invariant Valid() && Safe(store, verified) && Since(old(history), history)
        invariant store.Newest(Release) == top && ManifestAt(store, top) == m && i <= store.Newest(x)
        invariant from == i + 1 && PrunedFrom(before, store, x, retained, from) && stops == old(stops)
      {
        ghost var earlier := history;
        ok, from := PruneVersion(x, i + 1, retained, before);
        SinceThen(old(history), earlier, history);
        if !ok {
          return;
        }
      }
    }

    lemma ValidIsSafe()
      requires Valid()
      ensures Safe(store, verified)
    {
      hide Safe;
    }

    /** Destroys everything older than what the newest release, just verified, retains, and nothing else. */
    method PruneOldReleaseVersions() returns (ok: bool)
      requires Valid() && store.Newest(Release) > 0 && verified == Some(store.Newest(Release))
      modifies this`store, this`history, this`stops
      ensures Valid() && Safe(store, verified) && Since(old(history), history)
      ensures store.Newest(Release) == old(store.Newest(Release))
      ensures Grows(old(store), store) && SameSizes(old(store), store)
      ensures ManifestAt(store, store.Newest(Release)) == old(ManifestAt(store, store.Newest(Release)))
      ensures ok ==> Pruned(old(store), store) && FullyPruned(store)
      ensures stops >= old(stops) && (ok <==> stops == old(stops))
    {
      VerifiedExists(store, verified);
      hide Valid, Since, Safe, Intact, ManifestAt, FullyPruned, Pruned, PrunedFrom, Grows, SameSizes;
      ghost var from;
      ghost var s0 := store;
      ghost var release := store.Newest(Release);
      ghost var m := ManifestAt(store, release).value;
      ok, from := PruneSecret(Cert, ManifestVersion(Cert));
      PrunedGrows(s0, store, Cert, m.cert, from);
      ghost var s1 := store;
      if ok {
        ghost var earlier := history;
        ok, from := PruneSecret(PrivateKey, ManifestVersion(PrivateKey));
        SinceThen(old(history), earlier, history);
        PrunedGrows(s1, store, PrivateKey, m.key, from);
        GrowsFurther(s0, s1, store);
      }
      ghost var s2 := store;
      if ok {
        ghost var earlier := history;
        ok, from := PruneSecret(State, ManifestVersion(State));
        SinceThen(old(history), earlier, history);
        PrunedGrows(s2, store, State, m.state, from);
        GrowsFurther(s0, s2, store);
      }
      ghost var s3 := store;
      if ok {
        ghost var earlier := history;
        ok, from := PruneSecret(Release, ManifestVersion(Release));
        SinceThen(old(history), earlier, history);
        PrunedGrows(s3, store, Release, release, from);
        GrowsFurther(s0, s3, store);
      }
      if ok {
        AllPruned(s0, s1, s2, s3, store, m);
      }
    }

    /** The version of x named by the newest manifest. */
    function ManifestVersion(x: Secret): int
      requires ManifestAt(store, store.Newest(Release)).Some?
      reads this
      ensures Some(ManifestVersion(x)) == RetainedVersion(store, x)
    {
      Named(ManifestAt(store, store.Newest(Release)).value, store.Newest(Release), x)
    }
  }

  /** Everything below what the newest release retains is gone. */
  ghost predicate FullyPruned(s: Store) {
    match ManifestAt(s, s.Newest(Release))
    case None => false
    case Some(m) =>
      forall x: Secret, i :: 0 <= i < |s.Of(x)| && i + 1 < Named(m, s.Newest(Release), x) ==> s.Of(x)[i].Destroyed?
  }

  /** Exactly the versions below what the newest release retains are gone, and nothing else has changed. */
  ghost predicate Pruned(before: Store, after: Store) {
    match ManifestAt(before, before.Newest(Release))
    case None => false
    case Some(m) =>
      forall x: Secret :: |after.Of(x)| == |before.Of(x)| && forall i :: 0 <= i < |before.Of(x)| ==>
        after.Of(x)[i] == if i + 1 < Named(m, before.Newest(Release), x) then Destroyed else before.Of(x)[i]
  }

  lemma AllPruned(s0: Store, s1: Store, s2: Store, s3: Store, s4: Store, m: Manifest)
    requires ManifestAt(s0, s0.Newest(Release)) == Some(m) == ManifestAt(s4, s4.Newest(Release))
    requires s4.Newest(Release) == s0.Newest(Release)
    requires PrunedFrom(s0, s1, Cert, m.cert, 1) && PrunedFrom(s1, s2, PrivateKey, m.key, 1)
    requires PrunedFrom(s2, s3, State, m.state, 1) && PrunedFrom(s3, s4, Release, s0.Newest(Release), 1)
    ensures Pruned(s0, s4) && FullyPruned(s4)
  {
    hide ManifestAt;
    forall x: Secret ensures |s4.Of(x)| == |s0.Of(x)| && forall i :: 0 <= i < |s0.Of(x)| ==>
        s4.Of(x)[i] == if i + 1 < Named(m, s0.Newest(Release), x) then Destroyed else s0.Of(x)[i]
    {
    }
  }

  ghost predicate SameSizes(before: Store, after: Store) {
    forall x: Secret :: |before.Of(x)| == |after.Of(x)|
  }

  lemma NothingPruned(s: Store, x: Secret, retained: int)
    ensures PrunedFrom(s, s, x, retained, |s.Of(x)| + 1)
  {
  }

  lemma PrunedFurther(before: Store, now: Store, x: Secret, retained: int, number: int)
    requires PrunedFrom(before, now, x, retained, number + 1) && 1 <= number <= |now.Of(x)|
    ensures if number < retained && now.Of(x)[number - 1].Live?
            then PrunedFrom(before, WithDestroyed(now, x, number), x, retained, number)
            else PrunedFrom(before, now, x, retained, number)
  {
  }

  lemma PrunedGrows(before: Store, after: Store, x: Secret, retained: int, from: int)
    requires PrunedFrom(before, after, x, retained, from)
    ensures Grows(before, after) && SameSizes(before, after)
  {
  }

  lemma GrowsFurther(a: Store, b: Store, c: Store)
    requires Grows(a, b) && Grows(b, c)
    ensures Grows(a, c)
    ensures SameSizes(a, b) && SameSizes(b, c) ==> SameSizes(a, c)
  {
  }

  /** The version of x that the newest release retains. */
  ghost function RetainedVersion(s: Store, x: Secret): Option<int> {
    match ManifestAt(s, s.Newest(Release))
    case Some(m) => Some(Named(m, s.Newest(Release), x))
    case None => None
  }

  /** The versions of x from the first number up to the retained one have been destroyed and nothing
      else has changed. */
  ghost predicate PrunedFrom(before: Store, after: Store, x: Secret, retained: int, from: int) {
    && |after.Of(x)| == |before.Of(x)|
    && (forall y: Secret :: y != x ==> after.Of(y) == before.Of(y))
    && (forall i :: 0 <= i < |before.Of(x)| ==>
          after.Of(x)[i] == if from <= i + 1 < retained then Destroyed else before.Of(x)[i])
  }

  // ---------------------------------------------------------------------------------------------
  // Deployment

  /** The telemetry edge as seen from outside: its boot markers and the leaf it serves. The clock is
      monotonic, in seconds. */
  class Edge {
    /** The first sixteen hexadecimal digits of a digest. */
    const short: Digest -> string
    var clock: int
    /** The boot markers contained in the status the guest last reported. */
    ghost var markers: set<(int, string)>
    ghost var served: Option<Digest>
    ghost var resets: nat
    ghost var polls: nat
    /** What each look came to, and how many calls have failed. */
    ghost var looks: seq<Option<bool>>
    ghost var slept: int
    ghost var stops: nat

    constructor (short: Digest -> string)
    {
      this.short := short;
    }

    method Sleep(seconds: nat)
      modifies this`clock, this`slept
      ensures clock >= old(clock) + seconds && slept == old(slept) + seconds
    {
      slept := slept + seconds;
      var overrun: int := *;
      clock := clock + seconds + if overrun > 0 then overrun else 0;
    }

    /** None: the call failed. A guest without a status reports no markers. */
    method GuestStatus() returns (r: Option<set<(int, string)>>)
      modifies this`markers, this`polls, this`stops
      ensures r.Some? ==> markers == r.value
      ensures polls == old(polls) + 1 && stops == old(stops) + if r.None? then 1 else 0
    {
      r := *;
      stops := stops + if r.None? then 1 else 0;
      markers := if r.Some? then r.value else {};
      polls := polls + 1;
    }

    /** Outer None: the call failed. */
    method PublicLeafFingerprint() returns (r: Option<Option<Digest>>)
      modifies this`served, this`stops
      ensures r.Some? ==> served == r.value
      ensures stops == old(stops) + if r.None? then 1 else 0
    {
      r := *;
      stops := stops + if r.None? then 1 else 0;
      served := if r.Some? then r.value else None;
    }

    method Reset() returns (ok: bool)
      modifies this`resets, this`stops
      ensures resets == old(resets) + 1 && stops == old(stops) + if ok then 0 else 1
    {
      ok := *;
      stops := stops + if ok then 0 else 1;
      resets := resets + 1;
    }

    ghost predicate Shows(release: int, leaf: Digest)
      reads this
    {
      (release, short(leaf)) in markers && served == Some(leaf)
    }

    /** One look at the edge. Outer None: a call failed. The leaf is fetched only once the marker matches. */
    method Look(release: int, leaf: Digest) returns (r: Option<bool>)
      modifies this`markers, this`served, this`polls, this`looks, this`stops
      ensures r.Some? ==> (r.value <==> Shows(release, leaf))
      ensures polls == old(polls) + 1 && looks == old(looks) + [r] && stops == old(stops) + if r.None? then 1 else 0
    {
      var status := GuestStatus();
      if status.None? {
        r := None;
      } else if (release, short(leaf)) !in status.value {
        r := Some(false);
      } else {
        var fingerprint := PublicLeafFingerprint();
        r := if fingerprint.None? then None else Some(fingerprint.value == Some(leaf));
      }
      looks := looks + [r];
    }

    /** Success means the last look showed the edge running this release and serving its leaf, and every
        earlier one that it did not. Unless the first look settles it, the edge is reset once, and then looked
        at once per ten seconds until a look settles it or the deadline has passed. */
    method Deploy(release: int, leaf: Digest, timeout: nat) returns (ok: bool)
      modifies this
      ensures ok ==> Shows(release, leaf)
      ensures polls > old(polls) && resets <= old(resets) + 1
      ensures 10 * (polls - old(polls)) <= timeout + 20
      ensures |looks| > |old(looks)| && old(looks) <= looks && (ok <==> looks[|looks| - 1] == Some(true))
      ensures forall i :: |old(looks)| <= i < |looks| - 1 ==> looks[i] == Some(false)
      ensures resets > old(resets) <==> looks[|old(looks)|] == Some(false)
      ensures slept - old(slept) == 10 * (|looks| - |old(looks)| - 1)
      ensures stops >= old(stops) && (ok ==> stops == old(stops))
      ensures !ok ==> stops > old(stops) || (!Shows(release, leaf) && clock >= old(clock) + timeout)
    {
      var seen := Look(release, leaf);
      if seen == Some(true) || seen.None? {
        return seen == Some(true);
      }
      ok := Reset();
      if !ok {
        return false;
      }
      var start := clock;
      var deadline := start + timeout;
      while clock < deadline
        invariant polls > old(polls)
        invariant deadline == start + timeout && resets == old(resets) + 1
        invariant 10 * (polls - old(polls) - 1) <= clock - start
        invariant 10 * (polls - old(polls) - 2) <= timeout
        invariant |looks| > |old(looks)| && old(looks) <= looks
        invariant forall i :: |old(looks)| <= i < |looks| ==> looks[i] == Some(false)
        invariant stops == old(stops) && !Shows(release, leaf)
        invariant slept - old(slept) == 10 * (|looks| - |old(looks)| - 1)
        decreases deadline - clock
      {
        Sleep(10);
        seen := Look(release, leaf);
        if seen == Some(true) || seen.None? {
          return seen == Some(true);
        }
      }
      return false;
    }
  }

  /** The certificate authority, reached through certbot, and everything it was asked for and issued. */
  class Authority {
    ghost var issued: seq<Option<Material>>

    constructor ()
    {
    }

    method Issue() returns (r: Option<Material>)
      modifies this
      ensures issued == old(issued) + [r]
    {
      r := *;
      issued := issued + [r];
    }
  }

  // ---------------------------------------------------------------------------------------------
  // One renewal run

  datatype Outcome = Healthy | Renewed | Raised

  /** The chain is complete and its leaf is for this host. */
  ghost predicate Serves(chain: Chain, hostname: string) {
    hostname in chain.leaf.names && chain.issuers != []
  }

  /** The chain serves this host with the key that belongs to it, for another seven days. */
  ghost predicate Fit(m: Material, hostname: string, now: int) {
    Serves(m.chain, hostname) && m.key.publicKey == m.chain.leaf.publicKey
    && m.chain.leaf.notAfter >= now + 604_800_000_000
  }

  /** The manifest is for this host, and describes a complete chain for it. */
  ghost predicate ServesHost(manifest: Manifest, hostname: string) {
    manifest.hostname == hostname && manifest.chain.ChainDigest? && Serves(manifest.chain.chain, hostname)
    && manifest.leaf == LeafDigest(manifest.chain.chain.leaf)
  }

  /** The certificate that the manifest names is not a chain for this host with the manifest's digests. */
  ghost predicate Mismatched(s: Store, active: Manifest, hostname: string) {
    match s.Get(Cert, active.cert)
    case Some(CertPayload(chain)) =>
      !Serves(chain, hostname) || active.leaf != LeafDigest(chain.leaf) || active.chain != ChainDigest(chain)
    case _ => true
  }

  method ActiveReleaseMaterial(m: SecretManager, active: Manifest, hostname: string) returns (r: Option<Chain>)
    ensures r.Some? ==> active.leaf == LeafDigest(r.value.leaf) && active.chain == ChainDigest(r.value)
    modifies m`stops
    ensures r.Some? ==> m.store.Get(Cert, active.cert) == Some(CertPayload(r.value)) && Serves(r.value, hostname)
    ensures r.Some? ==> m.stops == old(m.stops)
    ensures m.stops >= old(m.stops) && (r.None? ==> m.stops > old(m.stops) || Mismatched(m.store, active, hostname))
  {
    var payload := m.ReadVersion(Cert, active.cert);
    if payload.None? || !payload.value.CertPayload? {
      return None;
    }
    var chain := payload.value.chain;
    if !ChainFits(chain, hostname) || active.leaf != LeafDigest(chain.leaf) || active.chain != ChainDigest(chain) {
      return None;
    }
    return Some(chain);
  }

  /** The stored lineage if it is fit and not due, otherwise whatever the certificate authority
      issues, if that is fit. */
  method Candidate(ca: Authority, stored: Option<Material>, hostname: string, now: int) returns (r: Option<Material>)
    modifies ca
    ensures r.Some? ==> Fit(r.value, hostname, now)
    ensures r.None? ==> !Reusable(stored, hostname, now)
    ensures if Reusable(stored, hostname, now) then r == stored && ca.issued == old(ca.issued)
            else |ca.issued| == |old(ca.issued)| + 1 && old(ca.issued) <= ca.issued
                 && (r.None? <==> Unfit(ca.issued, hostname, now)) && (r.Some? ==> r == ca.issued[|ca.issued| - 1])
  {
    if stored.Some? && Activatable(stored.value, hostname, now)
       && !IsDue(stored.value.chain.leaf.notBefore, stored.value.chain.leaf.notAfter, now) {
      return stored;
    }
    var issued := ca.Issue();
    return if issued.Some? && Activatable(issued.value, hostname, now) then issued else None;
  }

  /** The stored lineage is fit and not due. */
  ghost predicate Reusable(stored: Option<Material>, hostname: string, now: int) {
    stored.Some? && Fit(stored.value, hostname, now)
    && !IsDue(stored.value.chain.leaf.notBefore, stored.value.chain.leaf.notAfter, now)
  }

  /** The lineage in the newest archive. */
  ghost function Archived(s: Store): Option<Material> {
    match s.Get(State, s.Newest(State))
    case Some(StatePayload(material)) => material
    case _ => None
  }

  /** What was issued last is nothing or is not fit. */
  ghost predicate Unfit(issued: seq<Option<Material>>, hostname: string, now: int) {
    issued != [] && !(issued[|issued| - 1].Some? && Fit(issued[|issued| - 1].value, hostname, now))
  }

  /** An approval of a trust profile for the cutover. */
  datatype Approval = Approval(ready: bool, trust: Trust, requiredVehicles: Option<int>)

  predicate Approves(approval: Option<Approval>, trust: Trust) {
    approval.Some? && approval.value.ready && approval.value.trust == trust
    && approval.value.requiredVehicles.Some? && approval.value.requiredVehicles.value >= 0
  }

  lemma ApprovesExactly(approval: Option<Approval>, trust: Trust)
    ensures Approves(approval, trust) <==>
              exists vehicles: nat :: approval == Some(Approval(true, trust, Some(vehicles)))
  {
    if Approves(approval, trust) {
      assert approval == Some(Approval(true, trust, Some(approval.value.requiredVehicles.value)));
    }
  }

  /** The newest release, if any, has another trust profile. */
  ghost predicate TrustChanges(s: Store, trust: Trust) {
    ManifestAt(s, s.Newest(Release)).None? || ManifestAt(s, s.Newest(Release)).value.trust != trust
  }

  /** The certificate of the newest release is due. */
  ghost predicate ActiveIsDue(s: Store, now: int) {
    match ManifestAt(s, s.Newest(Release))
    case None => false
    case Some(m) =>
      match s.Get(Cert, m.cert)
      case Some(CertPayload(c)) => IsDue(c.leaf.notBefore, c.leaf.notAfter, now)
      case _ => false
  }

  ghost predicate DestroysNothing(before: Store, after: Store) {
    forall x: Secret :: |before.Of(x)| <= |after.Of(x)|
      && (forall i :: 0 <= i < |before.Of(x)| ==> after.Of(x)[i] == before.Of(x)[i])
      && (forall i :: |before.Of(x)| <= i < |after.Of(x)| ==> after.Of(x)[i].Live?)
  }

  /** The edge was looked at since, and last showed the newest release. */
  ghost predicate Sighted(m: SecretManager, e: Edge, polls: nat)
    reads m, e
  {
    var release := m.store.Newest(Release);
    e.polls > polls && ManifestAt(m.store, release).Some? && e.Shows(release, ManifestAt(m.store, release).value.leaf)
  }

  /** The edge has not been seen running the newest release, although there was time. */
  ghost predicate Unshown(m: SecretManager, e: Edge, clock: int, timeout: nat)
    reads m, e
  {
    var release := m.store.Newest(Release);
    ManifestAt(m.store, release).Some? && e.clock >= clock + timeout
    && !e.Shows(release, ManifestAt(m.store, release).value.leaf)
  }

  /** What is stored and approved forbids the run: the newest release is for another host, or its
      certificate is not the one its manifest describes, or it has another trust profile and the new one is
      not approved. */
  ghost predicate Forbidden(s: Store, hostname: string, trust: Trust, approval: Option<Approval>) {
    || (ManifestAt(s, s.Newest(Release)).Some?
        && var active := ManifestAt(s, s.Newest(Release)).value;
           active.hostname != hostname || (active.trust == trust && Mismatched(s, active, hostname)))
    || (TrustChanges(s, trust) && !exists vehicles: nat :: approval == Some(Approval(true, trust, Some(vehicles))))
  }

  /** Where a run stands before it goes on: everything it may change. */
  datatype Standing = Standing(store: Store, verified: Option<int>, history: seq<Step>, stops: nat, polls: nat,
                               clock: int, failures: nat, issued: seq<Option<Material>>)

  ghost function StandingOf(m: SecretManager, e: Edge, ca: Authority): Standing
    reads m, e, ca
  {
    Standing(m.store, m.verified, m.history, m.stops, e.polls, e.clock, e.stops, ca.issued)
  }

  /** What a run keeps on every exit. The store is safe, nothing has been marked verified or destroyed
      unless the edge showed the newest release since, and nothing has been published under a changed trust
      profile without a matching approval, or under an unchanged one unless the active certificate is due.
      At most one certificate was asked for, and none if the archived lineage could be used. */
  ghost predicate Kept(before: Standing, m: SecretManager, e: Edge, ca: Authority, hostname: string, trust: Trust,
                       approval: Option<Approval>, now: int)
    reads m, e, ca
  {
    && m.Valid() && Since(before.history, m.history) && Grows(before.store, m.store)
    && (m.verified == before.verified
        || (m.verified == Some(m.store.Newest(Release)) && Sighted(m, e, before.polls)))
    && (DestroysNothing(before.store, m.store) || Sighted(m, e, before.polls))
    && (SameSizes(before.store, m.store)
        || if TrustChanges(before.store, trust) then
             exists vehicles: nat :: approval == Some(Approval(true, trust, Some(vehicles)))
           else ActiveIsDue(before.store, now))
    && m.stops >= before.stops && e.stops >= before.failures
    && MayHaveAsked(before, ca, hostname, now)
  }

  /** What a run that finishes has reached: no call failed, and the newest release, a complete chain for this
      host under this trust profile, was verified on the edge and everything older destroyed. It is the
      release there was, which is not due unless a certificate just issued is the same, or a new one with
      another certificate, good for seven days. */
  ghost predicate Reached(before: Standing, m: SecretManager, e: Edge, ca: Authority, hostname: string, trust: Trust,
                          now: int, r: Outcome)
    reads m, e, ca
  {
    var top := m.store.Newest(Release);
    && m.verified == Some(top) && FullyPruned(m.store) && Sighted(m, e, before.polls)
    && m.stops == before.stops && e.stops == before.failures
    && var manifest := ManifestAt(m.store, top).value;
       && ServesHost(manifest, hostname) && manifest.trust == trust
       && if r.Renewed? then
            && top == before.store.Newest(Release) + 1 && manifest.notAfter >= now + MINIMUM_ACTIVATION_REMAINING
            && (!TrustChanges(before.store, trust) ==>
                  manifest.leaf != ManifestAt(before.store, before.store.Newest(Release)).value.leaf)
          else
            && SameSizes(before.store, m.store)
            && (ActiveIsDue(before.store, now) ==>
                  && |ca.issued| > |before.issued| && ca.issued[|ca.issued| - 1].Some?
                  && manifest.leaf == LeafDigest(ca.issued[|ca.issued| - 1].value.chain.leaf))
  }

  /** Why a run raises: something failed or crashed, the edge was not seen running the release in time, what
      is stored and approved forbids the run, or what the authority issued is not fit. */
  ghost predicate Hindered(before: Standing, m: SecretManager, e: Edge, ca: Authority, hostname: string, trust: Trust,
                           approval: Option<Approval>, now: int, timeout: nat)
    reads m, e, ca
  {
    || m.stops > before.stops || e.stops > before.failures || Unshown(m, e, before.clock, timeout)
    || Forbidden(before.store, hostname, trust, approval)
    || (|ca.issued| > |before.issued| && Unfit(ca.issued, hostname, now))
  }

  ghost predicate Promised(before: Standing, m: SecretManager, e: Edge, ca: Authority, hostname: string, trust: Trust,
                           approval: Option<Approval>, now: int, timeout: nat, r: Outcome)
    reads m, e, ca
  {
    && Kept(before, m, e, ca, hostname, trust, approval, now)
    && if r.Raised? then Hindered(before, m, e, ca, hostname, trust, approval, now, timeout)
       else Reached(before, m, e, ca, hostname, trust, now, r)
  }

  /** One scheduled run. It may stop at any call. */
  method Renew(m: SecretManager, e: Edge, ca: Authority, hostname: string, trust: Trust, approval: Option<Approval>,
               now: int, timeout: nat)
    returns (r: Outcome)
    requires m.Valid()
    modifies m, e, ca
    ensures Kept(old(StandingOf(m, e, ca)), m, e, ca, hostname, trust, approval, now)
    ensures !r.Raised? ==> Reached(old(StandingOf(m, e, ca)), m, e, ca, hostname, trust, now, r)
    ensures r.Raised? ==> Hindered(old(StandingOf(m, e, ca)), m, e, ca, hostname, trust, approval, now, timeout)
  {
    hide SecretManager.Valid, Since, Safe, Intact, ManifestAt, Serves, ServesHost, ActiveIsDue, IsDue, Forbidden,
         Mismatched, TrustChanges, Kept, Reached, Hindered;
    m.ValidIsSafe();
    VerifiedExists(m.store, m.verified);
    NoRelease(m.store);
    ghost var before := StandingOf(m, e, ca);
    var latest := m.ReadLatest(Release);
    if latest.None? {
      NothingDone(before, m, e, ca, hostname, trust, approval, now, timeout);
      return Raised;
    }
    var active: Option<Manifest> := None;
    if latest.value.Some? {
      LatestManifest(m.store, m.verified);
      active := Some(latest.value.value.0.manifest);
      if active.value.hostname != hostname {
        Forbids(m.store, active.value, hostname, trust, approval);
        NothingDone(before, m, e, ca, hostname, trust, approval, now, timeout);
        return Raised;
      }
    }
    var stop := m.Interrupted();
    if stop {
      NothingDone(before, m, e, ca, hostname, trust, approval, now, timeout);
      return Raised;
    }
    var sameTrust := active.Some? && active.value.trust == trust;
    TrustRead(m.store, active, trust);
    if sameTrust {
      var chain := ActiveReleaseMaterial(m, active.value, hostname);
      if chain.None? {
        if Mismatched(m.store, active.value, hostname) {
          Forbids(m.store, active.value, hostname, trust, approval);
        }
        NothingDone(before, m, e, ca, hostname, trust, approval, now, timeout);
        return Raised;
      }
      DueTogether(m.store, active.value, chain.value, now);
      HostIsServed(active.value, chain.value, hostname);
      if !IsDue(chain.value.leaf.notBefore, chain.value.leaf.notAfter, now) {
        r := KeepActive(m, e, ca, hostname, trust, approval, LeafDigest(chain.value.leaf), now, timeout);
        return;
      }
    }
    r := Reissue(m, e, ca, hostname, trust, approval, if sameTrust then Some(active.value.leaf) else None, now,
                 timeout);
  }

  /** One certificate was asked for since, and then the archived lineage could not be used, or none. */
  ghost predicate MayHaveAsked(before: Standing, ca: Authority, hostname: string, now: int)
    reads ca
  {
    && before.issued <= ca.issued && |ca.issued| <= |before.issued| + 1
    && (|ca.issued| > |before.issued| ==> !Reusable(Archived(before.store), hostname, now))
  }

  /** A run that has only asked for a certificate may raise if something failed or forbids it, or if what was
      issued is not fit. */
  lemma NothingDone(before: Standing, m: SecretManager, e: Edge, ca: Authority, hostname: string, trust: Trust,
                    approval: Option<Approval>, now: int, timeout: nat)
    requires m.Valid() && StandingOf(m, e, ca) == before.(stops := m.stops, issued := ca.issued)
    requires m.stops >= before.stops && MayHaveAsked(before, ca, hostname, now)
    requires || m.stops > before.stops || Forbidden(before.store, hostname, trust, approval)
             || (|ca.issued| > |before.issued| && Unfit(ca.issued, hostname, now))
    ensures Kept(before, m, e, ca, hostname, trust, approval, now)
    ensures Hindered(before, m, e, ca, hostname, trust, approval, now, timeout)
  {
    hide SecretManager.Valid, Grows, DestroysNothing, SameSizes, Sighted, TrustChanges, Forbidden, Reusable, Since;
    NothingYet(m.store);
    SinceThen(m.history, m.history, m.history);
  }

  /** The part of a run that finds the active certificate not due and deploys it again. */
  method KeepActive(m: SecretManager, e: Edge, ca: Authority, hostname: string, trust: Trust,
                    approval: Option<Approval>, leaf: Digest, now: int, timeout: nat)
    returns (r: Outcome)
    requires m.Valid() && m.store.Newest(Release) > 0 && ManifestAt(m.store, m.store.Newest(Release)).Some?
    requires var manifest := ManifestAt(m.store, m.store.Newest(Release)).value;
             manifest.leaf == leaf && manifest.trust == trust && ServesHost(manifest, hostname)
    requires !ActiveIsDue(m.store, now)
    modifies m, e
    ensures Promised(old(StandingOf(m, e, ca)), m, e, ca, hostname, trust, approval, now, timeout, r)
  {
    hide SecretManager.Valid, Since, Safe, Intact, ManifestAt, FullyPruned, Grows, SameSizes, DestroysNothing, Pruned,
         ServesHost, ActiveIsDue, Unshown, Forbidden, Unfit, Edge.Shows, Reusable, TrustChanges;
    NothingYet(m.store);
    SinceThen(m.history, m.history, m.history);
    var stop := m.Interrupted();
    if stop {
      return Raised;
    }
    var ok := Activate(m, e, leaf, timeout);
    return if ok then Healthy else Raised;
  }

  /** The part of a run that may publish. `active` is the leaf of the newest release if its trust profile
      is still the same, and then its certificate is due. */
  method Reissue(m: SecretManager, e: Edge, ca: Authority, hostname: string, trust: Trust, approval: Option<Approval>,
                 active: Option<Digest>, now: int, timeout: nat)
    returns (r: Outcome)
    requires m.Valid()
    requires if active.None? then TrustChanges(m.store, trust)
             else && m.store.Newest(Release) > 0 && ManifestAt(m.store, m.store.Newest(Release)).Some?
                  && var manifest := ManifestAt(m.store, m.store.Newest(Release)).value;
                     manifest.leaf == active.value && manifest.trust == trust && ServesHost(manifest, hostname)
    requires active.Some? ==> !TrustChanges(m.store, trust) && ActiveIsDue(m.store, now)
    modifies m, e, ca
    ensures Promised(old(StandingOf(m, e, ca)), m, e, ca, hostname, trust, approval, now, timeout, r)
  {
    hide SecretManager.Valid, Since, Safe, Intact, ManifestAt, Serves, ServesHost, Fit, ActiveIsDue, IsDue, Forbidden,
         Mismatched, TrustChanges, Kept, Reached, Hindered, Archived, Reusable, Unfit;
    ghost var before := StandingOf(m, e, ca);
    var state := m.ReadLatest(State);
    if state.None? {
      NothingDone(before, m, e, ca, hostname, trust, approval, now, timeout);
      return Raised;
    }
    var stored := if state.value.Some? && state.value.value.0.StatePayload? then state.value.value.0.material else None;
    ArchiveRead(m.store, if state.value.Some? then Some(state.value.value.0) else None);
    var candidate := Candidate(ca, stored, hostname, now);
    if candidate.None? {
      NothingDone(before, m, e, ca, hostname, trust, approval, now, timeout);
      return Raised;
    }
    var stop := m.Interrupted();
    if stop {
      NothingDone(before, m, e, ca, hostname, trust, approval, now, timeout);
      return Raised;
    }
    if active.None? {
      stop := m.Interrupted();
      if stop {
        NothingDone(before, m, e, ca, hostname, trust, approval, now, timeout);
        return Raised;
      }
      ApprovesExactly(approval, trust);
      if !Approves(approval, trust) {
        Unapproved(before.store, hostname, trust, approval);
        NothingDone(before, m, e, ca, hostname, trust, approval, now, timeout);
        return Raised;
      }
    }
    r := Deliver(m, e, ca, hostname, trust, approval, active, candidate.value, now, timeout, before);
  }

  /** The end of such a run: a candidate that the newest release already serves is only deployed again. */
  method Deliver(m: SecretManager, e: Edge, ca: Authority, hostname: string, trust: Trust, approval: Option<Approval>,
                 active: Option<Digest>, material: Material, now: int, timeout: nat, ghost before: Standing)
    returns (r: Outcome)
    requires m.Valid() && StandingOf(m, e, ca) == before.(issued := ca.issued)
    requires MayHaveAsked(before, ca, hostname, now)
    requires Fit(material, hostname, now)
    requires if |ca.issued| > |before.issued| then ca.issued[|ca.issued| - 1] == Some(material)
             else Reusable(Some(material), hostname, now)
    requires if active.None? then TrustChanges(m.store, trust) && Approves(approval, trust)
             else && m.store.Newest(Release) > 0 && ManifestAt(m.store, m.store.Newest(Release)).Some?
                  && var manifest := ManifestAt(m.store, m.store.Newest(Release)).value;
                     manifest.leaf == active.value && manifest.trust == trust && ServesHost(manifest, hostname)
    requires active.Some? ==> !TrustChanges(m.store, trust) && ActiveIsDue(m.store, now)
    modifies m, e
    ensures Promised(before, m, e, ca, hostname, trust, approval, now, timeout, r)
  {
    hide SecretManager.Valid, Since, Safe, Intact, ManifestAt, FullyPruned, Describes, Grows, SameSizes,
         DestroysNothing, Pruned, Serves, ServesHost, Fit, ActiveIsDue, IsDue, Unshown, Forbidden, Mismatched,
         Unfit, Edge.Shows, Archived, Reusable, TrustChanges, Approves;
    NothingYet(m.store);
    SinceThen(m.history, m.history, m.history);
    ApprovesExactly(approval, trust);
    FitMeans(material, hostname, now);
    if active == Some(LeafDigest(material.chain.leaf)) {
      m.ValidIsSafe();
      SameLeafIsDue(m.store, m.verified, material.chain.leaf, now);
      DueIsNotReusable(material, hostname, now);
      var ok := Activate(m, e, LeafDigest(material.chain.leaf), timeout);
      return if ok then Healthy else Raised;
    }
    var ok := PublishAndActivate(m, e, material, hostname, trust, timeout);
    if ok {
      HostIsServed(ManifestAt(m.store, m.store.Newest(Release)).value, material.chain, hostname);
    }
    return if ok then Renewed else Raised;
  }

  lemma ArchiveRead(s: Store, payload: Option<Payload>)
    requires payload.Some? ==> s.Get(State, s.Newest(State)) == payload
    requires payload.None? ==> s.Newest(State) == 0
    ensures Archived(s) == if payload.Some? && payload.value.StatePayload? then payload.value.material else None
  {
  }

  lemma TrustRead(s: Store, active: Option<Manifest>, trust: Trust)
    requires ManifestAt(s, s.Newest(Release)) == active
    ensures TrustChanges(s, trust) <==> !(active.Some? && active.value.trust == trust)
  {
  }

  lemma NoRelease(s: Store)
    ensures s.Newest(Release) == 0 ==> ManifestAt(s, 0).None?
  {
  }

  /** The newest release is due exactly if the certificate stored for it is. */
  lemma DueTogether(s: Store, active: Manifest, chain: Chain, now: int)
    requires ManifestAt(s, s.Newest(Release)) == Some(active) && s.Get(Cert, active.cert) == Some(CertPayload(chain))
    ensures ActiveIsDue(s, now) <==> IsDue(chain.leaf.notBefore, chain.leaf.notAfter, now)
  {
  }

  lemma SameLeafIsDue(s: Store, verified: Option<int>, leaf: Leaf, now: int)
    requires Safe(s, verified) && s.Newest(Release) > 0 && ManifestAt(s, s.Newest(Release)).Some?
    requires ManifestAt(s, s.Newest(Release)).value.leaf == LeafDigest(leaf) && ActiveIsDue(s, now)
    ensures IsDue(leaf.notBefore, leaf.notAfter, now)
  {
  }

  lemma DueIsNotReusable(m: Material, hostname: string, now: int)
    requires IsDue(m.chain.leaf.notBefore, m.chain.leaf.notAfter, now)
    ensures !Reusable(Some(m), hostname, now)
  {
  }

  lemma Forbids(s: Store, active: Manifest, hostname: string, trust: Trust, approval: Option<Approval>)
    requires ManifestAt(s, s.Newest(Release)) == Some(active)
    requires active.hostname != hostname || (active.trust == trust && Mismatched(s, active, hostname))
    ensures Forbidden(s, hostname, trust, approval)
  {
  }

  lemma Unapproved(s: Store, hostname: string, trust: Trust, approval: Option<Approval>)
    requires TrustChanges(s, trust) && !Approves(approval, trust)
    ensures Forbidden(s, hostname, trust, approval)
  {
    ApprovesExactly(approval, trust);
  }

  lemma HostIsServed(manifest: Manifest, chain: Chain, hostname: string)
    requires manifest.hostname == hostname && Serves(chain, hostname)
    requires manifest.leaf == LeafDigest(chain.leaf) && manifest.chain == ChainDigest(chain)
    ensures ServesHost(manifest, hostname)
  {
  }

  lemma FitMeans(m: Material, hostname: string, now: int)
    requires Fit(m, hostname, now)
    ensures Serves(m.chain, hostname) && m.key.publicKey == m.chain.leaf.publicKey
    ensures m.chain.leaf.notAfter >= now + MINIMUM_ACTIVATION_REMAINING
  {
  }

  method PublishAndActivate(m: SecretManager, e: Edge, material: Material, hostname: string, trust: Trust, timeout: nat)
    returns (ok: bool)
    requires m.Valid() && material.key.publicKey == material.chain.leaf.publicKey
    modifies m, e
    ensures m.Valid() && Since(old(m.history), m.history) && Grows(old(m.store), m.store)
    ensures m.verified == old(m.verified)
            || (m.verified == Some(m.store.Newest(Release)) && Sighted(m, e, old(e.polls)))
    ensures DestroysNothing(old(m.store), m.store) || Sighted(m, e, old(e.polls))
    ensures ok ==>
              && m.verified == Some(m.store.Newest(Release)) && FullyPruned(m.store) && Sighted(m, e, old(e.polls))
              && m.store.Newest(Release) == old(m.store.Newest(Release)) + 1
              && (var manifest := ManifestAt(m.store, m.store.Newest(Release)).value;
                  manifest.hostname == hostname && manifest.trust == trust
                  && manifest.leaf == LeafDigest(material.chain.leaf) && manifest.chain == ChainDigest(material.chain)
                  && manifest.notAfter == material.chain.leaf.notAfter)
    ensures m.stops >= old(m.stops) && e.stops >= old(e.stops)
    ensures ok ==> m.stops == old(m.stops) && e.stops == old(e.stops)
    ensures !ok ==> m.stops > old(m.stops) || e.stops > old(e.stops) || Unshown(m, e, old(e.clock), timeout)
  {
    hide SecretManager.Valid, Since, Safe, Intact, ManifestAt, FullyPruned, Describes, Grows, SameSizes,
         DestroysNothing, Pruned, Edge.Shows, Unshown;
    SinceThen(m.history, m.history, m.history);
    ok := Publish(m, material, hostname, trust);
    if !ok {
      return;
    }
    ghost var published, earlier := m.store, m.history;
    ok := Activate(m, e, LeafDigest(material.chain.leaf), timeout);
    GrowsFurther(old(m.store), published, m.store);
    SinceThen(old(m.history), earlier, m.history);
    DestroysNothingFurther(old(m.store), published, m.store);
  }

  lemma DestroysNothingFurther(a: Store, b: Store, c: Store)
    requires DestroysNothing(a, b)
    ensures DestroysNothing(b, c) ==> DestroysNothing(a, c)
  {
  }

  lemma LatestManifest(s: Store, verified: Option<int>)
    requires Safe(s, verified) && s.Newest(Release) > 0
    ensures ManifestAt(s, s.Newest(Release)).Some?
    ensures s.Get(Release, s.Newest(Release)) == Some(ReleasePayload(ManifestAt(s, s.Newest(Release)).value))
  {
  }

  /** Deploys the newest release, and marks it verified and prunes only once the edge has been seen
      running it; if it has not, nothing changes. */
  method Activate(m: SecretManager, e: Edge, leaf: Digest, timeout: nat) returns (ok: bool)
    requires m.Valid() && m.store.Newest(Release) > 0
    requires ManifestAt(m.store, m.store.Newest(Release)).Some?
    requires leaf == ManifestAt(m.store, m.store.Newest(Release)).value.leaf
    modifies m, e
    ensures m.Valid() && Since(old(m.history), m.history) && Grows(old(m.store), m.store)
    ensures SameSizes(old(m.store), m.store) && m.store.Newest(Release) == old(m.store.Newest(Release))
    ensures ManifestAt(m.store, m.store.Newest(Release)) == old(ManifestAt(m.store, m.store.Newest(Release)))
    ensures m.verified == old(m.verified) || m.verified == Some(m.store.Newest(Release))
    ensures (m.verified == old(m.verified) && m.store == old(m.store)) || Sighted(m, e, old(e.polls))
    ensures ok ==> m.verified == Some(m.store.Newest(Release)) && FullyPruned(m.store) && Sighted(m, e, old(e.polls))
    ensures ok ==> Pruned(old(m.store), m.store)
    ensures m.stops >= old(m.stops) && e.stops >= old(e.stops)
    ensures ok ==> m.stops == old(m.stops) && e.stops == old(e.stops)
    ensures !ok ==> m.stops > old(m.stops) || e.stops > old(e.stops) || Unshown(m, e, old(e.clock), timeout)
  {
    hide SecretManager.Valid, Since, Safe, Intact, ManifestAt, FullyPruned, Pruned, Grows, SameSizes, Edge.Shows;
    NothingYet(m.store);
    SinceThen(m.history, m.history, m.history);
    var release := m.store.Newest(Release);
    ok := e.Deploy(release, leaf, timeout);
    if !ok {
      return;
    }
    m.MarkVerified(e);
    ghost var earlier := m.history;
    ok := m.PruneOldReleaseVersions();
    SinceThen(old(m.history), earlier, m.history);
  }

  function Describing(material: Material, hostname: string, trust: Trust, cert: int, key: int, state: int): Manifest {
    Manifest(hostname, cert, key, state, LeafDigest(material.chain.leaf), ChainDigest(material.chain),
             material.chain.leaf.notAfter, trust)
  }

  /** Adds the certificate, the key and the archived state, and only then the manifest naming them. */
  method Publish(m: SecretManager, material: Material, hostname: string, trust: Trust) returns (ok: bool)
    requires m.Valid() && material.key.publicKey == material.chain.leaf.publicKey
    modifies m`store, m`history, m`stops
    ensures m.Valid() && Since(old(m.history), m.history) && Grows(old(m.store), m.store)
    ensures DestroysNothing(old(m.store), m.store)
    ensures ok ==> m.store.Newest(Release) == old(m.store.Newest(Release)) + 1
    ensures ok ==> ManifestAt(m.store, m.store.Newest(Release))
                   == Some(Describing(material, hostname, trust, m.store.Newest(Cert), m.store.Newest(PrivateKey),
                                      m.store.Newest(State)))
    ensures m.stops >= old(m.stops) && (ok <==> m.stops == old(m.stops))
  {
    hide SecretManager.Valid, Safe, Intact, ManifestAt, Grows, Describes, DestroysNothing, Publishable;
    ghost var s0 := m.store;
    NothingYet(s0);
    AddedGrows(s0, s0, Cert, CertPayload(material.chain));
    var cert := m.AddVersion(Cert, CertPayload(material.chain));
    if cert.None? {
      return false;
    }
    AddedGrows(s0, m.store, PrivateKey, KeyPayload(material.key));
    var key := m.AddVersion(PrivateKey, KeyPayload(material.key));
    if key.None? {
      return false;
    }
    var stop := m.Interrupted();
    if stop {
      return false;
    }
    AddedGrows(s0, m.store, State, StatePayload(Some(material)));
    var state := m.AddVersion(State, StatePayload(Some(material)));
    if state.None? {
      return false;
    }
    var manifest := Describing(material, hostname, trust, cert.value, key.value, state.value);
    assert m.store == WithMaterial(s0, material);
    MaterialPublishes(s0, m.verified, material, hostname, trust);
    AddedGrows(s0, m.store, Release, ReleasePayload(manifest));
    var release := m.AddVersion(Release, ReleasePayload(manifest));
    return release.Some?;
  }

  lemma NothingYet(s: Store)
    ensures Grows(s, s) && DestroysNothing(s, s) && SameSizes(s, s)
  {
  }

  lemma AddedGrows(start: Store, s: Store, x: Secret, p: Payload)
    requires Grows(start, s)
    ensures Grows(start, Added(s, x, p))
    ensures DestroysNothing(start, s) ==> DestroysNothing(start, Added(s, x, p))
  {
  }

  /** A certificate, a key and an archive added one after the other. */
  function WithMaterial(s: Store, material: Material): Store {
    Added(Added(Added(s, Cert, CertPayload(material.chain)), PrivateKey, KeyPayload(material.key)), State,
          StatePayload(Some(material)))
  }

  /** A manifest naming the material just added describes it. */
  lemma MaterialIsDescribed(s: Store, material: Material, hostname: string, trust: Trust)
    requires material.key.publicKey == material.chain.leaf.publicKey
    ensures var t := WithMaterial(s, material);
            && t.Newest(Cert) == s.Newest(Cert) + 1 && t.Newest(PrivateKey) == s.Newest(PrivateKey) + 1
            && t.Newest(State) == s.Newest(State) + 1 && t.Newest(Release) == s.Newest(Release)
            && Describes(Describing(material, hostname, trust, t.Newest(Cert), t.Newest(PrivateKey), t.Newest(State)),
                         t.Get(Cert, t.Newest(Cert)), t.Get(PrivateKey, t.Newest(PrivateKey)))
  {
  }

  lemma MaterialPublishes(s: Store, verified: Option<int>, material: Material, hostname: string, trust: Trust)
    requires material.key.publicKey == material.chain.leaf.publicKey && Safe(WithMaterial(s, material), verified)
    ensures var t := WithMaterial(s, material);
            var manifest :=
              Describing(material, hostname, trust, t.Newest(Cert), t.Newest(PrivateKey), t.Newest(State));
            && t.Newest(State) > 0 && t.Newest(Release) == s.Newest(Release)
            && Publishable(t, manifest)
            && Safe(Added(t, Release, ReleasePayload(manifest)), verified)
            && ManifestAt(Added(t, Release, ReleasePayload(manifest)), t.Newest(Release) + 1) == Some(manifest)
  {
    hide Safe, Describes, ManifestAt, WithMaterial, Added;
    MaterialIsDescribed(s, material, hostname, trust);
    var t := WithMaterial(s, material);
    PublishingIsSafe(t, verified,
                     Describing(material, hostname, trust, t.Newest(Cert), t.Newest(PrivateKey), t.Newest(State)));
  }

  // ---------------------------------------------------------------------------------------------
  // Overlapping runs

  /** What a run wrote as version `number`: before another run's prune, or since. */
  function Written(before: Store, now: Store, x: Secret, number: int): Option<Payload> {
    if number <= before.Newest(x) then before.Get(x, number) else now.Get(x, number)
  }

  /** A run that publishes after another run has verified and pruned, wherever between its own writes
      the prune came: its release, which describes what it wrote, is intact exactly if none of the
      versions it names is older than those retained. */
  lemma LateReleaseSurvivesExactly(before: Store, after: Store, now: Store, retained: Manifest, late: Manifest)
    requires ManifestAt(before, before.Newest(Release)) == Some(retained) && Intact(before, before.Newest(Release))
    requires Pruned(before, after) && DestroysNothing(after, now)
    requires Describes(late, Written(before, now, Cert, late.cert), Written(before, now, PrivateKey, late.key))
    requires Written(before, now, State, late.state).Some?
    ensures Intact(Added(now, Release, ReleasePayload(late)), now.Newest(Release) + 1)
            <==> late.cert >= retained.cert && late.key >= retained.key && late.state >= retained.state
  {
    AddedIsReadable(now, Release, ReleasePayload(late));
    assert ManifestAt(Added(now, Release, ReleasePayload(late)), now.Newest(Release) + 1) == Some(late);
    StillThereExactly(before, after, now, retained, late, Cert, late.cert);
    StillThereExactly(before, after, now, retained, late, PrivateKey, late.key);
    StillThereExactly(before, after, now, retained, late, State, late.state);
    hide Pruned, DestroysNothing, ManifestAt, Added;
  }

  lemma StillThereExactly(before: Store, after: Store, now: Store, retained: Manifest, late: Manifest, x: Secret,
                          number: int)
    requires ManifestAt(before, before.Newest(Release)) == Some(retained) && Intact(before, before.Newest(Release))
    requires Pruned(before, after) && DestroysNothing(after, now) && !x.Release?
    requires Written(before, now, x, number).Some?
    ensures Added(now, Release, ReleasePayload(late)).Get(x, number)
            == if number >= Named(retained, before.Newest(Release), x) then Written(before, now, x, number) else None
  {
    IntactNamesExisting(before, before.Newest(Release), x);
    AddingKeepsReads(now, Release, ReleasePayload(late), x, number);
    hide Intact;
    if number <= before.Newest(x) {
      SparedExactly(before, after, retained, x, number);
      assert now.Of(x)[number - 1] == after.Of(x)[number - 1];
    }
  }

  lemma SparedExactly(before: Store, after: Store, retained: Manifest, x: Secret, number: int)
    requires ManifestAt(before, before.Newest(Release)) == Some(retained) && Pruned(before, after)
    requires before.Get(x, number).Some?
    ensures number <= |after.Of(x)|
    ensures after.Get(x, number)
            == if number >= Named(retained, before.Newest(Release), x) then before.Get(x, number) else None
  {
    hide ManifestAt;
    assert after.Of(x)[number - 1]
           == if number < Named(retained, before.Newest(Release), x) then Destroyed else before.Of(x)[number - 1];
  }

  /** The store after a slow run has added its certificate and another run has published. */
  function Overlapped(slow: Material, fast: Material, hostname: string, trust: Trust): Store {
    Added(WithMaterial(Added(Store([], [], [], []), Cert, CertPayload(slow.chain)), fast),
          Release, ReleasePayload(Describing(fast, hostname, trust, 2, 1, 1)))
  }

  /** The rest of what the slow run writes before its manifest. */
  function Resumed(s: Store, slow: Material): Store {
    Added(Added(s, PrivateKey, KeyPayload(slow.key)), State, StatePayload(Some(slow)))
  }

  lemma EmptyIsSafe()
    ensures Safe(Store([], [], [], []), None)
  {
  }

  lemma MaterialIsSafe(s: Store, material: Material)
    requires Safe(s, None)
    ensures Safe(WithMaterial(s, material), None)
  {
    hide Safe;
    AddingMaterialIsSafe(s, None, Cert, CertPayload(material.chain));
    var s1 := Added(s, Cert, CertPayload(material.chain));
    AddingMaterialIsSafe(s1, None, PrivateKey, KeyPayload(material.key));
    AddingMaterialIsSafe(Added(s1, PrivateKey, KeyPayload(material.key)), None, State, StatePayload(Some(material)));
  }

  lemma OverlapIsSafeSoFar(slow: Material, fast: Material, hostname: string, trust: Trust)
    requires fast.key.publicKey == fast.chain.leaf.publicKey
    ensures var published := Overlapped(slow, fast, hostname, trust);
            && Safe(published, Some(1)) && published.Newest(Release) == 1
            && ManifestAt(published, 1) == Some(Describing(fast, hostname, trust, 2, 1, 1))
            && Safe(WithDestroyed(published, Cert, 1), Some(1))
  {
    hide Safe, Describes;
    var empty := Store([], [], [], []);
    var begun := Added(empty, Cert, CertPayload(slow.chain));
    var manifest := Describing(fast, hostname, trust, 2, 1, 1);
    EmptyIsSafe();
    AddingMaterialIsSafe(empty, None, Cert, CertPayload(slow.chain));
    MaterialIsSafe(begun, fast);
    MaterialIsDescribed(begun, fast, hostname, trust);
    PublishingIsSafe(WithMaterial(begun, fast), None, manifest);
    var published := Overlapped(slow, fast, hostname, trust);
    VerifyingIsSafe(published, None);
    DestroyingIsSafe(published, Cert, 1);
  }

  /** The overlapped store, written out. */
  lemma OverlapShape(slow: Material, fast: Material, hostname: string, trust: Trust)
    ensures var published := Overlapped(slow, fast, hostname, trust);
            && published.cert == [Live(CertPayload(slow.chain)), Live(CertPayload(fast.chain))]
            && published.key == [Live(KeyPayload(fast.key))] && published.state == [Live(StatePayload(Some(fast)))]
            && published.release == [Live(ReleasePayload(Describing(fast, hostname, trust, 2, 1, 1)))]
  {
    var published := Overlapped(slow, fast, hostname, trust);
    assert published.Of(Cert) == [Live(CertPayload(slow.chain)), Live(CertPayload(fast.chain))];
    assert published.Of(PrivateKey) == [Live(KeyPayload(fast.key))];
    assert published.Of(State) == [Live(StatePayload(Some(fast)))];
  }

  /** Its prune destroys the slow run's certificate and nothing else. */
  lemma OverlapIsPruned(slow: Material, fast: Material, hostname: string, trust: Trust)
    ensures var published := Overlapped(slow, fast, hostname, trust);
            |published.cert| == 2 && Pruned(published, WithDestroyed(published, Cert, 1))
  {
    OverlapShape(slow, fast, hostname, trust);
    hide Overlapped;
  }

  /** The slow run then adds the rest. */
  lemma ResumedShape(s: Store, slow: Material)
    ensures DestroysNothing(s, Resumed(s, slow)) && Resumed(s, slow).Newest(Release) == s.Newest(Release)
    ensures Resumed(s, slow).Get(PrivateKey, s.Newest(PrivateKey) + 1) == Some(KeyPayload(slow.key))
    ensures Resumed(s, slow).Get(State, s.Newest(State) + 1) == Some(StatePayload(Some(slow)))
  {
  }

  /** What the slow run wrote, as it stands afterwards, is what its release describes. */
  lemma SlowRunWrote(slow: Material, fast: Material, hostname: string, trust: Trust)
    requires slow.key.publicKey == slow.chain.leaf.publicKey
    ensures var published := Overlapped(slow, fast, hostname, trust);
            && |published.cert| == 2
            && var now := Resumed(WithDestroyed(published, Cert, 1), slow);
            && DestroysNothing(WithDestroyed(published, Cert, 1), now) && now.Newest(Release) == 1
            && Describes(Describing(slow, hostname, trust, 1, 2, 2),
                         Written(published, now, Cert, 1), Written(published, now, PrivateKey, 2))
            && Written(published, now, State, 2).Some?
  {
    hide DestroysNothing, Overlapped, Resumed;
    OverlapShape(slow, fast, hostname, trust);
    ResumedShape(WithDestroyed(Overlapped(slow, fast, hostname, trust), Cert, 1), slow);
    assert slow.key == Key(slow.chain.leaf.publicKey);
  }

  /** Two runs that overlap can therefore strand a release: a run that added its certificate before
      another run published, verified and pruned adds the rest and names a destroyed version. */
  lemma OverlapCanStrandARelease(slow: Material, fast: Material, hostname: string, trust: Trust)
    requires fast.key.publicKey == fast.chain.leaf.publicKey && slow.key.publicKey == slow.chain.leaf.publicKey
    ensures var published := Overlapped(slow, fast, hostname, trust);
            var pruned := WithDestroyed(published, Cert, 1);
            && Safe(published, Some(1)) && Pruned(published, pruned) && Safe(pruned, Some(1))
            && !Intact(Added(Resumed(pruned, slow), Release,
                             ReleasePayload(Describing(slow, hostname, trust, 1, 2, 2))), 2)
  {
    hide Safe, Intact, Pruned, DestroysNothing, ManifestAt, Overlapped, Resumed, Describes, Written, Added;
    OverlapIsSafeSoFar(slow, fast, hostname, trust);
    OverlapIsPruned(slow, fast, hostname, trust);
    SlowRunWrote(slow, fast, hostname, trust);
    var published := Overlapped(slow, fast, hostname, trust);
    var pruned := WithDestroyed(published, Cert, 1);
    VerifiedExists(published, Some(1));
    LateReleaseSurvivesExactly(published, pruned, Resumed(pruned, slow), Describing(fast, hostname, trust, 2, 1, 1),
                               Describing(slow, hostname, trust, 1, 2, 2));
  }
}
