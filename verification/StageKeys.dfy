/** Stage keys of the workflow worker and the identity a forked snapshot keeps. */
module StageKeys {
  import opened Common
  import opened Contracts

  /** One entry under `stage_configs`; only tables are used as configurations. */
  datatype ConfigValue = Table(fields: map<string, string>) | NoTable(text: string)

  datatype StageConfigs = NoConfigs | Configs(byStage: map<string, ConfigValue>) | NoConfigTable(text: string)

  /** The job's spec. Every field stands for the content identity of its value. */
  datatype Spec = Spec(fields: map<string, string>, stageConfigs: StageConfigs)

  datatype Provenance = Provenance(
    sdkBuild: string,
    adapterCapability: string,
    platformAbi: string,
    preset: Option<string>,
    imageDigest: Option<string>,
    hostArch: Option<string>,
    emulation: bool,
    deviceFingerprint: Option<string>)

  /** What goes into the stage keys of one job, and is fixed for it. */
  datatype KeyInputs = KeyInputs(spec: Spec, provenance: Provenance)

  datatype Projection = Fields(fields: map<string, string>) | Whole(spec: Spec)

  /** What a key hashes besides the stage name and the provenance. */
  datatype InputBasis =
    | BuildBasis(fields: map<string, string>, config: map<string, string>)
    | ManifestBasis(identity: Option<Digest>, projection: Projection, config: map<string, string>)

  datatype StageKey = StageKey(
    stageName: string,
    basis: InputBasis,
    preset: string,
    sdkBuild: string,
    adapterCapability: string,
    imageDigest: Option<string>,
    platformAbi: string,
    deviceFingerprint: Option<string>)

  const BUILD := "build"

  const BUILD_FIELDS := {
    "name", "preset", "sku", "sources", "output_root", "sequence", "split", "transforms", "quantization", "vectors",
    "compile", "quality", "target", "metadata"}

  const QUALITY_FIELDS := {"quality", "vectors"}

  const BENCHMARK_FIELDS := {"benchmark"}

  predicate IsRunManifest(ref: ArtifactRef) {
    ref.logicalName.RunManifestName?
  }

  /** A revision-zero snapshot that records the manifest it was forked from. */
  predicate IsForkSnapshot(ref: ArtifactRef) {
    IsRunManifest(ref) && ref.digest.OfManifest? &&
    ref.digest.manifest.revision == 0 && ref.digest.manifest.forkedFrom.Some?
  }

  /**
   The digest a manifest contributes to later stage keys; None when a reference named as a run manifest holds no
   manifest, or a fork names a source that is no manifest, so that no key can be made.
   */
  function KeyIdentity(ref: ArtifactRef): Option<Digest> {
    if !IsRunManifest(ref) then Some(ref.digest)
    else if !ref.digest.OfManifest? then None
    else if !IsForkSnapshot(ref) then Some(ref.digest)
    else
      var source := ref.digest.manifest.forkedFrom.value;
      if source.kind.ManifestArtifact? then Some(source.digest) else None
  }

  // ---------------------------------------------------------------- keys

  function Project(spec: Spec, names: set<string>): map<string, string> {
    map k | k in names && k in spec.fields :: spec.fields[k]
  }

  /** The configuration of one stage; an entry that is no table counts as empty. */
  function StageConfig(spec: Spec, stageName: string): map<string, string> {
    if !spec.stageConfigs.Configs? then map[]
    else
      var configs := spec.stageConfigs.byStage;
      var name := if stageName == "validate" && "validation" in configs then "validation" else stageName;
      if name in configs && configs[name].Table? then configs[name].fields else map[]
  }

  function ConfigProjection(spec: Spec, stageName: string): Projection {
    if stageName == "benchmark" then Fields(Project(spec, BENCHMARK_FIELDS))
    else if stageName == "validate" || stageName == "diagnose" then Fields(Project(spec, QUALITY_FIELDS))
    else Whole(spec)
  }

  /** `_input_basis`; None when the manifest yields no identity. */
  function BasisFor(spec: Spec, stageName: string, manifest: Option<ArtifactRef>): Option<InputBasis> {
    if stageName == BUILD then Some(BuildBasis(Project(spec, BUILD_FIELDS), StageConfig(spec, BUILD)))
    else
      var identity := if manifest.Some? then KeyIdentity(manifest.value) else None;
      if manifest.Some? && identity.None? then None
      else Some(ManifestBasis(identity, ConfigProjection(spec, stageName), StageConfig(spec, stageName)))
  }

  function KeyFor(inputs: KeyInputs, stageName: string, manifest: Option<ArtifactRef>): Option<StageKey> {
    var basis := BasisFor(inputs.spec, stageName, manifest);
    var p := inputs.provenance;
    if basis.None? then None
    else Some(StageKey(stageName, basis.value, PresetOf(p), p.sdkBuild, p.adapterCapability, p.imageDigest, p.platformAbi,
                       p.deviceFingerprint))
  }

  function PresetOf(p: Provenance): string {
    if p.preset.Some? then p.preset.value else ""
  }

  // ------------------------------------------------- what keys distinguish

  /** Neither spec has one of these fields, or both have it with one value. */
  predicate AgreeOn(a: Spec, b: Spec, names: set<string>) {
    forall k | k in names ::
      if k in a.fields && k in b.fields then a.fields[k] == b.fields[k] else k !in a.fields && k !in b.fields
  }

  /** The spec sets key `k` of a stage's configuration to `v`. */
  predicate Sets(spec: Spec, name: string, k: string, v: string) {
    && spec.stageConfigs.Configs? && name in spec.stageConfigs.byStage
    && spec.stageConfigs.byStage[name].Table?
    && k in spec.stageConfigs.byStage[name].fields && spec.stageConfigs.byStage[name].fields[k] == v
  }

  predicate Names(spec: Spec, name: string) {
    spec.stageConfigs.Configs? && name in spec.stageConfigs.byStage
  }

  /** The validate stage reads its configuration under `validation` if that is there, else under its own name. */
  predicate Configures(spec: Spec, stageName: string, k: string, v: string) {
    if stageName == "validate" && Names(spec, "validation") then Sets(spec, "validation", k, v)
    else Sets(spec, stageName, k, v)
  }

  ghost predicate SameConfig(a: Spec, b: Spec, stageName: string) {
    forall k, v :: Configures(a, stageName, k, v) <==> Configures(b, stageName, k, v)
  }

  /** The part of the spec a stage depends on is the same in both. */
  ghost predicate SameSpecFor(a: Spec, b: Spec, stageName: string) {
    && SameConfig(a, b, stageName)
    && (stageName == "build" ==> AgreeOn(a, b, BUILD_FIELDS))
    && (stageName == "benchmark" ==> AgreeOn(a, b, {"benchmark"}))
    && (stageName in {"validate", "diagnose"} ==> AgreeOn(a, b, {"quality", "vectors"}))
    && (stageName !in {"build", "benchmark", "validate", "diagnose"} ==> a == b)
  }

  /** The host's architecture and emulation do not matter, and a missing preset is an empty one. */
  predicate SameProvenance(a: Provenance, b: Provenance) {
    && a.sdkBuild == b.sdkBuild && a.adapterCapability == b.adapterCapability && a.platformAbi == b.platformAbi
    && a.imageDigest == b.imageDigest && a.deviceFingerprint == b.deviceFingerprint
    && (a.preset == b.preset || (a.preset in {None, Some("")} && b.preset in {None, Some("")}))
  }

  /** Both stand for the same input of a stage key. */
  predicate SameInput(a: Option<ArtifactRef>, b: Option<ArtifactRef>) {
    a.Some? == b.Some? && (a.Some? ==> KeyIdentity(a.value) == KeyIdentity(b.value))
  }

  /** One stage under one provenance, with the same relevant part of the spec and, but for the build, the same input. */
  ghost predicate SameWork(a: KeyInputs, stageA: string, inputA: Option<ArtifactRef>,
                           b: KeyInputs, stageB: string, inputB: Option<ArtifactRef>) {
    && stageA == stageB && SameProvenance(a.provenance, b.provenance) && SameSpecFor(a.spec, b.spec, stageA)
    && (stageA == "build" || SameInput(inputA, inputB))
  }

  lemma StageConfigMeans(spec: Spec, stageName: string, k: string, v: string)
    ensures k in StageConfig(spec, stageName) && StageConfig(spec, stageName)[k] == v <==> Configures(spec, stageName, k, v)
  {
  }

  lemma SameConfigMeans(a: Spec, b: Spec, stageName: string)
    ensures StageConfig(a, stageName) == StageConfig(b, stageName) <==> SameConfig(a, b, stageName)
  {
    forall k, v ensures k in StageConfig(a, stageName) && StageConfig(a, stageName)[k] == v <==> Configures(a, stageName, k, v)
      ensures k in StageConfig(b, stageName) && StageConfig(b, stageName)[k] == v <==> Configures(b, stageName, k, v)
    {
      StageConfigMeans(a, stageName, k, v);
      StageConfigMeans(b, stageName, k, v);
    }
    if SameConfig(a, b, stageName) {
      forall k ensures k in StageConfig(a, stageName) <==> k in StageConfig(b, stageName)
        ensures k in StageConfig(a, stageName) ==> StageConfig(b, stageName)[k] == StageConfig(a, stageName)[k]
      {
        if k in StageConfig(a, stageName) { assert Configures(a, stageName, k, StageConfig(a, stageName)[k]); }
        if k in StageConfig(b, stageName) { assert Configures(b, stageName, k, StageConfig(b, stageName)[k]); }
      }
    }
  }

  lemma ProjectMeans(a: Spec, b: Spec, names: set<string>)
    ensures Project(a, names) == Project(b, names) <==> AgreeOn(a, b, names)
  {
    var pa, pb := Project(a, names), Project(b, names);
    if pa == pb {
      forall k | k in names
        ensures if k in a.fields && k in b.fields then a.fields[k] == b.fields[k] else k !in a.fields && k !in b.fields
      {
        assert k in pa <==> k in a.fields;
        assert k in pb <==> k in b.fields;
        if k in pa { assert pa[k] == pb[k]; }
      }
    }
  }

  lemma PartsAgree(a: Spec, b: Spec, stageName: string)
    ensures stageName == "build" ==>
              (Project(a, BUILD_FIELDS) == Project(b, BUILD_FIELDS) && StageConfig(a, "build") == StageConfig(b, "build")
               <==> SameSpecFor(a, b, "build"))
    ensures stageName != "build" ==>
              (ConfigProjection(a, stageName) == ConfigProjection(b, stageName)
               && StageConfig(a, stageName) == StageConfig(b, stageName)
               <==> SameSpecFor(a, b, stageName))
  {
    SameConfigMeans(a, b, stageName);
    ProjectMeans(a, b, BUILD_FIELDS);
    ProjectMeans(a, b, QUALITY_FIELDS);
    ProjectMeans(a, b, BENCHMARK_FIELDS);
  }

  lemma BasesAgree(a: Spec, b: Spec, stageName: string, inputA: Option<ArtifactRef>, inputB: Option<ArtifactRef>)
    requires BasisFor(a, stageName, inputA).Some? && BasisFor(b, stageName, inputB).Some?
    ensures BasisFor(a, stageName, inputA) == BasisFor(b, stageName, inputB) <==>
              SameSpecFor(a, b, stageName) && (stageName == "build" || SameInput(inputA, inputB))
  {
    PartsAgree(a, b, stageName);
  }

  /**
   Two keys, of two jobs or of one, are equal exactly when they are of the same stage under the same provenance, the
   specs agree on what that stage depends on and, but for the build, the manifests have one identity.
   */
  lemma KeysAgreeExactlyWhen(a: KeyInputs, stageA: string, inputA: Option<ArtifactRef>,
                             b: KeyInputs, stageB: string, inputB: Option<ArtifactRef>)
    requires KeyFor(a, stageA, inputA).Some? && KeyFor(b, stageB, inputB).Some?
    ensures KeyFor(a, stageA, inputA) == KeyFor(b, stageB, inputB) <==> SameWork(a, stageA, inputA, b, stageB, inputB)
  {
    if stageA == stageB {
      BasesAgree(a.spec, b.spec, stageA, inputA, inputB);
    }
  }

  /**
   A stage has a key unless it is asked for with a manifest that has no identity: one named as a run manifest that
   holds none, or a fork of something that is no manifest. The build has one even then.
   */
  lemma KeyExistsExactlyWhen(inputs: KeyInputs, stageName: string, m: ArtifactRef)
    ensures KeyFor(inputs, stageName, None).Some?
    ensures KeyFor(inputs, stageName, Some(m)).None? <==>
              && stageName != "build" && m.logicalName.RunManifestName?
              && (m.digest.OfManifest? ==>
                    && m.digest.manifest.revision == 0 && m.digest.manifest.forkedFrom.Some?
                    && !m.digest.manifest.forkedFrom.value.kind.ManifestArtifact?)
  {
  }

  /** `ref` is a revision-zero run manifest that was forked from `source`. */
  predicate ForkedFrom(ref: ArtifactRef, source: ArtifactRef) {
    && ref.logicalName.RunManifestName? && ref.digest.OfManifest?
    && ref.digest.manifest.revision == 0 && ref.digest.manifest.forkedFrom == Some(source)
  }

  /** Two references stand for one input exactly when they, or what they are forks of, have the same bytes. */
  lemma SameIdentityExactlyWhen(a: ArtifactRef, b: ArtifactRef)
    requires KeyIdentity(a).Some? && KeyIdentity(b).Some?
    ensures KeyIdentity(a) == KeyIdentity(b) <==>
              || (!IsForkSnapshot(a) && !IsForkSnapshot(b) && a.digest == b.digest)
              || (!IsForkSnapshot(a) && exists y :: ForkedFrom(b, y) && a.digest == y.digest)
              || (!IsForkSnapshot(b) && exists x :: ForkedFrom(a, x) && x.digest == b.digest)
              || (exists x, y :: ForkedFrom(a, x) && ForkedFrom(b, y) && x.digest == y.digest)
    ensures IsForkSnapshot(a) <==> exists x :: ForkedFrom(a, x)
  {
    if IsForkSnapshot(a) { assert ForkedFrom(a, a.digest.manifest.forkedFrom.value); }
    if IsForkSnapshot(b) { assert ForkedFrom(b, b.digest.manifest.forkedFrom.value); }
  }

  /** Two manifests give a stage of one job the same key exactly when it is the build or their identities agree. */
  lemma KeysAgree(inputs: KeyInputs, stageName: string, a: ArtifactRef, b: ArtifactRef)
    requires KeyIdentity(a).Some? && KeyIdentity(b).Some?
    ensures KeyFor(inputs, stageName, Some(a)) == KeyFor(inputs, stageName, Some(b)) <==>
              stageName == BUILD || KeyIdentity(a) == KeyIdentity(b)
  {
  }

  /**
   Forking leaves every later stage key alone exactly when the source is not itself a fork snapshot; a fork of
   a fork re-keys every stage but the build.
   */
  lemma ForkKeepsKeys(inputs: KeyInputs, stageName: string, source: ArtifactRef, runId: nat, buildSpec: string,
                      now: int)
    requires source.digest.OfManifest? && source.kind.ManifestArtifact?
    requires KeyIdentity(source).Some?
    ensures var fork := PublishedRef(Snapshot(source, runId, buildSpec, now));
            KeyFor(inputs, stageName, Some(fork)) == KeyFor(inputs, stageName, Some(source)) <==>
              stageName == BUILD || !IsForkSnapshot(source)
  {
    var fork := PublishedRef(Snapshot(source, runId, buildSpec, now));
    assert KeyIdentity(fork) == Some(source.digest);
    if IsForkSnapshot(source) {
      var origin := source.digest.manifest.forkedFrom.value;
      assert origin < source.digest.manifest.forkedFrom;
      assert source.digest.manifest.forkedFrom < source.digest.manifest;
      assert origin.digest != source.digest;
    }
  }
}
