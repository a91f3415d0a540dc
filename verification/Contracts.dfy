/**
 References, stage records and run manifests. A digest IS what it hashes (a canonical manifest, or opaque
 bytes), so hashing is injective and a manifest can only refer to contents that existed before it.
 */
module Contracts {
  import opened Common

  datatype Path =
    | RunFile(runId: nat, revision: nat, digest: Digest)  // <store root>/<run>/manifest-r<rev>-<sha>.json
    | Elsewhere(name: string)

  datatype Digest =
    | OfBytes(bytes: nat)
    | OfManifest(manifest: RunManifest)

  datatype ArtifactKind = ManifestArtifact | OtherArtifact

  datatype LogicalName = Unnamed | RunManifestName(revision: nat) | Named(name: string)

  datatype ArtifactRef = ArtifactRef(
    path: Path,
    digest: Digest,
    size: nat,
    kind: ArtifactKind,
    logicalName: LogicalName)

  datatype StageStatus = StageSucceeded | StageFailed | StageOther

  datatype StageRecord = StageRecord(
    name: string,
    attempt: nat,
    status: StageStatus,
    stageKey: string,
    inputs: seq<ArtifactRef>,
    outputs: seq<ArtifactRef>)

  datatype RunManifest = RunManifest(
    runId: nat,
    revision: nat,
    createdAt: int,
    revisedAt: int,
    parent: Option<ArtifactRef>,
    buildSpec: string,
    stages: seq<StageRecord>,
    artifacts: seq<ArtifactRef>,
    forkedFrom: Option<ArtifactRef>)
  {
    /** The validators of the manifest contract. */
    predicate Valid() {
      && (revision == 0 <==> parent.None?)
      && (parent.Some? ==> parent.value.kind.ManifestArtifact?)
      && (forall i, j | 0 <= i < j < |stages| ::
            stages[i].name != stages[j].name || stages[i].attempt != stages[j].attempt)
    }
  }

  /** The reference `publish` returns for a manifest. */
  function PublishedRef(m: RunManifest): ArtifactRef {
    ArtifactRef(RunFile(m.runId, m.revision, OfManifest(m)), OfManifest(m), SizeOf(m),
                ManifestArtifact, RunManifestName(m.revision))
  }

  /** Any fixed function of the content will do for the byte size of canonical JSON. */
  function SizeOf(m: RunManifest): nat {
    |m.stages| + |m.artifacts|
  }

  /** `fork_snapshot`: a new run at revision zero that copies the source's stages and artifacts. */
  function Snapshot(source: ArtifactRef, runId: nat, buildSpec: string, now: int): RunManifest
    requires source.digest.OfManifest?
  {
    var m := source.digest.manifest;
    RunManifest(runId, 0, now, now, None, buildSpec, m.stages, m.artifacts, Some(source))
  }
}
