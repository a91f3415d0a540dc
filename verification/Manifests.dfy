/**
 The manifest store: one immutable file per revision of a run, published under a lock per run and revision.
 `files` holds every manifest file by path; `RunFile` paths are the store's own, `Elsewhere` paths are copies
 a user keeps.
 */
module Manifests {
  import opened Common
  import opened Contracts
  import ArtifactGraph

  type Files = map<Path, RunManifest>

  datatype StoreError = NotLoadable | Conflict | InvalidManifest | GraphBroken

  /** `load`: the file is there, hashes to the reference and has its size. */
  function Load(files: Files, ref: ArtifactRef): Option<RunManifest> {
    if ref.kind.ManifestArtifact? && ref.path in files
       && OfManifest(files[ref.path]) == ref.digest && SizeOf(files[ref.path]) == ref.size
    then Some(files[ref.path]) else None
  }

  /** Another manifest already holds this run and revision. */
  ghost predicate Taken(files: Files, m: RunManifest) {
    exists p | p in files :: p.RunFile? && p.runId == m.runId && p.revision == m.revision && p != PublishedRef(m).path
  }

  /** What `publish` checks under the lock; None when it goes on to write. */
  ghost function PublishCheck(files: Files, m: RunManifest): Option<StoreError> {
    if m.parent.Some? && Load(files, m.parent.value).None? then Some(NotLoadable)
    else if m.parent.Some? &&
            var parent := Load(files, m.parent.value).value;
            parent.runId != m.runId || parent.revision != m.revision - 1 then Some(Conflict)
    else if Taken(files, m) then Some(Conflict)
    else None
  }

  function Written(files: Files, m: RunManifest): Files {
    files[PublishedRef(m).path := m]
  }

  // ---------------------------------------------------- building manifests

  predicate Matches(a: ArtifactRef, b: ArtifactRef) {
    (a.logicalName != Unnamed && a.logicalName == b.logicalName) || a.path == b.path
  }

  /** Index of the first entry an addition replaces. */
  function FirstMatch(current: seq<ArtifactRef>, addition: ArtifactRef): (i: nat)
    ensures i <= |current|
    ensures i < |current| ==> Matches(addition, current[i])
    ensures forall k | 0 <= k < i :: !Matches(addition, current[k])
  {
    if current == [] || Matches(addition, current[0]) then 0 else 1 + FirstMatch(current[1..], addition)
  }

  function MergeOne(current: seq<ArtifactRef>, addition: ArtifactRef): seq<ArtifactRef> {
    var i := FirstMatch(current, addition);
    if i == |current| then current + [addition] else current[i := addition]
  }

  function MergeArtifacts(current: seq<ArtifactRef>, additions: seq<ArtifactRef>): seq<ArtifactRef> {
    if additions == [] then current
    else MergeOne(MergeArtifacts(current, additions[..|additions| - 1]), additions[|additions| - 1])
  }

  method MergeInPlace(current: seq<ArtifactRef>, additions: seq<ArtifactRef>) returns (merged: seq<ArtifactRef>)
    ensures merged == MergeArtifacts(current, additions)
  {
    merged := current;
    assert additions[..0] == [];
    for n := 0 to |additions|
      invariant merged == MergeArtifacts(current, additions[..n])
    {
      var addition := additions[n];
      var i := 0;
      while i < |merged| && !Matches(addition, merged[i])
        invariant i <= |merged|
        invariant forall k | 0 <= k < i :: !Matches(addition, merged[k])
      {
        i := i + 1;
      }
      assert i == FirstMatch(merged, addition);
      merged := if i == |merged| then merged + [addition] else merged[i := addition];
      assert additions[..n + 1][..n] == additions[..n];
    }
    assert additions[..|additions|] == additions;
  }

  /** No two entries claim the same logical name or the same path. */
  ghost predicate Distinct(refs: seq<ArtifactRef>) {
    forall i, j | 0 <= i < j < |refs| :: !Matches(refs[i], refs[j])
  }

  /** The addition matches two entries at once. */
  predicate Straddles(addition: ArtifactRef, refs: seq<ArtifactRef>) {
    exists i, j | 0 <= i < j < |refs| :: Matches(addition, refs[i]) && Matches(addition, refs[j])
  }

  /** Merging keeps names and paths unique exactly when the addition does not straddle two entries. */
  lemma MergeKeepsDistinct(current: seq<ArtifactRef>, addition: ArtifactRef)
    requires Distinct(current)
    ensures Distinct(MergeOne(current, addition)) <==> !Straddles(addition, current)
  {
    var f := FirstMatch(current, addition);
    var merged := MergeOne(current, addition);
    if f < |current| {
      if j :| f < j < |current| && Matches(addition, current[j]) {
        assert merged[f] == addition && merged[j] == current[j];
      }
    }
  }

  /** No addition meets two entries of the list as it stands when its turn comes. */
  predicate NeverStraddles(current: seq<ArtifactRef>, additions: seq<ArtifactRef>) {
    additions == [] ||
    (NeverStraddles(current, additions[..|additions| - 1])
     && !Straddles(additions[|additions| - 1], MergeArtifacts(current, additions[..|additions| - 1])))
  }

  /** No two entries double at any step of the merge. */
  ghost predicate DistinctThroughout(current: seq<ArtifactRef>, additions: seq<ArtifactRef>) {
    Distinct(MergeArtifacts(current, additions))
    && (additions == [] || DistinctThroughout(current, additions[..|additions| - 1]))
  }

  /** A whole merge stays free of doubles, at every step, exactly when no addition straddles two entries. */
  lemma {:induction false} MergesKeepDistinct(current: seq<ArtifactRef>, additions: seq<ArtifactRef>)
    requires Distinct(current)
    ensures DistinctThroughout(current, additions) <==> NeverStraddles(current, additions)
    ensures NeverStraddles(current, additions) ==> Distinct(MergeArtifacts(current, additions))
  {
    if additions != [] {
      var init := additions[..|additions| - 1];
      MergesKeepDistinct(current, init);
      if NeverStraddles(current, init) {
        MergeKeepsDistinct(MergeArtifacts(current, init), additions[|additions| - 1]);
      }
    }
  }

  /** Nothing is lost: every addition, and every entry no addition matched, is in the merged list. */
  lemma {:induction false} MergeLosesNothing(current: seq<ArtifactRef>, additions: seq<ArtifactRef>, r: ArtifactRef)
    ensures |current| <= |MergeArtifacts(current, additions)| <= |current| + |additions|
    ensures additions != [] ==> additions[|additions| - 1] in MergeArtifacts(current, additions)
    ensures r in current && (forall a | a in additions :: !Matches(a, r)) ==> r in MergeArtifacts(current, additions)
    ensures r in MergeArtifacts(current, additions) ==> r in current || r in additions
  {
    if additions != [] {
      var init, last := additions[..|additions| - 1], additions[|additions| - 1];
      MergeLosesNothing(current, init, r);
      var before := MergeArtifacts(current, init);
      var i := FirstMatch(before, last);
      assert MergeOne(before, last)[i] == last;
      if r in before && !Matches(last, r) {
        var k :| 0 <= k < |before| && before[k] == r;
        assert MergeOne(before, last)[k] == r;
      }
      assert last in additions;
      assert forall a | a in init :: a in additions;
    }
  }

  /** No later addition takes the place of addition `k`. */
  predicate Lasts(additions: seq<ArtifactRef>, k: nat)
    requires k < |additions|
  {
    forall j | k < j < |additions| :: !Matches(additions[j], additions[k])
  }

  /** The merged list holds every addition that no later one replaces. */
  lemma {:induction false} LastingAdditionsStay(current: seq<ArtifactRef>, additions: seq<ArtifactRef>, k: nat)
    requires k < |additions| && Lasts(additions, k)
    ensures additions[k] in MergeArtifacts(current, additions)
  {
    var n := |additions| - 1;
    MergeLosesNothing(current, additions, additions[k]);
    if k < n {
      LastingAdditionsStay(current, additions[..n], k);
      var before := MergeArtifacts(current, additions[..n]);
      var i :| 0 <= i < |before| && before[i] == additions[k];
      assert MergeOne(before, additions[n])[i] == additions[k];
    }
  }

  function Created(runId: nat, buildSpec: string, now: int): RunManifest {
    RunManifest(runId, 0, now, now, None, buildSpec, [], [], None)
  }

  /** `revise`: the next revision, with one more stage and the merged artifacts. */
  function Revised(previous: ArtifactRef, stage: Option<StageRecord>, additions: seq<ArtifactRef>,
                   now: int): RunManifest
    requires previous.digest.OfManifest?
  {
    var m := previous.digest.manifest;
    RunManifest(m.runId, m.revision + 1, m.createdAt, now, Some(previous), m.buildSpec,
                m.stages + (if stage.Some? then [stage.value] else []), MergeArtifacts(m.artifacts, additions), m.forkedFrom)
  }

  /** What the next revision holds: one stage more, every lasting addition and every artifact no addition replaces. */
  lemma RevisedHolds(previous: ArtifactRef, stage: StageRecord, additions: seq<ArtifactRef>, now: int, r: ArtifactRef)
    requires previous.digest.OfManifest?
    ensures var m, c := Revised(previous, Some(stage), additions, now), previous.digest.manifest;
            && m.runId == c.runId && m.revision == c.revision + 1 && m.parent == Some(previous)
            && m.buildSpec == c.buildSpec && m.createdAt == c.createdAt && m.revisedAt == now
            && m.forkedFrom == c.forkedFrom && m.stages == c.stages + [stage]
            && (forall k: nat | k < |additions| && Lasts(additions, k) :: additions[k] in m.artifacts)
            && (r in c.artifacts && (forall a | a in additions :: !Matches(a, r)) ==> r in m.artifacts)
            && (r in m.artifacts ==> r in c.artifacts || r in additions)
  {
    var c := previous.digest.manifest;
    forall k: nat | k < |additions| && Lasts(additions, k) ensures additions[k] in MergeArtifacts(c.artifacts, additions) {
      LastingAdditionsStay(c.artifacts, additions, k);
    }
    MergeLosesNothing(c.artifacts, additions, r);
  }

  // ------------------------------------------------------------ invariants

  /** What one `revise` step keeps of its parent. */
  ghost predicate Continues(parent: RunManifest, child: RunManifest) {
    && child.runId == parent.runId && child.revision == parent.revision + 1
    && parent.stages <= child.stages
    && child.buildSpec == parent.buildSpec && child.createdAt == parent.createdAt
  }

  /** A store file sits under its own name, and its parent reference was good when it was written. */
  ghost predicate FileOk(files: Files, p: Path) {
    p.RunFile? && p in files ==>
      var m := files[p];
      && p == PublishedRef(m).path && m.Valid()
      && (m.parent.Some? ==>
            && m.parent.value.digest.OfManifest? && Continues(m.parent.value.digest.manifest, m)
            && (m.parent.value.path.RunFile? ==> Load(files, m.parent.value) == Some(m.parent.value.digest.manifest)))
  }

  ghost predicate OnePerRevision(files: Files) {
    forall p, q | p in files && q in files && p.RunFile? && q.RunFile? && p.runId == q.runId && p.revision == q.revision ::
      p == q
  }

  ghost predicate StoreInv(files: Files) {
    OnePerRevision(files) && forall p | p in files :: FileOk(files, p)
  }

  /** A manifest that one of the store's three builders can hand to `publish`. */
  ghost predicate Publishable(m: RunManifest) {
    m.Valid() && (m.parent.Some? ==> m.parent.value.digest.OfManifest? && Continues(m.parent.value.digest.manifest, m))
  }

  lemma RevisedIsPublishable(previous: ArtifactRef, stage: Option<StageRecord>, additions: seq<ArtifactRef>, now: int)
    requires previous.digest.OfManifest?
    requires Revised(previous, stage, additions, now).Valid()
    ensures Publishable(Revised(previous, stage, additions, now))
  {
  }

  lemma PublishKeepsStore(files: Files, m: RunManifest)
    requires StoreInv(files) && Publishable(m) && PublishCheck(files, m).None?
    ensures StoreInv(Written(files, m))
    ensures forall p | p in files :: p in Written(files, m) && Written(files, m)[p] == files[p]
  {
    var files2 := Written(files, m);
    var at := PublishedRef(m).path;
    assert at in files ==> files[at] == m by {
      if at in files { assert FileOk(files, at); }
    }
    forall p | p in files2 ensures FileOk(files2, p) {
      if p in files { assert FileOk(files, p); }
    }
  }

  /** No file of the store holds another manifest for this run and revision. */
  ghost predicate Vacant(files: Files, m: RunManifest) {
    forall p | p in files && p.RunFile? && p.runId == m.runId && p.revision == m.revision :: files[p] == m
  }

  /**
   Every builder's manifest is published exactly when no other manifest holds its run and revision; for a revision that
   needs a stage whose name and attempt the parent does not record yet.
   */
  lemma PublishesExactlyWhen(files: Files, b: Build, now: int)
    requires StoreInv(files)
    ensures b.Create? ==>
              var m := Created(b.runId, b.buildSpec, now);
              Built(files, b, now) == Some(m) && (PublishCheck(files, m).None? <==> Vacant(files, m))
    ensures b.Fork? && Load(files, b.source).Some? && b.source.digest.manifest.Valid()
            && b.source == PublishedRef(b.source.digest.manifest) && b.runId != b.source.digest.manifest.runId ==>
              var m := Snapshot(b.source, b.runId, b.buildSpec, now);
              Built(files, b, now) == Some(m) && (PublishCheck(files, m).None? <==> Vacant(files, m))
    ensures b.Revise? && Load(files, b.previous).Some? && b.previous.digest.manifest.Valid() ==>
              var parent, m := b.previous.digest.manifest, Revised(b.previous, b.stage, b.additions, now);
              && (Built(files, b, now) == Some(m) <==> b.stage.None? || NotRecorded(parent, b.stage.value))
              && (PublishCheck(files, m).None? <==> Vacant(files, m))
  {
    if b.Revise? && Load(files, b.previous).Some? && b.previous.digest.manifest.Valid() {
      var m := Revised(b.previous, b.stage, b.additions, now);
      VacantMeans(files, m);
      RevisionIsValid(b.previous, b.stage, b.additions, now);
    } else if b.Create? {
      VacantMeans(files, Created(b.runId, b.buildSpec, now));
    } else if b.Fork? && Load(files, b.source).Some? {
      VacantMeans(files, Snapshot(b.source, b.runId, b.buildSpec, now));
    }
  }

  /** The manifest has no stage of this name and attempt. */
  predicate NotRecorded(m: RunManifest, stage: StageRecord) {
    forall i | 0 <= i < |m.stages| :: m.stages[i].name != stage.name || m.stages[i].attempt != stage.attempt
  }

  lemma VacantMeans(files: Files, m: RunManifest)
    requires StoreInv(files)
    ensures Taken(files, m) <==> !Vacant(files, m)
  {
    forall p | p in files && p.RunFile? && p.runId == m.runId && p.revision == m.revision
      ensures p == PublishedRef(m).path <==> files[p] == m
    {
      assert FileOk(files, p);
    }
  }

  lemma RevisionIsValid(previous: ArtifactRef, stage: Option<StageRecord>, additions: seq<ArtifactRef>, now: int)
    requires previous.digest.OfManifest? && previous.kind.ManifestArtifact? && previous.digest.manifest.Valid()
    ensures Revised(previous, stage, additions, now).Valid() <==>
              stage.None? || NotRecorded(previous.digest.manifest, stage.value)
  {
    var m, c := Revised(previous, stage, additions, now), previous.digest.manifest;
    if stage.Some? {
      var n := |c.stages|;
      assert m.stages[n] == stage.value;
      if m.Valid() {
        forall i | 0 <= i < n ensures c.stages[i].name != stage.value.name || c.stages[i].attempt != stage.value.attempt {
          assert m.stages[i] == c.stages[i];
        }
      }
    } else {
      assert m.stages == c.stages;
    }
  }

  // ------------------------------------------------------------- ancestry

  /** The manifest's chain of parents, each a published file of this store. */
  ghost predicate AncestryPresent(files: Files, m: RunManifest)
    decreases m
  {
    && PublishedRef(m).path in files
    && (m.parent.Some? ==>
          m.parent.value.digest.OfManifest? &&
          var parent := m.parent.value.digest.manifest;
          Continues(parent, m) && ParentBelow(m) && AncestryPresent(files, parent))
  }

  /** A parent's content is part of the child's, so chains of parents are finite. */
  predicate ParentBelow(m: RunManifest)
    requires m.parent.Some? && m.parent.value.digest.OfManifest?
    ensures ParentBelow(m) && m.parent.value.digest.manifest < m
  {
    assert m.parent.value < m;
    assert m.parent.value.digest < m;
    true
  }

  /** Every link of the chain was made through the store's own path. */
  ghost predicate LinkedInStore(m: RunManifest)
    decreases m
  {
    m.parent.Some? ==>
      && m.parent.value.path.RunFile? && m.parent.value.digest.OfManifest?
      && ParentBelow(m) && LinkedInStore(m.parent.value.digest.manifest)
  }

  /** Revision r of a run has r-1 down to 0 beside it, as long as no link was made through a copy elsewhere. */
  lemma {:induction false} AncestryIsPresent(files: Files, m: RunManifest)
    requires StoreInv(files) && PublishedRef(m).path in files && files[PublishedRef(m).path] == m
    requires LinkedInStore(m)
    ensures AncestryPresent(files, m)
    decreases m.revision
  {
    assert FileOk(files, PublishedRef(m).path);
    if m.parent.Some? {
      var ref := m.parent.value;
      assert FileOk(files, ref.path);
      AncestryIsPresent(files, ref.digest.manifest);
    }
  }

  /** Every file of the store has its whole ancestry beside it. */
  ghost predicate Grounded(files: Files) {
    forall p | p in files && p.RunFile? :: AncestryPresent(files, files[p])
  }

  /** The direct predecessor of a manifest is under its own name in the store. */
  predicate ParentAtHome(files: Files, m: RunManifest) {
    m.parent.Some? ==>
      m.parent.value.digest.OfManifest? && PublishedRef(m.parent.value.digest.manifest).path in files
  }

  lemma {:induction false} AncestryGrows(files: Files, files2: Files, m: RunManifest)
    requires AncestryPresent(files, m) && files.Keys <= files2.Keys
    ensures AncestryPresent(files2, m)
    decreases m.revision
  {
    if m.parent.Some? {
      AncestryGrows(files, files2, m.parent.value.digest.manifest);
    }
  }

  lemma {:induction false} HomeMeansAncestry(files: Files, m: RunManifest)
    requires StoreInv(files) && PublishedRef(m).path in files && files[PublishedRef(m).path] == m
    requires forall p | p in files && p.RunFile? :: ParentAtHome(files, files[p])
    ensures AncestryPresent(files, m)
    decreases m.revision
  {
    var at := PublishedRef(m).path;
    assert FileOk(files, at) && ParentAtHome(files, files[at]);
    if m.parent.Some? {
      var parent := m.parent.value.digest.manifest;
      assert FileOk(files, PublishedRef(parent).path);
      HomeMeansAncestry(files, parent);
    }
  }

  /** Whole ancestries are a matter of direct predecessors. */
  lemma GroundedExactlyWhen(files: Files)
    requires StoreInv(files)
    ensures Grounded(files) <==> forall p | p in files && p.RunFile? :: ParentAtHome(files, files[p])
  {
    if forall p | p in files && p.RunFile? :: ParentAtHome(files, files[p]) {
      forall p | p in files && p.RunFile? ensures AncestryPresent(files, files[p]) {
        assert FileOk(files, p);
        HomeMeansAncestry(files, files[p]);
      }
    }
    if Grounded(files) {
      forall p | p in files && p.RunFile? ensures ParentAtHome(files, files[p]) {
        assert AncestryPresent(files, files[p]);
        if files[p].parent.Some? {
          assert AncestryPresent(files, files[p].parent.value.digest.manifest);
        }
      }
    }
  }

  /**
   One publish keeps every ancestry whole exactly when the parent it was given is in the store under its own name;
   the caller can look before the call.
   */
  lemma PublishKeepsGrounded(files: Files, m: RunManifest)
    requires StoreInv(files) && Publishable(m) && PublishCheck(files, m).None? && Grounded(files)
    ensures Grounded(Written(files, m)) <==> ParentAtHome(files, m)
  {
    var files2, at := Written(files, m), PublishedRef(m).path;
    PublishKeepsStore(files, m);
    assert files.Keys <= files2.Keys;
    forall p | p in files && p.RunFile? ensures AncestryPresent(files2, files2[p]) {
      AncestryGrows(files, files2, files[p]);
    }
    if m.parent.Some? {
      var parent := m.parent.value.digest.manifest;
      assert PublishedRef(parent).path != at by { assert parent.revision != m.revision; }
      if ParentAtHome(files, m) {
        assert FileOk(files, PublishedRef(parent).path);
        assert ParentBelow(m) && AncestryPresent(files2, parent);
      }
    }
    if Grounded(files2) {
      assert AncestryPresent(files2, files2[at]);
      if m.parent.Some? {
        assert AncestryPresent(files2, m.parent.value.digest.manifest);
      }
    }
  }

  /** ... and the stages of every ancestor are a prefix, under one build spec and creation time. */
  lemma {:induction false} AncestorsArePrefixes(files: Files, m: RunManifest, revision: nat) returns (a: RunManifest)
    requires AncestryPresent(files, m) && m.Valid() && revision <= m.revision
    requires forall p | p in files :: FileOk(files, p)
    ensures PublishedRef(a).path in files && a.revision == revision && a.runId == m.runId
    ensures a.stages <= m.stages && a.buildSpec == m.buildSpec && a.createdAt == m.createdAt
    decreases m.revision
  {
    if revision == m.revision {
      a := m;
    } else {
      var parent := m.parent.value.digest.manifest;
      assert FileOk(files, PublishedRef(parent).path);
      a := AncestorsArePrefixes(files, parent, revision);
    }
  }

  // -------------------------------------------------- interleaved publishers

  datatype Build =
    | Create(runId: nat, buildSpec: string)
    | Revise(previous: ArtifactRef, stage: Option<StageRecord>, additions: seq<ArtifactRef>)
    | Fork(source: ArtifactRef, runId: nat, buildSpec: string)

  datatype Action =
    | Begin(build: Build, now: int)           // lock, check
    | Finish(runId: nat, revision: nat)       // rename into place, unlock
    | Kill(runId: nat, revision: nat)         // the lock holder dies
    | CopyOut(name: string, m: RunManifest)   // any manifest file appears outside the store

  /** `writing` holds the manifest each locked run and revision is about to publish. */
  datatype Store = Store(files: Files, writing: map<(nat, nat), RunManifest>)

  /** The manifest a builder produces, or None when it has nothing to hand to `publish`. */
  ghost function Built(files: Files, b: Build, now: int): Option<RunManifest> {
    match b
    case Create(runId, spec) => Some(Created(runId, spec, now))
    case Revise(previous, stage, additions) =>
      if Load(files, previous).None? then None
      else
        var m := Revised(previous, stage, additions, now);
        if m.Valid() then Some(m) else None
    case Fork(source, runId, spec) =>
      if Load(files, source).None? || !source.path.RunFile?
         || source.path.runId != source.digest.manifest.runId || runId == source.digest.manifest.runId then None
      else
        var m := Snapshot(source, runId, spec, now);
        if m.Valid() then Some(m) else None
  }

  ghost function Step(s: Store, a: Action): Store {
    match a
    case Begin(b, now) =>
      var m := Built(s.files, b, now);
      if m.None? || (m.value.runId, m.value.revision) in s.writing || PublishCheck(s.files, m.value).Some? then s
      else s.(writing := s.writing[(m.value.runId, m.value.revision) := m.value])
    case Finish(runId, revision) =>
      if (runId, revision) !in s.writing then s
      else Store(Written(s.files, s.writing[(runId, revision)]), s.writing - {(runId, revision)})
    case Kill(runId, revision) => s.(writing := s.writing - {(runId, revision)})
    case CopyOut(name, m) =>
      if Elsewhere(name) in s.files then s else s.(files := s.files[Elsewhere(name) := m])
  }

  ghost function Run(s: Store, actions: seq<Action>): Store {
    if actions == [] then s else Step(Run(s, actions[..|actions| - 1]), actions[|actions| - 1])
  }

  ghost predicate Inv(s: Store) {
    && StoreInv(s.files)
    && (forall k | k in s.writing ::
          && k == (s.writing[k].runId, s.writing[k].revision)
          && Publishable(s.writing[k]) && PublishCheck(s.files, s.writing[k]).None?)
  }

  lemma WrittenKeepsChecks(files: Files, m: RunManifest, other: RunManifest)
    requires StoreInv(files) && PublishCheck(files, m).None? && PublishCheck(files, other).None?
    requires (m.runId, m.revision) != (other.runId, other.revision)
    ensures PublishCheck(Written(files, m), other).None?
  {
    var at := PublishedRef(m).path;
    assert at in files ==> files[at] == m by {
      if at in files { assert FileOk(files, at); }
    }
  }

  lemma StepKeeps(s: Store, a: Action)
    requires Inv(s)
    ensures Inv(Step(s, a))
    ensures forall p | p in s.files :: p in Step(s, a).files && Step(s, a).files[p] == s.files[p]
  {
    match a
    case Begin(b, now) =>
    case Finish(runId, revision) =>
      if (runId, revision) in s.writing {
        var m := s.writing[(runId, revision)];
        PublishKeepsStore(s.files, m);
        forall k | k in s.writing && k != (runId, revision)
          ensures PublishCheck(Written(s.files, m), s.writing[k]).None?
        {
          WrittenKeepsChecks(s.files, m, s.writing[k]);
        }
      }
    case Kill(runId, revision) =>
    case CopyOut(name, m) =>
      CopyKeeps(s, name, m);
  }

  lemma CopyKeeps(s: Store, name: string, m: RunManifest)
    requires Inv(s)
    ensures Inv(Step(s, CopyOut(name, m)))
  {
    var s2 := Step(s, CopyOut(name, m));
    forall p | p in s2.files ensures FileOk(s2.files, p) {
      if p in s.files { assert FileOk(s.files, p); }
    }
  }

  /** In every interleaving: one manifest per revision, none ever changed, every file well linked. */
  lemma {:induction false} RunKeeps(s: Store, actions: seq<Action>)
    requires Inv(s)
    ensures Inv(Run(s, actions))
    ensures forall p | p in s.files :: p in Run(s, actions).files && Run(s, actions).files[p] == s.files[p]
  {
    if actions != [] {
      RunKeeps(s, actions[..|actions| - 1]);
      StepKeeps(Run(s, actions[..|actions| - 1]), actions[|actions| - 1]);
    }
  }

  /** The write of this step, if it is one, finds the parent in the store under its own name. */
  ghost predicate FindsParent(s: Store, a: Action) {
    a.Finish? && (a.runId, a.revision) in s.writing ==> ParentAtHome(s.files, s.writing[(a.runId, a.revision)])
  }

  lemma StepKeepsGrounded(s: Store, a: Action)
    requires Inv(s) && Grounded(s.files)
    ensures Grounded(Step(s, a).files) <==> FindsParent(s, a)
  {
    match a
    case Begin(b, now) =>
    case Finish(runId, revision) =>
      if (runId, revision) in s.writing { PublishKeepsGrounded(s.files, s.writing[(runId, revision)]); }
    case Kill(runId, revision) =>
    case CopyOut(name, m) =>
      forall p | p in s.files && p.RunFile? ensures AncestryPresent(Step(s, a).files, s.files[p]) {
        AncestryGrows(s.files, Step(s, a).files, s.files[p]);
      }
  }

  /** Every write of the run finds its parent. */
  ghost predicate ParentsFound(actions: seq<Action>) {
    actions == [] ||
    (ParentsFound(actions[..|actions| - 1])
     && FindsParent(Run(Store(map[], map[]), actions[..|actions| - 1]), actions[|actions| - 1]))
  }

  ghost predicate AlwaysGrounded(actions: seq<Action>) {
    Grounded(Run(Store(map[], map[]), actions).files)
    && (actions == [] || AlwaysGrounded(actions[..|actions| - 1]))
  }

  /**
   In every interleaving there is one manifest per revision, and every manifest has its whole ancestry in the store
   at every moment of the run exactly when every write found its parent there under the parent's own name.
   */
  lemma {:induction false} EveryPublishedManifest(actions: seq<Action>)
    ensures OnePerRevision(Run(Store(map[], map[]), actions).files)
    ensures AlwaysGrounded(actions) <==> ParentsFound(actions)
  {
    RunKeeps(Store(map[], map[]), actions);
    if actions != [] {
      var before := actions[..|actions| - 1];
      EveryPublishedManifest(before);
      RunKeeps(Store(map[], map[]), before);
      if AlwaysGrounded(before) {
        assert Grounded(Run(Store(map[], map[]), before).files) by { LastIsGrounded(before); }
        StepKeepsGrounded(Run(Store(map[], map[]), before), actions[|actions| - 1]);
      }
    }
  }

  lemma LastIsGrounded(actions: seq<Action>)
    requires AlwaysGrounded(actions)
    ensures Grounded(Run(Store(map[], map[]), actions).files)
  {
  }

  /** In whatever state a run is left, the ancestries are whole exactly when every direct predecessor is there. */
  lemma GroundedAtTheEnd(actions: seq<Action>)
    ensures var files := Run(Store(map[], map[]), actions).files;
            Grounded(files) <==> forall p | p in files && p.RunFile? :: ParentAtHome(files, files[p])
  {
    RunKeeps(Store(map[], map[]), actions);
    GroundedExactlyWhen(Run(Store(map[], map[]), actions).files);
  }

  /** None of these actions finishes or kills the writer of this run and revision. */
  predicate LeavesWriter(actions: seq<Action>, runId: nat, revision: nat) {
    forall a | a in actions ::
      !((a.Finish? || a.Kill?) && a.runId == runId && a.revision == revision)
  }

  lemma {:induction false} WriterStays(s: Store, actions: seq<Action>, runId: nat, revision: nat)
    requires (runId, revision) in s.writing && LeavesWriter(actions, runId, revision)
    ensures (runId, revision) in Run(s, actions).writing
    ensures Run(s, actions).writing[(runId, revision)] == s.writing[(runId, revision)]
  {
    if actions != [] {
      var before, last := actions[..|actions| - 1], actions[|actions| - 1];
      assert forall a | a in before :: a in actions;
      assert last in actions;
      WriterStays(s, before, runId, revision);
    }
  }

  /**
   A fork starts its run at revision zero, without a parent, and its write adds one file and touches no other,
   whatever other publishers do between its check and its write.
   */
  lemma ForkAddsNoEdge(s: Store, source: ArtifactRef, runId: nat, spec: string, now: int, between: seq<Action>)
    requires Inv(s) && (runId, 0) !in s.writing && LeavesWriter(between, runId, 0)
    requires var m := Built(s.files, Fork(source, runId, spec), now);
             m.Some? && PublishCheck(s.files, m.value).None?
    ensures var m := Snapshot(source, runId, spec, now);
            var t := Run(Step(s, Begin(Fork(source, runId, spec), now)), between);
            && Inv(t) && Step(t, Finish(runId, 0)).files == t.files[PublishedRef(m).path := m]
            && m.runId == runId != source.digest.manifest.runId && m.revision == 0 && m.parent.None?
            && m.stages == source.digest.manifest.stages && m.artifacts == source.digest.manifest.artifacts
            && (forall p | p in t.files && p.RunFile? && p.runId == runId && p.revision == 0 ::
                  Step(t, Finish(runId, 0)).files == t.files)
  {
    var begin, m := Begin(Fork(source, runId, spec), now), Snapshot(source, runId, spec, now);
    StepKeeps(s, begin);
    RunKeeps(Step(s, begin), between);
    WriterStays(Step(s, begin), between, runId, 0);
    var t := Run(Step(s, begin), between);
    assert t.writing[(runId, 0)] == m;
    forall p | p in t.files && p.RunFile? && p.runId == runId && p.revision == 0
      ensures t.files[PublishedRef(m).path := m] == t.files
    {
      assert FileOk(t.files, p);
      assert p == PublishedRef(m).path;
    }
  }

  /** A publisher that dies between its check and its write leaves nothing, and another one can take its place. */
  lemma KilledWriterIsReplaced(s: Store, runId: nat, revision: nat, b: Build, now: int)
    requires Inv(s) && Built(s.files, b, now).Some?
    requires var m := Built(s.files, b, now).value;
             m.runId == runId && m.revision == revision && PublishCheck(s.files, m).None?
    ensures var killed := Step(s, Kill(runId, revision));
            && killed.files == s.files
            && Step(Step(killed, Begin(b, now)), Finish(runId, revision)).files
               == Written(s.files, Built(s.files, b, now).value)
            && (runId, revision) !in Step(Step(killed, Begin(b, now)), Finish(runId, revision)).writing
  {
  }

  /** Through a copy kept elsewhere, a revision can appear whose predecessor the store never held. */
  lemma CopiedParentLeavesGap() returns (actions: seq<Action>, m: RunManifest)
    ensures var files := Run(Store(map[], map[]), actions).files;
            && PublishedRef(m).path in files && files[PublishedRef(m).path] == m && m.revision > 0
            && forall p | p in files && p.RunFile? :: p.revision == m.revision
  {
    var outside := Elsewhere("backup/manifest.json");
    var zero := Created(1, "spec", 0);
    var copy := ArtifactRef(outside, OfManifest(zero), SizeOf(zero), ManifestArtifact, RunManifestName(0));
    m := Revised(copy, None, [], 5);
    assert MergeArtifacts([], []) == [];
    var copied := CopyOut("backup/manifest.json", zero);
    var begin := Begin(Revise(copy, None, []), 5);
    var s0 := Store(map[], map[]);
    assert [copied][..0] == [];
    assert Run(s0, []) == s0;
    var s1 := Step(s0, copied);
    assert Run(s0, [copied]) == s1;
    assert [copied, begin][..1] == [copied];
    assert Load(s1.files, copy) == Some(zero);
    var s2 := Step(s1, begin);
    assert s2.writing == map[(1, 1) := m];
    assert Run(s0, [copied, begin]) == s2;
    actions := [copied, begin, Finish(1, 1)];
    assert actions[..2] == [copied, begin];
    assert Run(s0, actions) == Step(s2, Finish(1, 1));
  }

  /** The store object: each operation is its builder followed by `publish`. */
  class ManifestStore {
    var files: Files

    /** Looks at every file of the run directory for another manifest of this revision. */
    method FindConflict(m: RunManifest) returns (taken: bool)
      ensures taken <==> Taken(files, m)
    {
      taken := false;
      var rest := files.Keys;
      while rest != {}
        invariant rest <= files.Keys
        invariant taken ==> Taken(files, m)
        invariant !taken ==> forall p | p in files.Keys && p !in rest ::
                    !(p.RunFile? && p.runId == m.runId && p.revision == m.revision && p != PublishedRef(m).path)
        decreases rest
      {
        var p :| p in rest;
        if p.RunFile? && p.runId == m.runId && p.revision == m.revision && p != PublishedRef(m).path {
          taken := true;
        }
        rest := rest - {p};
      }
    }

    method Publish(m: RunManifest) returns (r: Result<ArtifactRef, StoreError>)
      requires StoreInv(files) && Publishable(m)
      modifies this
      ensures StoreInv(files)
      ensures match PublishCheck(old(files), m)
              case Some(e) => r == Err(e) && files == old(files)
              case None => r == Ok(PublishedRef(m)) && files == Written(old(files), m)
    {
      if m.parent.Some? {
        var parent := Load(files, m.parent.value);
        if parent.None? {
          return Err(NotLoadable);
        }
        if parent.value.runId != m.runId || parent.value.revision != m.revision - 1 {
          return Err(Conflict);
        }
      }
      var taken := FindConflict(m);
      if taken {
        return Err(Conflict);
      }
      PublishKeepsStore(files, m);
      files := files[PublishedRef(m).path := m];
      r := Ok(PublishedRef(m));
    }

    method Revise(previous: ArtifactRef, stage: Option<StageRecord>, additions: seq<ArtifactRef>, now: int)
      returns (r: Result<ArtifactRef, StoreError>)
      requires StoreInv(files)
      modifies this
      ensures StoreInv(files)
      ensures r.Ok? <==> (Built(old(files), Build.Revise(previous, stage, additions), now).Some?
                          && PublishCheck(old(files), Revised(previous, stage, additions, now)).None?)
      ensures r.Ok? ==> r.value == PublishedRef(Revised(previous, stage, additions, now))
      ensures r.Ok? ==> files == Written(old(files), Revised(previous, stage, additions, now))
      ensures r.Err? ==> files == old(files)
    {
      var current := Load(files, previous);
      if current.None? {
        return Err(NotLoadable);
      }
      var c := current.value;
      var merged := MergeInPlace(c.artifacts, additions);
      var m := RunManifest(c.runId, c.revision + 1, c.createdAt, now, Some(previous), c.buildSpec,
                           c.stages + (if stage.Some? then [stage.value] else []), merged, c.forkedFrom);
      assert m == Revised(previous, stage, additions, now);
      if !m.Valid() {
        return Err(InvalidManifest);
      }
      r := Publish(m);
    }

    /** `disk` is what the files of the whole graph hold; a fork copies references only after verifying all of them. */
    method ForkSnapshot(source: ArtifactRef, disk: ArtifactGraph.Disk, runId: nat, buildSpec: string, now: int)
      returns (r: Result<ArtifactRef, StoreError>)
      requires StoreInv(files)
      modifies this
      ensures StoreInv(files)
      ensures r.Ok? ==> Built(old(files), Build.Fork(source, runId, buildSpec), now).Some?
                        && PublishCheck(old(files), Snapshot(source, runId, buildSpec, now)).None?
      ensures r.Ok? && ArtifactGraph.Consistent(source) ==> ArtifactGraph.AllGood(disk, source)
      ensures r.Ok? && ArtifactGraph.SameKinds(source) ==>
                forall x | ArtifactGraph.Reachable(source, x) :: ArtifactGraph.Good(disk, x) <==> ArtifactGraph.Sized(disk, x)
      ensures (ArtifactGraph.AllGood(disk, source) && Built(old(files), Build.Fork(source, runId, buildSpec), now).Some?
               && PublishCheck(old(files), Snapshot(source, runId, buildSpec, now)).None?) ==> r.Ok?
      ensures r.Ok? ==> r.value == PublishedRef(Snapshot(source, runId, buildSpec, now))
      ensures r.Ok? ==> files == Written(old(files), Snapshot(source, runId, buildSpec, now))
      ensures r.Err? ==> files == old(files)
    {
      var loaded := Load(files, source);
      if loaded.None? {
        return Err(NotLoadable);
      }
      if !source.path.RunFile? || source.path.runId != loaded.value.runId {
        return Err(Conflict);
      }
      var graph := ArtifactGraph.VerifyManifestGraph(source, disk);
      if graph.None? {
        return Err(GraphBroken);
      }
      if runId == loaded.value.runId {
        return Err(Conflict);
      }
      var m := Snapshot(source, runId, buildSpec, now);
      if !m.Valid() {
        return Err(InvalidManifest);
      }
      r := Publish(m);
    }
  }
}
