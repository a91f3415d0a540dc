/**
 What the worker's persistent records answer for each stage of a job, and what they keep of the job's history. The
 sessions that write them are in `WorkerSessions`; an undisturbed turn of a session is in `WorkerTurns`.
 */
module Worker {
  import opened Common
  import opened Contracts
  import opened StageKeys

  datatype StageReceipt = StageReceipt(
    stageKey: StageKey,
    stageName: string,
    attempt: nat,
    succeeded: bool,
    outputs: seq<ArtifactRef>,
    reusedFromParent: bool)

  datatype ForkReason = InitialManifest | BeforeStage | AllStagesReused

  datatype JobEvent =
    | StageStarted(stageName: string, stageKey: StageKey, attempt: nat)
    | StageReused(stageName: string, stageKey: StageKey)
    | ManifestForked(source: Digest, nextStage: Option<string>, reason: ForkReason, fork: ArtifactRef)

  datatype Outcome =
    | Success(artifacts: seq<ArtifactRef>, manifest: Option<ArtifactRef>)
    | Failure
    | Cancellation

  /** Everything about a job that no session changes. `call` numbers make every foreign answer arbitrary. */
  datatype Job = Job(
    stages: seq<string>,
    keys: KeyInputs,
    initialManifest: Option<ArtifactRef>,
    parentReceipts: seq<StageReceipt>,
    effectiveSpec: Option<string>,
    runner: (nat, string, Option<ArtifactRef>, nat) -> Outcome,
    forkFaults: nat -> bool,
    cancelled: nat -> bool)

  datatype Records = Records(receipts: seq<StageReceipt>, events: seq<JobEvent>)

  // ------------------------------------------------------------- lookups

  /** `receipt_for_stage_key`: the first successful receipt with this key. */
  function ReceiptFor(receipts: seq<StageReceipt>, key: StageKey): (r: Option<StageReceipt>)
    ensures r.Some? ==> r.value in receipts && r.value.succeeded && r.value.stageKey == key
  {
    if receipts == [] then None
    else
      var n := |receipts| - 1;
      var earlier := ReceiptFor(receipts[..n], key);
      if earlier.Some? then earlier
      else if receipts[n].succeeded && receipts[n].stageKey == key then Some(receipts[n])
      else None
  }

  /** The most recent fork recorded for this source, next stage and reason. */
  function RecordedFork(events: seq<JobEvent>, source: Digest, nextStage: Option<string>, reason: ForkReason)
    : (r: Option<ArtifactRef>)
    ensures r.None? <==> forall e | e in events && e.ManifestForked? ::
                           !(e.source == source && e.nextStage == nextStage && e.reason == reason)
  {
    if events == [] then None
    else
      var e := events[|events| - 1];
      if e.ManifestForked? && e.source == source && e.nextStage == nextStage && e.reason == reason
      then Some(e.fork)
      else RecordedFork(events[..|events| - 1], source, nextStage, reason)
  }

  /** Attempt numbers of one stage key seen in receipts and `stage_started` events. */
  predicate Used(d: Records, stageName: string, key: StageKey, attempt: nat) {
    || (exists r | r in d.receipts :: r.stageName == stageName && r.stageKey == key && r.attempt == attempt)
    || StageStarted(stageName, key, attempt) in d.events
  }

  /** `_receipt_outputs`: the committed manifest last, unless it is already listed. */
  function ReceiptOutputs(artifacts: seq<ArtifactRef>, manifest: Option<ArtifactRef>): seq<ArtifactRef> {
    if manifest.Some? && !exists a | a in artifacts :: SameFile(a, manifest.value)
    then artifacts + [manifest.value]
    else artifacts
  }

  predicate SameFile(a: ArtifactRef, b: ArtifactRef) {
    a.path == b.path && a.digest == b.digest
  }

  /** The receipt of this outcome ends with the manifest: it is not among the artifacts, or it is the last of them. */
  predicate EndsWithManifest(outcome: Outcome) {
    outcome.Success? ==>
      && outcome.manifest.Some?
      && var outputs := ReceiptOutputs(outcome.artifacts, outcome.manifest);
         outputs != [] && outputs[|outputs| - 1] == outcome.manifest.value
  }

  ghost predicate ReturnsManifest(job: Job) {
    forall call, stage, manifest, attempt :: EndsWithManifest(job.runner(call, stage, manifest, attempt))
  }

  ghost predicate StartsWithBuild(job: Job) {
    && job.stages != [] && job.stages[0] == BUILD
    && (forall i, j | 0 <= i < j < |job.stages| :: job.stages[i] != job.stages[j])
    && ReturnsManifest(job)
    && (forall r | r in job.parentReceipts && r.succeeded :: r.outputs != [])
  }

  lemma RunnerReturnsManifest(job: Job, call: nat, stageName: string, m: Option<ArtifactRef>, attempt: nat)
    ensures StartsWithBuild(job) ==> EndsWithManifest(job.runner(call, stageName, m, attempt))
  {
  }

  // ------------------------------------------- what the records say so far

  /** What a session holds when it reaches a stage. */
  datatype Position = Position(manifest: Option<ArtifactRef>, pendingFork: bool)

  /** A stage the records already answer: the key it is found under and its receipt. */
  datatype Settlement = Settlement(stageKey: StageKey, receipt: StageReceipt, viaFork: bool)

  /** The manifest a recorded fork stands for; opaque manifests are never forked. */
  function ForkInRecords(d: Records, manifest: ArtifactRef, stageName: string): Option<ArtifactRef> {
    if IsRunManifest(manifest) then RecordedFork(d.events, manifest.digest, Some(stageName), BeforeStage)
    else Some(manifest)
  }

  /** The lookups a session makes for one stage before it would run it. */
  function Lookup(job: Job, d: Records, stageName: string, pos: Position): Option<Settlement> {
    var key := KeyFor(job.keys, stageName, pos.manifest);
    if key.None? then None
    else
      var own := ReceiptFor(d.receipts, key.value);
      if own.Some? then Some(Settlement(key.value, own.value, false))
      else if ReceiptFor(job.parentReceipts, key.value).Some? || !pos.pendingFork || pos.manifest.None? then None
      else
        var fork := ForkInRecords(d, pos.manifest.value, stageName);
        if fork.None? then None
        else
          var forkKey := KeyFor(job.keys, stageName, fork);
          if forkKey.None? then None
          else
            var resumed := ReceiptFor(d.receipts, forkKey.value);
            if resumed.None? then None else Some(Settlement(forkKey.value, resumed.value, true))
  }

  function Advance(s: Settlement): Position
    requires s.receipt.outputs != []
  {
    var manifest := s.receipt.outputs[|s.receipt.outputs| - 1];
    Position(Some(manifest), !s.viaFork && s.receipt.reusedFromParent && manifest.kind.ManifestArtifact?)
  }

  /** Where replaying the records leads before stage `i`, when every earlier stage is answered. */
  ghost function Replay(job: Job, d: Records, i: nat): Option<Position>
    requires i <= |job.stages|
    decreases i, 0
  {
    if i == 0 then Some(Position(None, false))
    else
      var s := Settled(job, d, i - 1);
      if s.None? || s.value.receipt.outputs == [] then None else Some(Advance(s.value))
  }

  ghost function Settled(job: Job, d: Records, i: nat): Option<Settlement>
    requires i < |job.stages|
    decreases i, 1
  {
    var pos := Replay(job, d, i);
    if pos.None? then None else Lookup(job, d, job.stages[i], pos.value)
  }

  // ------------------------------------------------------ what grows keeps

  lemma ReceiptForAppend(receipts: seq<StageReceipt>, r: StageReceipt, key: StageKey)
    ensures var before := ReceiptFor(receipts, key);
            ReceiptFor(receipts + [r], key) ==
              if before.Some? then before else if r.succeeded && r.stageKey == key then Some(r) else None
  {
    assert (receipts + [r])[..|receipts|] == receipts;
  }

  lemma RecordedForkAppend(events: seq<JobEvent>, e: JobEvent, source: Digest, next: Option<string>, reason: ForkReason)
    ensures RecordedFork(events + [e], source, next, reason) ==
              if e.ManifestForked? && e.source == source && e.nextStage == next && e.reason == reason
              then Some(e.fork) else RecordedFork(events, source, next, reason)
  {
    assert (events + [e])[..|events|] == events;
  }

  /** `d2` is `d` after one append that only stage `stageName` could notice. */
  ghost predicate AppendsFor(d: Records, d2: Records, stageName: string) {
    || (exists r: StageReceipt :: d2 == d.(receipts := d.receipts + [r]) && (r.succeeded ==> r.stageKey.stageName == stageName))
    || (exists e: JobEvent :: d2 == d.(events := d.events + [e])
                           && (e.ManifestForked? && e.reason == BeforeStage ==> e.nextStage == Some(stageName)))
  }

  lemma OtherStagesUnaffected(job: Job, d: Records, d2: Records, stageName: string, other: string, pos: Position)
    requires AppendsFor(d, d2, stageName) && other != stageName
    ensures Lookup(job, d2, other, pos) == Lookup(job, d, other, pos)
  {
    var key := KeyFor(job.keys, other, pos.manifest);
    if key.Some? {
      AppendedReceiptUnseen(d, d2, stageName, key.value);
      if pos.manifest.Some? {
        AppendedForkUnseen(d, d2, stageName, pos.manifest.value, other);
        var fork := ForkInRecords(d, pos.manifest.value, other);
        var forkKey := KeyFor(job.keys, other, fork);
        if fork.Some? && forkKey.Some? {
          AppendedReceiptUnseen(d, d2, stageName, forkKey.value);
        }
      }
    }
  }

  lemma AppendedReceiptUnseen(d: Records, d2: Records, stageName: string, key: StageKey)
    requires AppendsFor(d, d2, stageName) && key.stageName != stageName
    ensures ReceiptFor(d2.receipts, key) == ReceiptFor(d.receipts, key)
  {
    if d2.receipts != d.receipts {
      var r: StageReceipt :| d2 == d.(receipts := d.receipts + [r]) && (r.succeeded ==> r.stageKey.stageName == stageName);
      ReceiptForAppend(d.receipts, r, key);
    }
  }

  lemma AppendedForkUnseen(d: Records, d2: Records, stageName: string, manifest: ArtifactRef, other: string)
    requires AppendsFor(d, d2, stageName) && other != stageName
    ensures ForkInRecords(d2, manifest, other) == ForkInRecords(d, manifest, other)
  {
    if d2.events != d.events {
      var e: JobEvent :| d2 == d.(events := d.events + [e])
                      && (e.ManifestForked? && e.reason == BeforeStage ==> e.nextStage == Some(stageName));
      RecordedForkAppend(d.events, e, manifest.digest, Some(other), BeforeStage);
    }
  }

  lemma ReplayAlike(job: Job, d: Records, d2: Records, i: nat)
    requires 0 < i <= |job.stages|
    requires Replay(job, d2, i - 1) == Replay(job, d, i - 1) && Settled(job, d2, i - 1) == Settled(job, d, i - 1)
    ensures Replay(job, d2, i) == Replay(job, d, i)
  {
  }

  /** Both records lead to every stage up to `n` alike. */
  ghost predicate ReplayAlikeTo(job: Job, d: Records, d2: Records, n: nat)
    requires n <= |job.stages|
  {
    forall i | 0 <= i <= n :: Replay(job, d2, i) == Replay(job, d, i)
  }

  lemma ReplayGoesOn(job: Job, d: Records, d2: Records, n: nat)
    requires n < |job.stages| && ReplayAlikeTo(job, d, d2, n) && Settled(job, d2, n) == Settled(job, d, n)
    ensures ReplayAlikeTo(job, d, d2, n + 1)
  {
    ReplayAlike(job, d, d2, n + 1);
  }

  lemma ReplayStaysAt(job: Job, d: Records, d2: Records, j: nat, i: nat)
    requires i < j < |job.stages| && AppendsFor(d, d2, job.stages[j]) && job.stages[i] != job.stages[j]
    requires ReplayAlikeTo(job, d, d2, i)
    ensures ReplayAlikeTo(job, d, d2, i + 1)
  {
    SettledAlike(job, d, d2, j, i);
    ReplayGoesOn(job, d, d2, i);
  }

  lemma {:induction false} ReplayStays(job: Job, d: Records, d2: Records, j: nat, i: nat)
    requires i <= j < |job.stages| && AppendsFor(d, d2, job.stages[j])
    requires forall a | 0 <= a < i :: job.stages[a] != job.stages[j]
    ensures ReplayAlikeTo(job, d, d2, i)
    decreases i
  {
    if i > 0 {
      ReplayStays(job, d, d2, j, i - 1);
      ReplayStaysAt(job, d, d2, j, i - 1);
    }
  }

  lemma {:induction false} UnsettledFromThere(job: Job, d: Records, j: nat, i: nat)
    requires j <= i < |job.stages| && Settled(job, d, j).None?
    ensures Settled(job, d, i).None?
    decreases i
  {
    if i > j {
      UnsettledFromThere(job, d, j, i - 1);
      UnsettledBlocks(job, d, i);
    }
  }

  /** Work on a stage that was not settled cannot change what is settled, nor how. */
  lemma SettledStays(job: Job, d: Records, d2: Records, j: nat, i: nat)
    requires j < |job.stages| && i < |job.stages|
    requires forall a, b | 0 <= a < b < |job.stages| :: job.stages[a] != job.stages[b]
    requires AppendsFor(d, d2, job.stages[j])
    requires Settled(job, d, j).None?
    ensures i <= j ==> Replay(job, d2, i) == Replay(job, d, i)
    ensures i < j ==> Settled(job, d2, i) == Settled(job, d, i)
    ensures i > j ==> Settled(job, d, i).None?
    ensures Settled(job, d, i).Some? ==> Settled(job, d2, i) == Settled(job, d, i)
  {
    if i <= j {
      ReplayStays(job, d, d2, j, i);
      if i < j { SettledAlike(job, d, d2, j, i); }
    } else {
      UnsettledFromThere(job, d, j, i);
    }
  }

  /** A stage asked from the same position, and not the one appended for, is answered alike. */
  lemma SettledAlike(job: Job, d: Records, d2: Records, j: nat, i: nat)
    requires j < |job.stages| && i < |job.stages| && job.stages[j] != job.stages[i]
    requires AppendsFor(d, d2, job.stages[j]) && Replay(job, d2, i) == Replay(job, d, i)
    ensures Settled(job, d2, i) == Settled(job, d, i)
  {
    var pos := Replay(job, d, i);
    if pos.Some? {
      OtherStagesUnaffected(job, d, d2, job.stages[j], job.stages[i], pos.value);
    }
  }

  lemma UnsettledBlocks(job: Job, d: Records, i: nat)
    requires 0 < i < |job.stages| && Settled(job, d, i - 1).None?
    ensures Settled(job, d, i).None?
  {
    assert Replay(job, d, i).None?;
  }

  /** Appends that no lookup reads: reuse notes, started notes, failed receipts. */
  ghost predicate Silent(d: Records, d2: Records) {
    || (exists r: StageReceipt :: !r.succeeded && d2 == d.(receipts := d.receipts + [r]))
    || (exists e: JobEvent :: d2 == d.(events := d.events + [e]) && (e.ManifestForked? ==> e.reason != BeforeStage))
  }

  lemma SilentLookup(job: Job, d: Records, d2: Records, stageName: string, pos: Position)
    requires Silent(d, d2)
    ensures Lookup(job, d2, stageName, pos) == Lookup(job, d, stageName, pos)
  {
    // No stage is called "\0" + stageName, so the append is one for somebody else.
    var nobody := ['\0'] + stageName;
    assert nobody != stageName by { assert |nobody| != |stageName|; }
    assert AppendsFor(d, d2, nobody);
    OtherStagesUnaffected(job, d, d2, nobody, stageName, pos);
  }

  lemma SettledSilently(job: Job, d: Records, d2: Records, i: nat)
    requires i < |job.stages| && Silent(d, d2) && Replay(job, d2, i) == Replay(job, d, i)
    ensures Settled(job, d2, i) == Settled(job, d, i)
  {
    if Replay(job, d, i).Some? {
      SilentLookup(job, d, d2, job.stages[i], Replay(job, d, i).value);
    }
  }

  lemma SilentStaysAt(job: Job, d: Records, d2: Records, i: nat)
    requires i < |job.stages| && Silent(d, d2) && ReplayAlikeTo(job, d, d2, i)
    ensures ReplayAlikeTo(job, d, d2, i + 1)
  {
    SettledSilently(job, d, d2, i);
    ReplayGoesOn(job, d, d2, i);
  }

  lemma {:induction false} SilentReplay(job: Job, d: Records, d2: Records, i: nat)
    requires i <= |job.stages| && Silent(d, d2)
    ensures ReplayAlikeTo(job, d, d2, i)
  {
    if i > 0 {
      SilentReplay(job, d, d2, i - 1);
      SilentStaysAt(job, d, d2, i - 1);
    }
  }

  /** Notes and failed receipts change no lookup. */
  lemma SilentStays(job: Job, d: Records, d2: Records, i: nat)
    requires i < |job.stages| && Silent(d, d2)
    ensures Replay(job, d2, i) == Replay(job, d, i)
    ensures Settled(job, d2, i) == Settled(job, d, i)
  {
    SilentReplay(job, d, d2, i);
    SettledSilently(job, d, d2, i);
  }

  // ------------------------------------------------------------- history

  /** What one job's sessions did, in order: runner calls, and stages passed with a verified receipt. */
  datatype Entry =
    | Called(index: nat, stageKey: StageKey, attempt: nat)
    | Passed(index: nat, stageKey: StageKey)

  /** Once a stage has been passed it is only ever passed again, under the same key. */
  ghost predicate NeverRepeats(h: seq<Entry>) {
    forall a, b | 0 <= a < b < |h| :: OnlyPassedAgain(h, a, b)
  }

  predicate OnlyPassedAgain(h: seq<Entry>, a: nat, b: nat)
    requires a < |h| && b < |h|
  {
    h[a].Passed? && h[a].index == h[b].index ==> h[b].Passed? && h[b].stageKey == h[a].stageKey
  }

  /** Every entry speaks of a stage of the job, under a key of that stage. */
  ghost predicate Placed(job: Job, h: seq<Entry>) {
    forall x | x in h :: x.index < |job.stages| && x.stageKey.stageName == job.stages[x.index]
  }

  /** What was passed is still answered, and under the same key. */
  ghost predicate Remembered(job: Job, d: Records, h: seq<Entry>) {
    Placed(job, h) &&
    forall x | x in h && x.Passed? ::
      Settled(job, d, x.index).Some? && Settled(job, d, x.index).value.stageKey == x.stageKey
  }

  /** Two attempts started under one stage key never share a number. */
  ghost predicate AttemptsIncrease(events: seq<JobEvent>) {
    forall a, b | 0 <= a < b < |events| :: StartedInOrder(events, a, b)
  }

  predicate StartedInOrder(events: seq<JobEvent>, a: nat, b: nat)
    requires a < |events| && b < |events|
  {
    && events[a].StageStarted? && events[b].StageStarted?
    && events[a].stageName == events[b].stageName && events[a].stageKey == events[b].stageKey
    ==> events[a].attempt < events[b].attempt
  }

  ghost predicate ForksUnique(events: seq<JobEvent>) {
    forall a, b | 0 <= a < b < |events| :: ForkedApart(events, a, b)
  }

  predicate ForkedApart(events: seq<JobEvent>, a: nat, b: nat)
    requires a < |events| && b < |events|
  {
    events[a].ManifestForked? && events[b].ManifestForked? ==>
      !(events[a].source == events[b].source && events[a].nextStage == events[b].nextStage
        && events[a].reason == events[b].reason)
  }

  /** No two successes share a key. */
  ghost predicate SuccessesApart(receipts: seq<StageReceipt>) {
    forall a, b | 0 <= a < b < |receipts| :: SucceededApart(receipts, a, b)
  }

  ghost predicate OutputsKept(receipts: seq<StageReceipt>) {
    forall r | r in receipts && r.succeeded :: r.outputs != []
  }

  predicate SucceededApart(receipts: seq<StageReceipt>, a: nat, b: nat)
    requires a < |receipts| && b < |receipts|
  {
    receipts[a].succeeded && receipts[b].succeeded ==> receipts[a].stageKey != receipts[b].stageKey
  }

  /** A revision-zero snapshot, published under its own name, of the manifest with this digest. */
  predicate IsSnapshotOf(fork: ArtifactRef, source: Digest) {
    && IsForkSnapshot(fork) && fork == PublishedRef(fork.digest.manifest)
    && fork.digest.manifest.forkedFrom.value.digest == source
  }

  lemma {:induction false} RecordedIsThere(events: seq<JobEvent>, source: Digest, nextStage: Option<string>,
                                           reason: ForkReason)
    ensures var fork := RecordedFork(events, source, nextStage, reason);
            fork.Some? ==> ManifestForked(source, nextStage, reason, fork.value) in events
  {
    if events != [] {
      RecordedIsThere(events[..|events| - 1], source, nextStage, reason);
    }
  }

  ghost predicate ForksAreSnapshots(events: seq<JobEvent>) {
    forall e | e in events && e.ManifestForked? :: IsSnapshotOf(e.fork, e.source)
  }

  ghost predicate EventsSound(events: seq<JobEvent>) {
    AttemptsIncrease(events) && ForksUnique(events) && ForksAreSnapshots(events)
  }

  /** The history agrees with what the records answer. */
  ghost predicate Coherent(job: Job, d: Records, h: seq<Entry>) {
    NeverRepeats(h) && Remembered(job, d, h) && OutputsKept(d.receipts)
  }

  /** The runner calls of a history, as the events that announce them. */
  function Calls(h: seq<Entry>): seq<JobEvent> {
    if h == [] then []
    else
      var x := h[|h| - 1];
      Calls(h[..|h| - 1]) + (if x.Called? then [StageStarted(x.stageKey.stageName, x.stageKey, x.attempt)] else [])
  }

  function Starts(events: seq<JobEvent>): seq<JobEvent> {
    if events == [] then []
    else
      var e := events[|events| - 1];
      Starts(events[..|events| - 1]) + (if e.StageStarted? then [e] else [])
  }

  function PassedKeys(h: seq<Entry>): set<StageKey> {
    if h == [] then {}
    else
      var x := h[|h| - 1];
      PassedKeys(h[..|h| - 1]) + (if x.Passed? then {x.stageKey} else {})
  }

  function SuccessKeys(receipts: seq<StageReceipt>): set<StageKey> {
    if receipts == [] then {}
    else
      var r := receipts[|receipts| - 1];
      SuccessKeys(receipts[..|receipts| - 1]) + (if r.succeeded then {r.stageKey} else {})
  }

  /** The history is the one the records tell: its calls are the announced starts, its passes the recorded successes. */
  ghost predicate Traced(d: Records, h: seq<Entry>) {
    Calls(h) == Starts(d.events) && PassedKeys(h) == SuccessKeys(d.receipts)
  }

  /** What the records of every job keep. */
  ghost predicate Lawful(job: Job, d: Records, h: seq<Entry>) {
    Placed(job, h) && EventsSound(d.events) && SuccessesApart(d.receipts) && Traced(d, h)
  }

  /** What they keep, and what the history of a job that starts with the build keeps besides. */
  ghost predicate Sound(job: Job, d: Records, h: seq<Entry>) {
    Lawful(job, d, h) && (StartsWithBuild(job) ==> Coherent(job, d, h))
  }

  lemma NoReceiptMeansNone(receipts: seq<StageReceipt>, key: StageKey)
    requires ReceiptFor(receipts, key).None?
    ensures forall r | r in receipts :: !(r.succeeded && r.stageKey == key)
  {
    if receipts != [] {
      var n := |receipts| - 1;
      NoReceiptMeansNone(receipts[..n], key);
      forall r | r in receipts ensures !(r.succeeded && r.stageKey == key) {
        assert r == receipts[n] || r in receipts[..n];
      }
    }
  }

  lemma HistoryAppend(h: seq<Entry>, x: Entry)
    ensures Calls(h + [x]) ==
              Calls(h) + (if x.Called? then [StageStarted(x.stageKey.stageName, x.stageKey, x.attempt)] else [])
    ensures PassedKeys(h + [x]) == PassedKeys(h) + (if x.Passed? then {x.stageKey} else {})
  {
    assert (h + [x])[..|h|] == h;
  }

  lemma StartsAppend(events: seq<JobEvent>, e: JobEvent)
    ensures Starts(events + [e]) == Starts(events) + (if e.StageStarted? then [e] else [])
  {
    assert (events + [e])[..|events|] == events;
  }

  lemma SuccessAppend(receipts: seq<StageReceipt>, r: StageReceipt)
    ensures SuccessKeys(receipts + [r]) == SuccessKeys(receipts) + (if r.succeeded then {r.stageKey} else {})
  {
    assert (receipts + [r])[..|receipts|] == receipts;
  }

  lemma {:induction false} FoundIsSuccess(receipts: seq<StageReceipt>, key: StageKey)
    ensures ReceiptFor(receipts, key).Some? <==> key in SuccessKeys(receipts)
  {
    if receipts != [] {
      FoundIsSuccess(receipts[..|receipts| - 1], key);
    }
  }

  /** A start is announced and called. */
  lemma StartIsTraced(d: Records, h: seq<Entry>, key: StageKey, attempt: nat, index: nat)
    requires Traced(d, h)
    ensures Traced(d.(events := d.events + [StageStarted(key.stageName, key, attempt)]), h + [Called(index, key, attempt)])
  {
    HistoryAppend(h, Called(index, key, attempt));
    StartsAppend(d.events, StageStarted(key.stageName, key, attempt));
  }

  lemma PassIsTraced(d: Records, h: seq<Entry>, key: StageKey, index: nat)
    requires Traced(d, h) && ReceiptFor(d.receipts, key).Some?
    ensures Traced(d, h + [Passed(index, key)])
  {
    HistoryAppend(h, Passed(index, key));
    FoundIsSuccess(d.receipts, key);
    assert PassedKeys(h) + {key} == PassedKeys(h);
  }

  /** Other notes leave no trace. */
  lemma NoteIsTraced(d: Records, h: seq<Entry>, e: JobEvent)
    requires Traced(d, h) && !e.StageStarted?
    ensures Traced(d.(events := d.events + [e]), h)
  {
    StartsAppend(d.events, e);
  }

  lemma FailureIsTraced(d: Records, h: seq<Entry>, r: StageReceipt)
    requires Traced(d, h) && !r.succeeded
    ensures Traced(d.(receipts := d.receipts + [r]), h)
  {
    SuccessAppend(d.receipts, r);
  }

  /** A success is recorded and passed. */
  lemma SuccessIsTraced(d: Records, h: seq<Entry>, index: nat, r: StageReceipt)
    requires Traced(d, h) && r.succeeded
    ensures Traced(d.(receipts := d.receipts + [r]), h + [Passed(index, r.stageKey)])
  {
    HistoryAppend(h, Passed(index, r.stageKey));
    SuccessAppend(d.receipts, r);
  }

  /** `d2` leads to every stage up to `n` as `d` does, and answers what comes before it as `d` does. */
  ghost predicate LeadsAlike(job: Job, d: Records, d2: Records, n: nat)
    requires n <= |job.stages|
  {
    && (forall k | 0 <= k <= n :: Replay(job, d2, k) == Replay(job, d, k))
    && (forall k | 0 <= k < n :: Settled(job, d2, k) == Settled(job, d, k))
  }

  lemma SilentKeepsCoherent(job: Job, d: Records, d2: Records, h: seq<Entry>)
    requires Coherent(job, d, h) && Silent(d, d2) && OutputsKept(d2.receipts)
    ensures Coherent(job, d2, h) && LeadsAlike(job, d, d2, |job.stages|)
  {
    forall i | 0 <= i < |job.stages|
      ensures Settled(job, d2, i) == Settled(job, d, i) && Replay(job, d2, i) == Replay(job, d, i)
    {
      SilentStays(job, d, d2, i);
    }
    assert Replay(job, d2, |job.stages|) == Replay(job, d, |job.stages|);
  }

  /** Appending for the unsettled stage `j` keeps everything before it and the whole history. */
  lemma AppendKeepsCoherent(job: Job, d: Records, d2: Records, h: seq<Entry>, j: nat)
    requires StartsWithBuild(job) && Coherent(job, d, h)
    requires j < |job.stages| && Settled(job, d, j).None? && AppendsFor(d, d2, job.stages[j])
    requires OutputsKept(d2.receipts)
    ensures Coherent(job, d2, h) && LeadsAlike(job, d, d2, j)
  {
    forall i | 0 <= i < |job.stages|
      ensures i <= j ==> Replay(job, d2, i) == Replay(job, d, i)
      ensures i < j ==> Settled(job, d2, i) == Settled(job, d, i)
      ensures Settled(job, d, i).Some? ==> Settled(job, d2, i) == Settled(job, d, i)
    {
      SettledStays(job, d, d2, j, i);
    }
  }

  lemma HistoryGrows(h: seq<Entry>, x: Entry)
    requires NeverRepeats(h)
    requires forall y | y in h && y.Passed? && y.index == x.index :: x.Passed? && x.stageKey == y.stageKey
    ensures NeverRepeats(h + [x])
  {
    forall a, b | 0 <= a < b < |h + [x]| ensures OnlyPassedAgain(h + [x], a, b) {
      assert b < |h| ==> OnlyPassedAgain(h, a, b);
      assert h[a] in h;
    }
  }

  lemma PassKeepsCoherent(job: Job, d: Records, h: seq<Entry>, j: nat)
    requires Coherent(job, d, h) && j < |job.stages| && Settled(job, d, j).Some?
    ensures Coherent(job, d, h + [Passed(j, Settled(job, d, j).value.stageKey)])
  {
    HistoryGrows(h, Passed(j, Settled(job, d, j).value.stageKey));
  }

  lemma PassKeepsSound(job: Job, d: Records, h: seq<Entry>, j: nat, key: StageKey)
    requires Sound(job, d, h) && j < |job.stages| && key.stageName == job.stages[j] && ReceiptFor(d.receipts, key).Some?
    requires StartsWithBuild(job) ==> Settled(job, d, j).Some? && Settled(job, d, j).value.stageKey == key
    ensures Sound(job, d, h + [Passed(j, key)])
  {
    PassIsTraced(d, h, key, j);
    if StartsWithBuild(job) {
      PassKeepsCoherent(job, d, h, j);
    }
  }

  lemma StartIsNumbered(d: Records, stageName: string, key: StageKey, attempt: nat)
    requires EventsSound(d.events) && forall a: nat | Used(d, stageName, key, a) :: a < attempt
    ensures EventsSound(d.events + [StageStarted(stageName, key, attempt)])
  {
    var events := d.events + [StageStarted(stageName, key, attempt)];
    forall a, b | 0 <= a < b < |events| ensures StartedInOrder(events, a, b) && ForkedApart(events, a, b) {
      assert b < |d.events| ==> StartedInOrder(d.events, a, b) && ForkedApart(d.events, a, b);
      if d.events[a].StageStarted? && d.events[a].stageName == stageName && d.events[a].stageKey == key {
        assert Used(d, stageName, key, d.events[a].attempt);
      }
    }
  }

  /** A note that is no start, and no fork unless it is the first record of a snapshot. */
  lemma NoteIsSound(events: seq<JobEvent>, e: JobEvent)
    requires EventsSound(events) && !e.StageStarted?
    requires e.ManifestForked? ==> RecordedFork(events, e.source, e.nextStage, e.reason).None? && IsSnapshotOf(e.fork, e.source)
    ensures EventsSound(events + [e])
  {
    var more := events + [e];
    forall a, b | 0 <= a < b < |more| ensures StartedInOrder(more, a, b) && ForkedApart(more, a, b) {
      assert b < |events| ==> StartedInOrder(events, a, b) && ForkedApart(events, a, b);
      assert events[a] in events;
    }
  }

  /** Announcing an attempt number nobody used, for a stage no record answers. */
  lemma StartKeepsSound(job: Job, d: Records, h: seq<Entry>, j: nat, key: StageKey, attempt: nat)
    requires Sound(job, d, h) && j < |job.stages| && key.stageName == job.stages[j]
    requires StartsWithBuild(job) ==> Settled(job, d, j).None?
    requires forall a: nat | Used(d, key.stageName, key, a) :: a < attempt
    ensures var d2 := d.(events := d.events + [StageStarted(key.stageName, key, attempt)]);
            && Sound(job, d2, h + [Called(j, key, attempt)])
            && (StartsWithBuild(job) ==> LeadsAlike(job, d, d2, |job.stages|))
  {
    var e := StageStarted(key.stageName, key, attempt);
    StartIsNumbered(d, key.stageName, key, attempt);
    StartIsTraced(d, h, key, attempt, j);
    if StartsWithBuild(job) {
      StartKeepsCoherent(job, d, h, j, key, attempt);
    }
  }

  lemma StartKeepsCoherent(job: Job, d: Records, h: seq<Entry>, j: nat, key: StageKey, attempt: nat)
    requires Coherent(job, d, h) && j < |job.stages| && Settled(job, d, j).None? && key.stageName == job.stages[j]
    ensures var d2 := d.(events := d.events + [StageStarted(key.stageName, key, attempt)]);
            Coherent(job, d2, h + [Called(j, key, attempt)]) && LeadsAlike(job, d, d2, |job.stages|)
  {
    var d2 := d.(events := d.events + [StageStarted(key.stageName, key, attempt)]);
    assert Silent(d, d2);
    SilentKeepsCoherent(job, d, d2, h);
    CallKeepsCoherent(job, d2, h, j, key, attempt);
  }

  lemma CallKeepsCoherent(job: Job, d: Records, h: seq<Entry>, j: nat, key: StageKey, attempt: nat)
    requires Coherent(job, d, h) && j < |job.stages| && Settled(job, d, j).None? && key.stageName == job.stages[j]
    ensures Coherent(job, d, h + [Called(j, key, attempt)])
  {
    HistoryGrows(h, Called(j, key, attempt));
  }

  lemma NewKeyIsApart(receipts: seq<StageReceipt>, r: StageReceipt)
    requires SuccessesApart(receipts) && (r.succeeded ==> ReceiptFor(receipts, r.stageKey).None?)
    ensures SuccessesApart(receipts + [r])
  {
    if r.succeeded {
      NoReceiptMeansNone(receipts, r.stageKey);
    }
    var more := receipts + [r];
    forall a, b | 0 <= a < b < |more| ensures SucceededApart(more, a, b) {
      assert b < |receipts| ==> SucceededApart(receipts, a, b);
      assert receipts[a] in receipts;
    }
  }

  lemma SuccessKeepsCoherent(job: Job, d: Records, h: seq<Entry>, j: nat, r: StageReceipt)
    requires StartsWithBuild(job) && Coherent(job, d, h) && j < |job.stages| && Settled(job, d, j).None?
    requires r.succeeded && r.outputs != [] && r.stageKey.stageName == job.stages[j]
    ensures var d2 := d.(receipts := d.receipts + [r]); Coherent(job, d2, h) && LeadsAlike(job, d, d2, j)
  {
    var d2 := d.(receipts := d.receipts + [r]);
    assert AppendsFor(d, d2, job.stages[j]);
    AppendKeepsCoherent(job, d, d2, h, j);
  }

  /** A stage nobody has answered, asked for from `pos`, that may run under this key. */
  ghost predicate MayRun(job: Job, d: Records, j: nat, pos: Position, key: StageKey)
    requires j < |job.stages|
  {
    && Settled(job, d, j).None? && Asks(job, d, j, pos) && RunsUnder(job, d, job.stages[j], pos, key)
    && ReceiptFor(d.receipts, key).None?
  }

  /** A success recorded under a key its stage may run under answers the stage from then on. */
  lemma SuccessAnswers(job: Job, d: Records, h: seq<Entry>, j: nat, pos: Position, r: StageReceipt)
    requires StartsWithBuild(job) && Coherent(job, d, h) && j < |job.stages| && MayRun(job, d, j, pos, r.stageKey)
    requires r.succeeded && r.outputs != []
    ensures var d2 := d.(receipts := d.receipts + [r]);
            && Coherent(job, d2, h + [Passed(j, r.stageKey)]) && Asks(job, d2, j, pos)
            && Settled(job, d2, j).Some? && Settled(job, d2, j).value.stageKey == r.stageKey
            && Settled(job, d2, j).value.receipt == r
  {
    var d2 := d.(receipts := d.receipts + [r]);
    SuccessKeepsCoherent(job, d, h, j, r);
    AskedIsSettled(job, d2, j, pos);
    ReceiptIsFound(job, d, job.stages[j], pos, r.stageKey, r);
    PassKeepsCoherent(job, d2, h, j);
  }

  /** Recording a success nobody had recorded keeps the records of every job sound. */
  lemma SuccessKeepsSound(job: Job, d: Records, h: seq<Entry>, j: nat, pos: Position, r: StageReceipt)
    requires Sound(job, d, h) && j < |job.stages| && r.succeeded && r.stageKey.stageName == job.stages[j]
    requires ReceiptFor(d.receipts, r.stageKey).None?
    requires StartsWithBuild(job) ==> MayRun(job, d, j, pos, r.stageKey) && r.outputs != []
    ensures Sound(job, d.(receipts := d.receipts + [r]), h + [Passed(j, r.stageKey)])
  {
    NewKeyIsApart(d.receipts, r);
    SuccessIsTraced(d, h, j, r);
    if StartsWithBuild(job) {
      SuccessAnswers(job, d, h, j, pos, r);
    }
  }

  /** The first stage asks for the build key, which no manifest in hand can change. */
  lemma BuildLookup(job: Job, d: Records, manifest: Option<ArtifactRef>)
    ensures Lookup(job, d, BUILD, Position(manifest, false)) == Lookup(job, d, BUILD, Position(None, false))
  {
  }

  /** `pos` is what a session holds when it asks the records about stage `i`. */
  ghost predicate Asks(job: Job, d: Records, i: nat, pos: Position)
    requires i <= |job.stages|
  {
    if i == 0 then !pos.pendingFork else Replay(job, d, i) == Some(pos)
  }

  lemma AskedIsSettled(job: Job, d: Records, i: nat, pos: Position)
    requires i < |job.stages| && job.stages[0] == BUILD && Asks(job, d, i, pos)
    ensures Settled(job, d, i) == Lookup(job, d, job.stages[i], pos)
  {
    if i == 0 {
      BuildLookup(job, d, pos.manifest);
    }
  }

  ghost predicate Unanswered(job: Job, d: Records, key: Option<StageKey>) {
    key.Some? && ReceiptFor(d.receipts, key.value).None? && ReceiptFor(job.parentReceipts, key.value).None?
  }

  /** The keys a session may run the stage under: the first one it asked for, or the recorded fork's. */
  ghost predicate RunsUnder(job: Job, d: Records, stageName: string, pos: Position, key: StageKey) {
    || KeyFor(job.keys, stageName, pos.manifest) == Some(key)
    || (pos.pendingFork && pos.manifest.Some? && Unanswered(job, d, KeyFor(job.keys, stageName, pos.manifest))
        && KeyFor(job.keys, stageName, ForkInRecords(d, pos.manifest.value, stageName)) == Some(key)
        && ForkInRecords(d, pos.manifest.value, stageName).Some?)
  }

  /** A receipt recorded under such a key is the one every later session finds. */
  lemma ReceiptIsFound(job: Job, d: Records, stageName: string, pos: Position, key: StageKey, r: StageReceipt)
    requires RunsUnder(job, d, stageName, pos, key) && ReceiptFor(d.receipts, key).None?
    requires r.succeeded && r.stageKey == key
    ensures var s := Lookup(job, d.(receipts := d.receipts + [r]), stageName, pos);
            s.Some? && s.value.stageKey == key && s.value.receipt == r
  {
    ReceiptForAppend(d.receipts, r, key);
    var first := KeyFor(job.keys, stageName, pos.manifest);
    if first.Some? {
      ReceiptForAppend(d.receipts, r, first.value);
    }
  }

  lemma StartedKeepsRunsUnder(job: Job, d: Records, d2: Records, stageName: string, pos: Position, key: StageKey)
    requires RunsUnder(job, d, stageName, pos, key)
    requires d2.receipts == d.receipts && |d2.events| == |d.events| + 1
    requires d.events <= d2.events && d2.events[|d.events|].StageStarted?
    ensures RunsUnder(job, d2, stageName, pos, key)
  {
    var e := d2.events[|d.events|];
    assert d2.events == d.events + [e];
    if pos.manifest.Some? {
      RecordedForkAppend(d.events, e, pos.manifest.value.digest, Some(stageName), BeforeStage);
    }
  }

  /** Once a run's receipt is recorded, the records answer the stage with it and lead on with its last output. */
  lemma RecordedIsSettled(job: Job, d: Records, i: nat, pos: Position, r: StageReceipt)
    requires i < |job.stages| && job.stages[0] == BUILD
    requires RunsUnder(job, d, job.stages[i], pos, r.stageKey) && ReceiptFor(d.receipts, r.stageKey).None?
    requires r.succeeded && r.outputs != [] && !r.reusedFromParent
    requires Asks(job, d.(receipts := d.receipts + [r]), i, pos)
    ensures var d2 := d.(receipts := d.receipts + [r]);
            && Settled(job, d2, i).Some? && Settled(job, d2, i).value.stageKey == r.stageKey
            && Replay(job, d2, i + 1) == Some(Position(Some(r.outputs[|r.outputs| - 1]), false))
  {
    ReceiptIsFound(job, d, job.stages[i], pos, r.stageKey, r);
    AskedIsSettled(job, d.(receipts := d.receipts + [r]), i, pos);
  }

  /** The receipt copied from the parent job is found under the very key it was looked up with. */
  lemma ReuseIsSettled(job: Job, d: Records, i: nat, pos: Position, r: StageReceipt)
    requires i < |job.stages| && job.stages[0] == BUILD
    requires KeyFor(job.keys, job.stages[i], pos.manifest) == Some(r.stageKey) && ReceiptFor(d.receipts, r.stageKey).None?
    requires r.succeeded
    requires Asks(job, d.(receipts := d.receipts + [r]), i, pos)
    ensures Settled(job, d.(receipts := d.receipts + [r]), i) == Some(Settlement(r.stageKey, r, false))
  {
    ReceiptForAppend(d.receipts, r, r.stageKey);
    AskedIsSettled(job, d.(receipts := d.receipts + [r]), i, pos);
  }

  /** With no direct answer and a fork due, the records answer exactly through the recorded fork. */
  lemma ForkDecides(job: Job, d: Records, i: nat, m: ArtifactRef, fork: Option<ArtifactRef>)
    requires i < |job.stages| && job.stages[0] == BUILD
    requires Asks(job, d, i, Position(Some(m), true))
    requires Unanswered(job, d, KeyFor(job.keys, job.stages[i], Some(m)))
    requires ForkInRecords(d, m, job.stages[i]) == fork
    ensures fork.None? ==> Settled(job, d, i).None?
    ensures fork.Some? ==>
              var key := KeyFor(job.keys, job.stages[i], fork);
              && (key.Some? && ReceiptFor(d.receipts, key.value).Some? ==>
                    Settled(job, d, i) == Some(Settlement(key.value, ReceiptFor(d.receipts, key.value).value, true)))
              && (key.None? || ReceiptFor(d.receipts, key.value).None? ==> Settled(job, d, i).None?)
              && (key.Some? ==> RunsUnder(job, d, job.stages[i], Position(Some(m), true), key.value))
  {
    AskedIsSettled(job, d, i, Position(Some(m), true));
  }

  lemma AnswerLeads(job: Job, d: Records, i: nat)
    requires i < |job.stages| && Settled(job, d, i).Some? && Settled(job, d, i).value.receipt.outputs != []
    ensures Replay(job, d, i + 1) == Some(Advance(Settled(job, d, i).value))
  {
  }

  /** A replay that reaches stage `n` has answered every stage before it. */
  lemma {:induction false} EarlierSettled(job: Job, d: Records, n: nat)
    requires n <= |job.stages| && Replay(job, d, n).Some?
    ensures forall i | 0 <= i < n :: Settled(job, d, i).Some?
  {
    if n > 0 {
      EarlierSettled(job, d, n - 1);
    }
  }

  /** No key is handed to the runner again once a verified receipt has answered it. */
  lemma PassedKeysAreNotCalled(job: Job, d: Records, h: seq<Entry>, a: nat, b: nat)
    requires StartsWithBuild(job) && Sound(job, d, h)
    requires a < b < |h| && h[a].Passed? && h[b].stageKey == h[a].stageKey
    ensures h[b].Passed?
  {
    assert h[a] in h && h[b] in h && OnlyPassedAgain(h, a, b);
  }

  // ------------------------------------------------- forks and second lookups

  /** With snapshots recorded for what they are, a recorded fork re-keys a stage exactly for a fork of a fork. */
  lemma RecordedForkKeepsKeys(job: Job, d: Records, stageName: string, manifest: ArtifactRef, fork: ArtifactRef)
    requires ForksAreSnapshots(d.events) && IsRunManifest(manifest) && KeyIdentity(manifest).Some?
    requires RecordedFork(d.events, manifest.digest, Some(stageName), BeforeStage) == Some(fork)
    requires KeyIdentity(fork).Some?
    ensures KeyFor(job.keys, stageName, Some(fork)) == KeyFor(job.keys, stageName, Some(manifest)) <==>
              stageName == BUILD || !IsForkSnapshot(manifest)
  {
    RecordedIsThere(d.events, manifest.digest, Some(stageName), BeforeStage);
    assert KeyIdentity(fork) == Some(manifest.digest);
    if IsForkSnapshot(manifest) {
      var origin := manifest.digest.manifest.forkedFrom.value;
      assert origin < manifest.digest.manifest.forkedFrom;
      assert manifest.digest.manifest.forkedFrom < manifest.digest.manifest;
      assert origin.digest != manifest.digest;
    }
    KeysAgree(job.keys, stageName, fork, manifest);
  }

  /** Only the fork of a fork can make the lookup after it find a receipt that the lookup before it missed. */
  ghost predicate RelookupFindsNothingNew(job: Job, d: Records) {
    forall stageName, pos: Position ::
      var s := Lookup(job, d, stageName, pos);
      s.Some? && s.value.viaFork ==> pos.manifest.Some? && IsForkSnapshot(pos.manifest.value)
  }

  lemma SnapshotsRelookup(job: Job, d: Records)
    requires ForksAreSnapshots(d.events)
    ensures RelookupFindsNothingNew(job, d)
  {
    forall stageName, pos: Position | Lookup(job, d, stageName, pos).Some? && Lookup(job, d, stageName, pos).value.viaFork
      ensures pos.manifest.Some? && IsForkSnapshot(pos.manifest.value)
    {
      var m := pos.manifest.value;
      var fork := ForkInRecords(d, m, stageName);
      if !IsForkSnapshot(m) && IsRunManifest(m) && KeyIdentity(m).Some? && KeyIdentity(fork.value).Some? {
        RecordedForkKeepsKeys(job, d, stageName, m, fork.value);
      }
    }
  }

  // ------------------------------------------------------- the first stage

  /**
   Why the build has to come first. A receipt recorded for a stage that was asked with `asked` in hand is found by a
   session that holds `later` exactly when the stage is the build or both manifests have one identity.
   */
  lemma FoundAgainExactlyWhen(job: Job, d: Records, stageName: string, asked: Option<ArtifactRef>,
                              later: Option<ArtifactRef>, r: StageReceipt)
    requires KeyFor(job.keys, stageName, asked) == Some(r.stageKey)
    requires r.succeeded && ReceiptFor(d.receipts, r.stageKey).None?
    ensures Lookup(job, d.(receipts := d.receipts + [r]), stageName, Position(later, false))
            == Some(Settlement(r.stageKey, r, false))
            <==> stageName == BUILD || SameInput(asked, later)
  {
    ReceiptForAppend(d.receipts, r, r.stageKey);
    var key := KeyFor(job.keys, stageName, later);
    if key.Some? {
      ReceiptForAppend(d.receipts, r, key.value);
    }
  }
}
