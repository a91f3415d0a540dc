/**
 What a session does at one stage when nothing interrupts it, as a function of what it holds and finds. The worker's
 methods are proved to compute `Turn` and `Turns`, for every job.
 */
module WorkerTurns {
  import opened Common
  import opened Contracts
  import opened StageKeys
  import opened Worker

  /** What a session changes: the records, the manifest field of the state record, and what it drew from outside. */
  datatype Desk = Desk(d: Records, field: Option<ArtifactRef>, answers: nat, freshRun: nat, log: seq<Entry>)

  datatype Turned = Turned(desk: Desk, pos: Position)

  datatype ForkTurned = ForkTurned(desk: Desk, fork: ArtifactRef)

  // -------------------------------------------------------- attempt numbers

  /** One more than the highest attempt the manifest's own stages record; None when it holds no manifest. */
  function ManifestAttemptFloor(manifest: Option<ArtifactRef>, stageName: string): Option<nat> {
    if manifest.None? || !IsRunManifest(manifest.value) then Some(1)
    else if !manifest.value.digest.OfManifest? then None
    else Some(1 + HighestAttempt(manifest.value.digest.manifest.stages, stageName))
  }

  function HighestAttempt(stages: seq<StageRecord>, stageName: string): nat {
    if stages == [] then 0
    else
      var earlier := HighestAttempt(stages[..|stages| - 1], stageName);
      var last := stages[|stages| - 1];
      if last.name == stageName && earlier < last.attempt then last.attempt else earlier
  }

  function HighestReceipt(receipts: seq<StageReceipt>, stageName: string, key: StageKey): nat {
    if receipts == [] then 0
    else
      var earlier := HighestReceipt(receipts[..|receipts| - 1], stageName, key);
      var last := receipts[|receipts| - 1];
      if last.stageName == stageName && last.stageKey == key && earlier < last.attempt then last.attempt else earlier
  }

  function HighestStart(events: seq<JobEvent>, stageName: string, key: StageKey): nat {
    if events == [] then 0
    else
      var earlier := HighestStart(events[..|events| - 1], stageName, key);
      var last := events[|events| - 1];
      if last.StageStarted? && last.stageName == stageName && last.stageKey == key && earlier < last.attempt
      then last.attempt else earlier
  }

  function NextNumber(d: Records, stageName: string, key: StageKey): nat {
    1 + Larger(HighestReceipt(d.receipts, stageName, key), HighestStart(d.events, stageName, key))
  }

  function Larger(a: nat, b: nat): nat {
    if a < b then b else a
  }

  lemma {:induction false} ReceiptsBelow(receipts: seq<StageReceipt>, stageName: string, key: StageKey)
    ensures forall r | r in receipts && r.stageName == stageName && r.stageKey == key ::
              r.attempt <= HighestReceipt(receipts, stageName, key)
    ensures HighestReceipt(receipts, stageName, key) > 0 ==>
              exists r | r in receipts :: r.stageName == stageName && r.stageKey == key
                                          && r.attempt == HighestReceipt(receipts, stageName, key)
  {
    if receipts != [] {
      var n := |receipts| - 1;
      ReceiptsBelow(receipts[..n], stageName, key);
      assert forall r | r in receipts :: r == receipts[n] || r in receipts[..n];
      assert receipts[n] in receipts;
    }
  }

  lemma {:induction false} StartsBelow(events: seq<JobEvent>, stageName: string, key: StageKey)
    ensures forall a: nat | StageStarted(stageName, key, a) in events :: a <= HighestStart(events, stageName, key)
    ensures HighestStart(events, stageName, key) > 0 ==>
              StageStarted(stageName, key, HighestStart(events, stageName, key)) in events
  {
    if events != [] {
      var n := |events| - 1;
      StartsBelow(events[..n], stageName, key);
      assert forall e | e in events :: e == events[n] || e in events[..n];
      assert events[n] in events;
    }
  }

  /** The next number is the least one above every attempt seen. */
  lemma NextNumberIsNext(d: Records, stageName: string, key: StageKey)
    ensures forall a: nat | Used(d, stageName, key, a) :: a < NextNumber(d, stageName, key)
    ensures NextNumber(d, stageName, key) > 1 ==> Used(d, stageName, key, NextNumber(d, stageName, key) - 1)
  {
    ReceiptsBelow(d.receipts, stageName, key);
    StartsBelow(d.events, stageName, key);
  }

  // ------------------------------------------------------- single effects

  function Answered(desk: Desk): Desk {
    desk.(answers := desk.answers + 1)
  }

  function Fresh(desk: Desk): Desk {
    desk.(freshRun := desk.freshRun + 1)
  }

  function Holding(desk: Desk, m: ArtifactRef): Desk {
    desk.(field := Some(m))
  }

  function Noting(desk: Desk, e: JobEvent): Desk {
    desk.(d := desk.d.(events := desk.d.events + [e]))
  }

  function Announced(desk: Desk, i: nat, key: StageKey, attempt: nat): Desk {
    Noting(desk, StageStarted(key.stageName, key, attempt)).(log := desk.log + [Called(i, key, attempt)])
  }

  function PassedBy(desk: Desk, i: nat, key: StageKey): Desk {
    desk.(log := desk.log + [Passed(i, key)])
  }

  function Recorded(desk: Desk, i: nat, r: StageReceipt): Desk {
    PassedBy(desk.(d := desk.d.(receipts := desk.d.receipts + [r])), i, r.stageKey)
  }

  // ------------------------------------------------------------------ turns

  /** The build spec a fork carries. */
  function ForkSpec(job: Job, source: RunManifest): string {
    if job.effectiveSpec.Some? then job.effectiveSpec.value else source.buildSpec
  }

  /** The fork of a manifest under the run `freshRun`, which also stands for the time. */
  function ForkOf(job: Job, source: ArtifactRef, freshRun: nat): (fork: ArtifactRef)
    requires source.digest.OfManifest?
    ensures IsSnapshotOf(fork, source.digest)
  {
    PublishedRef(Snapshot(source, freshRun, ForkSpec(job, source.digest.manifest), freshRun))
  }

  /** A snapshot under a new run, and its note. */
  function Minted(job: Job, desk: Desk, source: ArtifactRef, nextStage: Option<string>, reason: ForkReason): ForkTurned
    requires source.digest.OfManifest?
  {
    var fork := ForkOf(job, source, desk.freshRun);
    ForkTurned(Noting(Fresh(desk), ManifestForked(source.digest, nextStage, reason, fork)), fork)
  }

  /** The fork the journal records, or else a new one. */
  function FoundOrMinted(job: Job, desk: Desk, source: ArtifactRef, nextStage: Option<string>, reason: ForkReason)
    : ForkTurned
    requires source.digest.OfManifest?
  {
    var recorded := RecordedFork(desk.d.events, source.digest, nextStage, reason);
    if recorded.Some? then ForkTurned(desk, recorded.value) else Minted(job, desk, source, nextStage, reason)
  }

  /** The snapshot a session takes of a production manifest, unless the journal records one; None where it fails. */
  function ForkTurn(job: Job, desk: Desk, source: ArtifactRef, nextStage: Option<string>, reason: ForkReason)
    : Option<ForkTurned>
  {
    if !IsRunManifest(source) then Some(ForkTurned(desk, source))
    else if job.forkFaults(desk.answers) || !source.digest.OfManifest? then None
    else Some(FoundOrMinted(job, Answered(desk), source, nextStage, reason))
  }

  /** Going on from a receipt: note the reuse and take its last output along. */
  function MoveOn(job: Job, desk: Desk, i: nat, s: Settlement, pos: Position): Turned
    requires i < |job.stages|
  {
    var noted := Noting(desk, StageReused(job.stages[i], s.stageKey));
    if s.receipt.outputs == [] then Turned(noted, pos)
    else Turned(Holding(noted, s.receipt.outputs[|s.receipt.outputs| - 1]), Advance(s))
  }

  function PassTurn(job: Job, desk: Desk, i: nat, s: Settlement, pos: Position): Turned
    requires i < |job.stages|
  {
    MoveOn(job, PassedBy(desk, i, s.stageKey), i, s, pos)
  }

  /** The manifest a running session goes on with. */
  function Produced(outcome: Outcome, m: Option<ArtifactRef>): Option<ArtifactRef>
    requires outcome.Success?
  {
    if outcome.manifest.Some? then outcome.manifest
    else if outcome.artifacts != [] then Some(outcome.artifacts[|outcome.artifacts| - 1])
    else m
  }

  function FinishTurn(desk: Desk, i: nat, m: Option<ArtifactRef>, key: StageKey, attempt: nat, outcome: Outcome): Turned
    requires outcome.Success?
  {
    var outputs := ReceiptOutputs(outcome.artifacts, outcome.manifest);
    var done := Recorded(desk, i, StageReceipt(key, key.stageName, attempt, true, outputs, false));
    Turned(if outcome.manifest.Some? then Holding(done, outcome.manifest.value) else done,
           Position(Produced(outcome, m), false))
  }

  function CallTurn(job: Job, desk: Desk, i: nat, m: Option<ArtifactRef>, key: StageKey, floor: nat): Option<Turned> {
    var attempt := Larger(NextNumber(desk.d, key.stageName, key), floor);
    var outcome := job.runner(desk.answers, key.stageName, m, attempt);
    if outcome.Success?
    then Some(FinishTurn(Answered(Announced(desk, i, key, attempt)), i, m, key, attempt, outcome))
    else None
  }

  function RunTurn(job: Job, desk: Desk, i: nat, m: Option<ArtifactRef>, key: StageKey): Option<Turned> {
    var floor := ManifestAttemptFloor(m, key.stageName);
    if floor.None? then None else CallTurn(job, desk, i, m, key, floor.value)
  }

  function CopyTurn(job: Job, desk: Desk, i: nat, pos: Position, key: StageKey, parent: StageReceipt): Turned
    requires i < |job.stages|
  {
    var r := StageReceipt(key, parent.stageName, NextNumber(desk.d, key.stageName, key), true, parent.outputs, true);
    MoveOn(job, Recorded(desk, i, r), i, Settlement(key, r, false), pos)
  }

  function ForkRunTurn(job: Job, desk: Desk, i: nat, m: ArtifactRef): Option<Turned>
    requires i < |job.stages|
  {
    var forked := ForkTurn(job, desk, m, Some(job.stages[i]), BeforeStage);
    if forked.None? then None
    else ForkedTurn(job, Holding(forked.value.desk, forked.value.fork), i, forked.value.fork)
  }

  /** The second lookup, with the fork in hand. */
  function ForkedTurn(job: Job, desk: Desk, i: nat, fork: ArtifactRef): Option<Turned>
    requires i < |job.stages|
  {
    var key := KeyFor(job.keys, job.stages[i], Some(fork));
    if key.None? then None
    else
      var resumed := ReceiptFor(desk.d.receipts, key.value);
      if resumed.Some?
      then Some(PassTurn(job, desk, i, Settlement(key.value, resumed.value, true), Position(Some(fork), false)))
      else RunTurn(job, desk, i, Some(fork), key.value)
  }

  function AnswerTurn(job: Job, desk: Desk, i: nat, m: Option<ArtifactRef>, pendingFork: bool): Option<Turned>
    requires i < |job.stages|
  {
    var key := KeyFor(job.keys, job.stages[i], m);
    if key.None? then None
    else
      var own := ReceiptFor(desk.d.receipts, key.value);
      var parent := ReceiptFor(job.parentReceipts, key.value);
      var pos := Position(m, pendingFork);
      if own.Some? then Some(PassTurn(job, desk, i, Settlement(key.value, own.value, false), pos))
      else if parent.Some? then Some(CopyTurn(job, desk, i, pos, key.value, parent.value))
      else if pendingFork && m.Some? then ForkRunTurn(job, desk, i, m.value)
      else RunTurn(job, desk, i, m, key.value)
  }

  /** The first stage of a job that starts from a manifest: fork it, then answer the stage with the fork in hand. */
  function InitialTurn(job: Job, desk: Desk, source: ArtifactRef, pendingFork: bool): Option<Turned>
    requires job.stages != []
  {
    var forked := ForkTurn(job, desk, source, Some(job.stages[0]), InitialManifest);
    if forked.None? then None
    else AnswerTurn(job, Holding(forked.value.desk, forked.value.fork), 0, Some(forked.value.fork), pendingFork)
  }

  /** One turn of the stage loop; None when the session ends in it. */
  function Turn(job: Job, desk: Desk, i: nat, m: Option<ArtifactRef>, pendingFork: bool, initialPending: bool)
    : Option<Turned>
    requires i < |job.stages| && (initialPending ==> i == 0)
  {
    if job.cancelled(desk.answers) then None
    else if initialPending && m.Some? then InitialTurn(job, Answered(desk), m.value, pendingFork)
    else AnswerTurn(job, Answered(desk), i, m, pendingFork)
  }

  /** What a session holds when it opens: the committed manifest, or else the initial one. */
  function Opening(job: Job, desk: Desk): Position {
    Position(if desk.field.Some? then desk.field else job.initialManifest, false)
  }

  predicate InitialPending(job: Job, desk: Desk) {
    desk.field.None? && job.initialManifest.Some?
  }

  /** The first `n` turns of a session that nothing interrupts. */
  function Turns(job: Job, desk: Desk, n: nat): Option<Turned>
    requires n <= |job.stages|
  {
    if n == 0 then Some(Turned(desk, Opening(job, desk)))
    else
      var before := Turns(job, desk, n - 1);
      if before.None? then None
      else
        var pos := before.value.pos;
        Turn(job, before.value.desk, n - 1, pos.manifest, pos.pendingFork, n == 1 && InitialPending(job, desk))
  }

  /** The first turn of a session: it holds the committed manifest, or else the initial one, still to be forked. */
  function FirstTurn(job: Job, desk: Desk): Option<Turned>
    requires job.stages != []
  {
    Turn(job, desk, 0, Opening(job, desk).manifest, false, InitialPending(job, desk))
  }
}
