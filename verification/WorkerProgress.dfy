/**
 What decides between passing, copying and running a stage, and when a job cannot fail: with a runner that succeeds
 and manifests that can be forked, every turn goes on.
 */
module WorkerProgress {
  import opened Common
  import opened Contracts
  import opened StageKeys
  import opened Worker
  import opened WorkerTurns

  // ------------------------------------------------- pass, copy or run

  /** Each success was recorded under the key of some work: the inputs and the manifest it was asked with. */
  datatype Origins = Origins(inputs: StageReceipt -> KeyInputs, asked: StageReceipt -> Option<ArtifactRef>)

  ghost predicate MadeFrom(receipts: seq<StageReceipt>, from: Origins) {
    forall r | r in receipts && r.succeeded ::
      KeyFor(from.inputs(r), r.stageKey.stageName, from.asked(r)) == Some(r.stageKey)
  }

  /** `r` is a success of the very work that is asked for. */
  ghost predicate Answers(r: StageReceipt, from: Origins, keys: KeyInputs, stageName: string, m: Option<ArtifactRef>) {
    r.succeeded && SameWork(from.inputs(r), r.stageKey.stageName, from.asked(r), keys, stageName, m)
  }

  ghost predicate AnyAnswers(receipts: seq<StageReceipt>, from: Origins, keys: KeyInputs, stageName: string,
                             m: Option<ArtifactRef>)
  {
    exists r :: r in receipts && Answers(r, from, keys, stageName, m)
  }

  lemma {:induction false} FoundExactlyWhen(receipts: seq<StageReceipt>, from: Origins, keys: KeyInputs, stageName: string,
                                            m: Option<ArtifactRef>)
    requires MadeFrom(receipts, from) && KeyFor(keys, stageName, m).Some?
    ensures var found := ReceiptFor(receipts, KeyFor(keys, stageName, m).value);
            && (found.Some? <==> AnyAnswers(receipts, from, keys, stageName, m))
            && (found.Some? ==> found.value in receipts && Answers(found.value, from, keys, stageName, m))
  {
    var key := KeyFor(keys, stageName, m).value;
    forall r | r in receipts && r.succeeded
      ensures Answers(r, from, keys, stageName, m) <==> r.stageKey == key
    {
      KeysAgreeExactlyWhen(from.inputs(r), r.stageKey.stageName, from.asked(r), keys, stageName, m);
    }
    if ReceiptFor(receipts, key).None? { NoReceiptMeansNone(receipts, key); }
  }

  /** The turn called no runner and recorded nothing. */
  predicate OnlyPasses(desk: Desk, t: Turned, i: nat) {
    && t.desk.d.receipts == desk.d.receipts
    && |t.desk.log| == |desk.log| + 1 && t.desk.log[..|desk.log|] == desk.log
    && t.desk.log[|desk.log|].Passed? && t.desk.log[|desk.log|].index == i
  }

  /** It called no runner, and recorded a success with the outputs of `parent`. */
  predicate Copies(desk: Desk, t: Turned, i: nat, parent: StageReceipt) {
    && |t.desk.d.receipts| == |desk.d.receipts| + 1 && t.desk.d.receipts[..|desk.d.receipts|] == desk.d.receipts
    && (var copy := t.desk.d.receipts[|desk.d.receipts|];
        && copy.succeeded && copy.reusedFromParent && copy.outputs == parent.outputs && copy.stageKey == parent.stageKey
        && t.desk.log == desk.log + [Passed(i, copy.stageKey)])
  }

  /** The runner was called. */
  predicate CallsRunner(desk: Desk, t: Turned) {
    |t.desk.log| > |desk.log| && t.desk.log[|desk.log|].Called?
  }

  /**
   Without a fork due, a stage is passed exactly when the job has a success of the same work, else copied exactly when
   the parent job has one, and else handed to the runner. What is copied is what the parent's run of this work made.
   */
  lemma DecidedBy(job: Job, desk: Desk, i: nat, m: Option<ArtifactRef>, own: Origins, parents: Origins, t: Turned)
    requires i < |job.stages| && AnswerTurn(job, desk, i, m, false) == Some(t)
    requires MadeFrom(desk.d.receipts, own) && MadeFrom(job.parentReceipts, parents)
    ensures var mine := AnyAnswers(desk.d.receipts, own, job.keys, job.stages[i], m);
            var theirs := AnyAnswers(job.parentReceipts, parents, job.keys, job.stages[i], m);
            && (OnlyPasses(desk, t, i) <==> mine)
            && ((exists r :: r in job.parentReceipts && Copies(desk, t, i, r)) <==> !mine && theirs)
            && (CallsRunner(desk, t) <==> !mine && !theirs)
    ensures forall r | r in job.parentReceipts && r.succeeded && Copies(desk, t, i, r) ::
              Answers(r, parents, job.keys, job.stages[i], m)
  {
    FoundExactlyWhen(desk.d.receipts, own, job.keys, job.stages[i], m);
    FoundExactlyWhen(job.parentReceipts, parents, job.keys, job.stages[i], m);
    var key := KeyFor(job.keys, job.stages[i], m).value;
    var mine, theirs := ReceiptFor(desk.d.receipts, key), ReceiptFor(job.parentReceipts, key);
    if mine.None? && theirs.Some? {
      assert Copies(desk, t, i, theirs.value);
      forall r | r in job.parentReceipts && r.succeeded && Copies(desk, t, i, r)
        ensures Answers(r, parents, job.keys, job.stages[i], m)
      {
        KeysAgreeExactlyWhen(parents.inputs(r), r.stageKey.stageName, parents.asked(r), job.keys, job.stages[i], m);
      }
    }
  }

  // ------------------------------------------------------------ going on

  /** A production manifest that can be forked and keyed; other artifacts need nothing. */
  predicate Workable(m: ArtifactRef) {
    m.logicalName.RunManifestName? ==>
      && m.kind.ManifestArtifact? && m.digest.OfManifest?
      && (m.digest.manifest.revision == 0 && m.digest.manifest.forkedFrom.Some? ==>
            m.digest.manifest.forkedFrom.value.kind.ManifestArtifact?)
  }

  ghost predicate AllWorkable(refs: seq<ArtifactRef>) {
    forall m | m in refs :: Workable(m)
  }

  predicate Ready(m: Option<ArtifactRef>) {
    m.Some? ==> Workable(m.value)
  }

  ghost predicate ReceiptsWorkable(receipts: seq<StageReceipt>) {
    forall r | r in receipts && r.succeeded :: AllWorkable(r.outputs)
  }

  ghost predicate GoodOutcome(outcome: Outcome) {
    outcome.Success? && AllWorkable(outcome.artifacts) && Ready(outcome.manifest)
  }

  /** Nothing outside the worker stops this job. */
  ghost predicate Willing(job: Job) {
    && (forall n :: !job.cancelled(n)) && (forall n :: !job.forkFaults(n))
    && (forall call, stage, m, attempt :: GoodOutcome(job.runner(call, stage, m, attempt)))
    && Ready(job.initialManifest) && ReceiptsWorkable(job.parentReceipts)
  }

  ghost predicate ForksWorkable(events: seq<JobEvent>) {
    forall e | e in events && e.ManifestForked? :: Workable(e.fork)
  }

  ghost predicate RecordsReady(d: Records) {
    ReceiptsWorkable(d.receipts) && ForksWorkable(d.events)
  }

  /** Nothing in what the sessions have written so far stops it. */
  ghost predicate DeskReady(desk: Desk) {
    Ready(desk.field) && RecordsReady(desk.d)
  }

  lemma WorkableHasKey(job: Job, stageName: string, m: Option<ArtifactRef>)
    requires Ready(m)
    ensures KeyFor(job.keys, stageName, m).Some? && ManifestAttemptFloor(m, stageName).Some?
  {
  }

  lemma ForkIsWorkable(job: Job, source: ArtifactRef, freshRun: nat)
    requires IsRunManifest(source) && source.digest.OfManifest? && Workable(source)
    ensures Workable(ForkOf(job, source, freshRun))
  {
  }

  lemma RecordedIsWorkable(events: seq<JobEvent>, source: Digest, nextStage: Option<string>, reason: ForkReason)
    requires ForksWorkable(events)
    ensures var fork := RecordedFork(events, source, nextStage, reason); fork.Some? ==> Workable(fork.value)
  {
    RecordedIsThere(events, source, nextStage, reason);
  }

  lemma {:induction false} FoundIsWorkable(receipts: seq<StageReceipt>, key: StageKey)
    requires ReceiptsWorkable(receipts)
    ensures ReceiptFor(receipts, key).Some? ==> AllWorkable(ReceiptFor(receipts, key).value.outputs)
  {
  }

  ghost predicate GoesOn(t: Option<Turned>) {
    t.Some? && DeskReady(t.value.desk) && Ready(t.value.pos.manifest)
  }

  lemma NotingKeepsReady(desk: Desk, e: JobEvent)
    requires DeskReady(desk) && (e.ManifestForked? ==> Workable(e.fork))
    ensures DeskReady(Noting(desk, e))
  {
  }

  lemma RecordingKeepsReady(desk: Desk, i: nat, r: StageReceipt)
    requires DeskReady(desk) && AllWorkable(r.outputs)
    ensures DeskReady(Recorded(desk, i, r))
  {
  }

  lemma MoveOnGoesOn(job: Job, desk: Desk, i: nat, s: Settlement, pos: Position)
    requires i < |job.stages| && DeskReady(desk) && AllWorkable(s.receipt.outputs) && Ready(pos.manifest)
    ensures GoesOn(Some(MoveOn(job, desk, i, s, pos)))
  {
    NotingKeepsReady(desk, StageReused(job.stages[i], s.stageKey));
  }

  lemma ForkGoesOn(job: Job, desk: Desk, source: ArtifactRef, nextStage: Option<string>, reason: ForkReason)
    requires Willing(job) && DeskReady(desk) && Workable(source)
    ensures var forked := ForkTurn(job, desk, source, nextStage, reason);
            forked.Some? && DeskReady(forked.value.desk) && Workable(forked.value.fork)
  {
    RecordedIsThere(desk.d.events, source.digest, nextStage, reason);
    if IsRunManifest(source) {
      var fork := ForkOf(job, source, desk.freshRun);
      NotingKeepsReady(Fresh(Answered(desk)), ManifestForked(source.digest, nextStage, reason, fork));
    }
  }

  lemma RunGoesOn(job: Job, desk: Desk, i: nat, m: Option<ArtifactRef>, key: StageKey)
    requires Willing(job) && DeskReady(desk) && Ready(m)
    ensures GoesOn(RunTurn(job, desk, i, m, key))
  {
    WorkableHasKey(job, key.stageName, m);
    var attempt := Larger(NextNumber(desk.d, key.stageName, key), ManifestAttemptFloor(m, key.stageName).value);
    var outcome := job.runner(desk.answers, key.stageName, m, attempt);
    assert GoodOutcome(outcome);
    var announced := Answered(Announced(desk, i, key, attempt));
    NotingKeepsReady(desk, StageStarted(key.stageName, key, attempt));
    RecordingKeepsReady(announced, i, StageReceipt(key, key.stageName, attempt, true,
                                                   ReceiptOutputs(outcome.artifacts, outcome.manifest), false));
  }

  lemma ForkedGoesOn(job: Job, desk: Desk, i: nat, fork: ArtifactRef)
    requires Willing(job) && i < |job.stages| && DeskReady(desk) && Workable(fork)
    ensures GoesOn(ForkedTurn(job, desk, i, fork))
  {
    WorkableHasKey(job, job.stages[i], Some(fork));
    var key := KeyFor(job.keys, job.stages[i], Some(fork)).value;
    var resumed := ReceiptFor(desk.d.receipts, key);
    if resumed.Some? {
      FoundIsWorkable(desk.d.receipts, key);
      MoveOnGoesOn(job, PassedBy(desk, i, key), i, Settlement(key, resumed.value, true), Position(Some(fork), false));
    } else {
      RunGoesOn(job, desk, i, Some(fork), key);
    }
  }

  lemma AnswerGoesOn(job: Job, desk: Desk, i: nat, m: Option<ArtifactRef>, pendingFork: bool)
    requires Willing(job) && i < |job.stages| && DeskReady(desk) && Ready(m)
    ensures GoesOn(AnswerTurn(job, desk, i, m, pendingFork))
  {
    WorkableHasKey(job, job.stages[i], m);
    var key, pos := KeyFor(job.keys, job.stages[i], m).value, Position(m, pendingFork);
    var own, parent := ReceiptFor(desk.d.receipts, key), ReceiptFor(job.parentReceipts, key);
    if own.Some? {
      FoundIsWorkable(desk.d.receipts, key);
      MoveOnGoesOn(job, PassedBy(desk, i, key), i, Settlement(key, own.value, false), pos);
    } else if parent.Some? {
      FoundIsWorkable(job.parentReceipts, key);
      var r := StageReceipt(key, parent.value.stageName, NextNumber(desk.d, key.stageName, key), true, parent.value.outputs, true);
      RecordingKeepsReady(desk, i, r);
      MoveOnGoesOn(job, Recorded(desk, i, r), i, Settlement(key, r, false), pos);
    } else if pendingFork && m.Some? {
      ForkGoesOn(job, desk, m.value, Some(job.stages[i]), BeforeStage);
      var forked := ForkTurn(job, desk, m.value, Some(job.stages[i]), BeforeStage).value;
      ForkedGoesOn(job, Holding(forked.desk, forked.fork), i, forked.fork);
    } else {
      RunGoesOn(job, desk, i, m, key);
    }
  }

  lemma TurnGoesOn(job: Job, desk: Desk, i: nat, m: Option<ArtifactRef>, pendingFork: bool, initialPending: bool)
    requires Willing(job) && i < |job.stages| && (initialPending ==> i == 0) && DeskReady(desk) && Ready(m)
    ensures GoesOn(Turn(job, desk, i, m, pendingFork, initialPending))
  {
    if initialPending && m.Some? {
      ForkGoesOn(job, Answered(desk), m.value, Some(job.stages[0]), InitialManifest);
      var forked := ForkTurn(job, Answered(desk), m.value, Some(job.stages[0]), InitialManifest).value;
      AnswerGoesOn(job, Holding(forked.desk, forked.fork), 0, Some(forked.fork), pendingFork);
    } else {
      AnswerGoesOn(job, Answered(desk), i, m, pendingFork);
    }
  }

  /** The first `n` turns all go on. */
  ghost predicate ReachesTurn(job: Job, desk: Desk, n: nat)
    requires n <= |job.stages|
  {
    GoesOn(Turns(job, desk, n))
  }

  lemma OneTurnMore(job: Job, desk: Desk, n: nat)
    requires Willing(job) && n < |job.stages| && ReachesTurn(job, desk, n)
    ensures ReachesTurn(job, desk, n + 1)
  {
    var before := Turns(job, desk, n).value;
    TurnGoesOn(job, before.desk, n, before.pos.manifest, before.pos.pendingFork, n == 0 && InitialPending(job, desk));
  }

  /** Whatever its records hold already, a willing job gets through all its stages. */
  lemma {:induction false} TurnsGoOn(job: Job, desk: Desk, n: nat)
    requires Willing(job) && DeskReady(desk) && n <= |job.stages|
    ensures ReachesTurn(job, desk, n)
  {
    if n > 0 {
      TurnsGoOn(job, desk, n - 1);
      OneTurnMore(job, desk, n - 1);
    }
  }

  /** One of the turns ends the session. */
  ghost predicate StopsSomewhere(job: Job, desk: Desk) {
    exists n: nat :: n <= |job.stages| && StopsBy(job, desk, n)
  }

  ghost predicate StopsBy(job: Job, desk: Desk, n: nat)
    requires n <= |job.stages|
  {
    Turns(job, desk, n).None?
  }

  lemma WillingNeverStops(job: Job, desk: Desk)
    requires Willing(job) && DeskReady(desk)
    ensures !StopsSomewhere(job, desk)
  {
    forall n: nat | n <= |job.stages| ensures !StopsBy(job, desk, n) {
      TurnsGoOn(job, desk, n);
    }
  }
}
