/**
 Why the guarantee of the worker needs a job that starts with the build and a receipt that ends with the manifest.
 Both conditions are exact for what one resumed turn finds, and both failures are runs in which a stage that has
 passed is handed to the runner again.
 */
module Resumption {
  import opened Common
  import opened Contracts
  import opened StageKeys
  import opened Worker
  import opened WorkerTurns

  /** A job nobody has worked on. */
  function Blank(answers: nat, freshRun: nat): Desk {
    Desk(Records([], []), None, answers, freshRun, [])
  }

  /** The manifest the very first session asks about its first stage with. */
  function FirstInput(job: Job, freshRun: nat): Option<ArtifactRef> {
    if job.initialManifest.None? || !IsRunManifest(job.initialManifest.value) then job.initialManifest
    else if !job.initialManifest.value.digest.OfManifest? then None
    else Some(ForkOf(job, job.initialManifest.value, freshRun))
  }

  /** What the first turn comes down to once the initial manifest is forked. */
  lemma FirstAsks(job: Job, answers: nat, freshRun: nat, t: Turned) returns (desk: Desk)
    requires job.stages != [] && FirstTurn(job, Blank(answers, freshRun)) == Some(t)
    ensures desk.d.receipts == [] && desk.log == []
    ensures AnswerTurn(job, desk, 0, FirstInput(job, freshRun), false) == Some(t)
  {
    desk := Answered(Blank(answers, freshRun));
    if job.initialManifest.Some? {
      var forked := ForkTurn(job, desk, job.initialManifest.value, Some(job.stages[0]), InitialManifest);
      assert FirstInput(job, freshRun) == Some(forked.value.fork);
      desk := Holding(forked.value.desk, forked.value.fork);
    }
  }

  /** A first turn that calls the runner leaves one receipt, under the key asked with `FirstInput`. */
  lemma FirstCall(job: Job, answers: nat, freshRun: nat, t: Turned) returns (r: StageReceipt)
    requires job.stages != [] && FirstTurn(job, Blank(answers, freshRun)) == Some(t)
    requires t.desk.log != [] && t.desk.log[0].Called?
    ensures KeyFor(job.keys, job.stages[0], FirstInput(job, freshRun)) == Some(r.stageKey)
    ensures r.succeeded && t.desk.d.receipts == [r]
    ensures |t.desk.log| == 2 && t.desk.log[0].index == 0 && t.desk.log[1] == Passed(0, r.stageKey)
  {
    var desk := FirstAsks(job, answers, freshRun, t);
    var first := FirstInput(job, freshRun);
    CalledExactlyWhen(job, desk, 0, first, t);
    r := t.desk.d.receipts[0];
    var key := KeyFor(job.keys, job.stages[0], first).value;
    assert RunTurn(job, desk, 0, first, key) == Some(t);
  }

  /** Asked without a fork due, a stage is handed to the runner exactly when neither job holds a receipt for it. */
  lemma CalledExactlyWhen(job: Job, desk: Desk, i: nat, m: Option<ArtifactRef>, t: Turned)
    requires i < |job.stages| && AnswerTurn(job, desk, i, m, false) == Some(t)
    ensures |desk.log| < |t.desk.log| && t.desk.log[..|desk.log|] == desk.log && t.desk.log[|desk.log|].index == i
    ensures var key := KeyFor(job.keys, job.stages[i], m);
            key.Some? && (t.desk.log[|desk.log|].Called? <==>
                            ReceiptFor(desk.d.receipts, key.value).None? && ReceiptFor(job.parentReceipts, key.value).None?)
  {
  }

  lemma OneReceiptAnswers(job: Job, stageName: string, r: StageReceipt, asked: Option<ArtifactRef>,
                          held: Option<ArtifactRef>)
    requires KeyFor(job.keys, stageName, asked) == Some(r.stageKey) && r.succeeded
    requires KeyFor(job.keys, stageName, held).Some?
    ensures ReceiptFor([r], KeyFor(job.keys, stageName, held).value).Some? <==> stageName == BUILD || SameInput(asked, held)
  {
    assert [] + [r] == [r];
    FoundAgainExactlyWhen(job, Records([], []), stageName, asked, held, r);
    ReceiptForAppend([], r, KeyFor(job.keys, stageName, held).value);
  }

  /**
   A first stage that has been run, passed and committed is run again by the next session exactly when it is not the
   build, the committed manifest does not stand for the input it was first asked with, and no parent receipt answers
   for that manifest.
   */
  lemma FirstStageRunsAgainExactlyWhen(job: Job, answers: nat, freshRun: nat, t: Turned, again: Turned)
    requires job.stages != [] && FirstTurn(job, Blank(answers, freshRun)) == Some(t)
    requires t.desk.log != [] && t.desk.log[0].Called? && t.desk.field.Some?
    requires FirstTurn(job, t.desk) == Some(again)
    ensures t.desk.log <= again.desk.log && |t.desk.log| == 2 && t.desk.log[1].Passed? && |again.desk.log| > 2
    ensures var key := KeyFor(job.keys, job.stages[0], t.desk.field);
            && key.Some?
            && (again.desk.log[2].Called? <==>
                  && job.stages[0] != BUILD && !SameInput(FirstInput(job, freshRun), t.desk.field)
                  && ReceiptFor(job.parentReceipts, key.value).None?)
  {
    var r := FirstCall(job, answers, freshRun, t);
    CalledExactlyWhen(job, Answered(t.desk), 0, t.desk.field, again);
    OneReceiptAnswers(job, job.stages[0], r, FirstInput(job, freshRun), t.desk.field);
  }

  /**
   A resumed session goes on from a receipt with its last output, the session that ran the stage with its manifest:
   the two agree exactly when the receipt ends with the manifest.
   */
  lemma ResumedGoesOnAlikeExactlyWhen(job: Job, desk: Desk, i: nat, m: Option<ArtifactRef>, key: StageKey, floor: nat,
                                      outcome: Outcome, t: Turned, later: Desk)
    requires i < |job.stages| && KeyFor(job.keys, job.stages[i], m) == Some(key)
    requires ReceiptFor(desk.d.receipts, key).None?
    requires outcome == job.runner(desk.answers, key.stageName, m, Larger(NextNumber(desk.d, key.stageName, key), floor))
    requires outcome.Success? && outcome.manifest.Some?
    requires CallTurn(job, desk, i, m, key, floor) == Some(t) && later.d == t.desk.d
    ensures var resumed := AnswerTurn(job, later, i, m, false);
            && resumed.Some? && resumed.value.desk.log == later.log + [Passed(i, key)]
            && (resumed.value.pos == t.pos <==> EndsWithManifest(outcome))
  {
    var r := t.desk.d.receipts[|desk.d.receipts|];
    ReceiptForAppend(desk.d.receipts, r, key);
  }

  /** The turn handed stage `i` to the runner, which answered `outcome`, and recorded it as `r`. */
  ghost predicate Ran(job: Job, desk: Desk, i: nat, m: Option<ArtifactRef>, t: Turned, outcome: Outcome, r: StageReceipt) {
    && i < |job.stages| && outcome.Success?
    && KeyFor(job.keys, job.stages[i], m) == Some(r.stageKey) && ReceiptFor(desk.d.receipts, r.stageKey).None?
    && r.succeeded && !r.reusedFromParent && r.outputs == ReceiptOutputs(outcome.artifacts, outcome.manifest)
    && t.desk.d.receipts == desk.d.receipts + [r] && t.pos == Position(Produced(outcome, m), false)
  }

  lemma CalledHasRun(job: Job, desk: Desk, i: nat, m: Option<ArtifactRef>, t: Turned)
    returns (outcome: Outcome, r: StageReceipt)
    requires i < |job.stages| && AnswerTurn(job, desk, i, m, false) == Some(t)
    requires |desk.log| < |t.desk.log| && t.desk.log[|desk.log|].Called?
    ensures Ran(job, desk, i, m, t, outcome, r)
  {
    CalledExactlyWhen(job, desk, i, m, t);
    var key := KeyFor(job.keys, job.stages[i], m).value;
    assert RunTurn(job, desk, i, m, key) == Some(t);
    var attempt := Larger(NextNumber(desk.d, key.stageName, key), ManifestAttemptFloor(m, key.stageName).value);
    outcome := job.runner(desk.answers, key.stageName, m, attempt);
    r := StageReceipt(key, key.stageName, attempt, true, ReceiptOutputs(outcome.artifacts, outcome.manifest), false);
  }

  /** What a session that finds the receipt goes on with. */
  function HandedOn(outcome: Outcome, m: Option<ArtifactRef>): Option<ArtifactRef>
    requires outcome.Success?
  {
    var outputs := ReceiptOutputs(outcome.artifacts, outcome.manifest);
    if outputs == [] then m else Some(outputs[|outputs| - 1])
  }

  /** It is what the session that ran the stage went on with, unless a returned manifest is listed before the end. */
  lemma HandedOnAlikeExactlyWhen(outcome: Outcome, m: Option<ArtifactRef>)
    requires outcome.Success?
    ensures HandedOn(outcome, m) == Produced(outcome, m) <==> outcome.manifest.None? || EndsWithManifest(outcome)
  {
  }

  /** A recorded receipt is found again, and only adds to what else the records answer. */
  lemma RanIsPassed(job: Job, desk: Desk, i: nat, m: Option<ArtifactRef>, t: Turned, outcome: Outcome, r: StageReceipt,
                    more: seq<StageReceipt>, later: Desk)
    requires Ran(job, desk, i, m, t, outcome, r) && later.d.receipts == t.desk.d.receipts + more && |more| <= 1
    ensures var again := AnswerTurn(job, later, i, m, false);
            && again.Some? && again.value.desk.d.receipts == later.d.receipts
            && again.value.desk.log == later.log + [Passed(i, r.stageKey)]
            && again.value.pos == Position(HandedOn(outcome, m), false)
  {
    ReceiptForAppend(desk.d.receipts, r, r.stageKey);
    if more == [] {
      assert t.desk.d.receipts + more == t.desk.d.receipts;
    } else {
      assert more == [more[0]];
      ReceiptForAppend(t.desk.d.receipts, more[0], r.stageKey);
    }
    assert ReceiptFor(later.d.receipts, r.stageKey) == Some(r);
  }

  lemma SameKeyExactlyWhen(inputs: KeyInputs, stageName: string, a: Option<ArtifactRef>, b: Option<ArtifactRef>)
    requires KeyFor(inputs, stageName, a).Some? && KeyFor(inputs, stageName, b).Some?
    ensures KeyFor(inputs, stageName, a) == KeyFor(inputs, stageName, b) <==> stageName == BUILD || SameInput(a, b)
  {
  }

  /**
   Any job: a session has run stage `i` and then stage `i + 1`, and is killed. When the next one comes to stage `i` with
   the same manifest in hand, it passes it, and it hands stage `i + 1` to the runner again exactly when that stage is not
   the build, the last output of the receipt does not stand for what the first session went on with, and neither an
   earlier receipt nor one of the parent job answers for that output.
   */
  lemma NextStageRunsAgainExactlyWhen(job: Job, i: nat, desk: Desk, m: Option<ArtifactRef>, t: Turned, mid: Desk, u: Turned,
                                      later: Desk, again: Turned, next: Desk, rerun: Turned)
    returns (outcome: Outcome)
    requires i + 1 < |job.stages|
    requires AnswerTurn(job, desk, i, m, false) == Some(t)
    requires |desk.log| < |t.desk.log| && t.desk.log[|desk.log|].Called?
    requires mid.d == t.desk.d && AnswerTurn(job, mid, i + 1, t.pos.manifest, t.pos.pendingFork) == Some(u)
    requires |mid.log| < |u.desk.log| && u.desk.log[|mid.log|].Called?
    requires later.d == u.desk.d && AnswerTurn(job, later, i, m, false) == Some(again)
    requires next.d == again.desk.d
    requires AnswerTurn(job, next, i + 1, again.pos.manifest, again.pos.pendingFork) == Some(rerun)
    ensures outcome.Success? && t.pos.manifest == Produced(outcome, m) && again.pos.manifest == HandedOn(outcome, m)
    ensures |again.desk.log| == |later.log| + 1 && again.desk.log[|later.log|].Passed?
    ensures var key := KeyFor(job.keys, job.stages[i + 1], HandedOn(outcome, m));
            && key.Some? && |next.log| < |rerun.desk.log|
            && (rerun.desk.log[|next.log|].Called? <==>
                  && job.stages[i + 1] != BUILD && !SameInput(Produced(outcome, m), HandedOn(outcome, m))
                  && ReceiptFor(t.desk.d.receipts, key.value).None? && ReceiptFor(job.parentReceipts, key.value).None?)
  {
    var r: StageReceipt;
    outcome, r := CalledHasRun(job, desk, i, m, t);
    var _, r2 := CalledHasRun(job, mid, i + 1, t.pos.manifest, u);
    RanIsPassed(job, desk, i, m, t, outcome, r, [r2], later);
    CalledExactlyWhen(job, next, i + 1, again.pos.manifest, rerun);
    var key := KeyFor(job.keys, job.stages[i + 1], again.pos.manifest).value;
    ReceiptForAppend(t.desk.d.receipts, r2, key);
    SameKeyExactlyWhen(job.keys, job.stages[i + 1], t.pos.manifest, again.pos.manifest);
  }

  /** A stage nothing answers is called and passed, and the session goes on with what the runner made. */
  lemma UnansweredIsCalled(job: Job, desk: Desk, i: nat, m: Option<ArtifactRef>, key: StageKey, outcome: Outcome)
    returns (t: Turned)
    requires i < |job.stages| && KeyFor(job.keys, job.stages[i], m) == Some(key)
    requires ReceiptFor(desk.d.receipts, key).None? && ReceiptFor(job.parentReceipts, key).None?
    requires ManifestAttemptFloor(m, key.stageName).Some? && outcome.Success?
    requires forall call, attempt :: job.runner(call, key.stageName, m, attempt) == outcome
    ensures AnswerTurn(job, desk, i, m, false) == Some(t) && t.pos == Position(Produced(outcome, m), false)
    ensures var n := |desk.d.receipts|;
            && |t.desk.d.receipts| == n + 1 && t.desk.d.receipts[..n] == desk.d.receipts
            && t.desk.d.receipts[n].stageKey == key && t.desk.d.receipts[n].succeeded
            && t.desk.d.receipts[n].outputs == ReceiptOutputs(outcome.artifacts, outcome.manifest)
            && !t.desk.d.receipts[n].reusedFromParent
    ensures var n := |desk.log|;
            && |t.desk.log| == n + 2 && t.desk.log[..n] == desk.log
            && t.desk.log[n].Called? && t.desk.log[n].index == i && t.desk.log[n + 1] == Passed(i, key)
  {
    t := AnswerTurn(job, desk, i, m, false).value;
  }

  // ------------------------------------------------------------- witnesses

  function Manifest(runId: nat, revision: nat): RunManifest {
    RunManifest(runId, revision, 0, 0, None, "", [], [], None)
  }

  function PlainInputs(): KeyInputs {
    KeyInputs(Spec(map[], NoConfigs), Provenance("", "", "", None, None, None, false, None))
  }

  /** A job that continues a manifest with one stage, whose runner publishes the next revision. */
  function ContinuationJob(): Job {
    Job(["benchmark"], PlainInputs(), Some(PublishedRef(Manifest(1, 0))), [], None,
        (call, stage, manifest, attempt) => Success([], Some(PublishedRef(Manifest(2, 1)))),
        call => false, call => false)
  }

  /** Killed after its commit and resumed, such a job hands its passed stage to the runner a second time. */
  lemma ContinuationRunsTwice() returns (job: Job, t: Turned, again: Turned)
    ensures job.stages != [] && job.stages[0] != BUILD && job.initialManifest.Some?
    ensures FirstTurn(job, Blank(0, 2)) == Some(t) && FirstTurn(job, t.desk) == Some(again)
    ensures |again.desk.log| > 2 && again.desk.log[1].Passed? && again.desk.log[2].Called?
    ensures again.desk.log[1].index == again.desk.log[2].index && !NeverRepeats(again.desk.log)
  {
    job := ContinuationJob();
    var source := job.initialManifest.value;
    var fork := ForkOf(job, source, 2);
    assert FirstInput(job, 2) == Some(fork);
    t := FirstTurn(job, Blank(0, 2)).value;
    var r := FirstCall(job, 0, 2, t);
    assert t.desk.field == Some(PublishedRef(Manifest(2, 1)));
    var key := KeyFor(job.keys, "benchmark", t.desk.field).value;
    if ReceiptFor(t.desk.d.receipts, key).None? {
      again := UnansweredIsCalled(job, Answered(t.desk), 0, t.desk.field, key, job.runner(0, "benchmark", None, 0));
    }
    assert FirstTurn(job, t.desk) == AnswerTurn(job, Answered(t.desk), 0, t.desk.field, false);
    again := FirstTurn(job, t.desk).value;
    FirstStageRunsAgainExactlyWhen(job, 0, 2, t, again);
    assert KeyIdentity(fork) == Some(OfManifest(Manifest(1, 0)));
    assert KeyIdentity(t.desk.field.value) == Some(OfManifest(Manifest(2, 1)));
    assert Manifest(1, 0).revision != Manifest(2, 1).revision;
    assert !OnlyPassedAgain(again.desk.log, 1, 2);
  }

  /** The second stage of a session, after the first one. */
  function SecondTurn(job: Job, t: Turned): Option<Turned>
    requires |job.stages| == 2
  {
    Turn(job, t.desk, 1, t.pos.manifest, t.pos.pendingFork, false)
  }

  /** A build that always comes out as `built`, then a stage that always comes out as `next`, undisturbed. */
  ghost predicate TwoStages(job: Job, stageName: string, built: Outcome, next: Outcome) {
    && job.stages == [BUILD, stageName] && stageName != BUILD
    && job.initialManifest.None? && job.parentReceipts == []
    && (forall call :: !job.cancelled(call))
    && (forall call, m, attempt :: job.runner(call, BUILD, m, attempt) == built)
    && (forall call, m, attempt :: job.runner(call, stageName, m, attempt) == next)
    && built.Success? && built.manifest.Some? && next.Success? && next.manifest.Some?
  }

  function LastOutput(outcome: Outcome): ArtifactRef
    requires outcome.Success? && outcome.manifest.Some?
  {
    var outputs := ReceiptOutputs(outcome.artifacts, outcome.manifest);
    outputs[|outputs| - 1]
  }

  predicate Usable(m: ArtifactRef) {
    KeyIdentity(m).Some? && (IsRunManifest(m) ==> m.digest.OfManifest?)
  }

  /** The first session: the build is called, then passed. */
  lemma BuildRuns(job: Job, stageName: string, built: Outcome, next: Outcome) returns (t: Turned)
    requires TwoStages(job, stageName, built, next)
    ensures FirstTurn(job, Blank(0, 0)) == Some(t) && t.pos == Position(built.manifest, false)
    ensures |t.desk.log| == 2 && |t.desk.d.receipts| == 1 && t.desk.d.receipts[0].succeeded
    ensures t.desk.d.receipts[0].outputs == ReceiptOutputs(built.artifacts, built.manifest)
    ensures !t.desk.d.receipts[0].reusedFromParent
    ensures KeyFor(job.keys, BUILD, None) == Some(t.desk.d.receipts[0].stageKey)
  {
    var build := KeyFor(job.keys, BUILD, None).value;
    t := UnansweredIsCalled(job, Answered(Blank(0, 0)), 0, None, build, built);
  }

  lemma OtherStageUnanswered(inputs: KeyInputs, stageName: string, m: Option<ArtifactRef>, r: StageReceipt)
    requires KeyFor(inputs, stageName, m).Some? && r.stageKey.stageName != stageName
    ensures ReceiptFor([r], KeyFor(inputs, stageName, m).value).None?
  {
    assert [] + [r] == [r];
    ReceiptForAppend([], r, KeyFor(inputs, stageName, m).value);
  }

  lemma SecondRuns(job: Job, stageName: string, built: Outcome, next: Outcome, t: Turned) returns (u: Turned)
    requires TwoStages(job, stageName, built, next) && Usable(built.manifest.value)
    requires t.pos == Position(built.manifest, false)
    requires |t.desk.log| == 2 && |t.desk.d.receipts| == 1 && t.desk.d.receipts[0].stageKey.stageName == BUILD
    ensures SecondTurn(job, t) == Some(u) && u.desk.field.Some?
    ensures |u.desk.log| == 4 && u.desk.log[3].Passed? && u.desk.log[3].index == 1
    ensures |u.desk.d.receipts| == 2 && u.desk.d.receipts[0] == t.desk.d.receipts[0] && u.desk.d.receipts[1].succeeded
    ensures KeyFor(job.keys, stageName, built.manifest) == Some(u.desk.d.receipts[1].stageKey)
  {
    assert t.desk.d.receipts == [t.desk.d.receipts[0]];
    OtherStageUnanswered(job.keys, stageName, built.manifest, t.desk.d.receipts[0]);
    u := UnansweredIsCalled(job, Answered(t.desk), 1, built.manifest, KeyFor(job.keys, stageName, built.manifest).value,
                            next);
    assert u.desk.d.receipts[0] == u.desk.d.receipts[..1][0];
  }

  /** The first session: both stages are called, then passed. */
  lemma TwoStagesRun(job: Job, stageName: string, built: Outcome, next: Outcome) returns (t: Turned, u: Turned)
    requires TwoStages(job, stageName, built, next) && Usable(built.manifest.value)
    ensures FirstTurn(job, Blank(0, 0)) == Some(t) && SecondTurn(job, t) == Some(u) && u.desk.field.Some?
    ensures |u.desk.log| == 4 && u.desk.log[3].Passed? && u.desk.log[3].index == 1
    ensures |u.desk.d.receipts| == 2 && u.desk.d.receipts[0].succeeded && u.desk.d.receipts[1].succeeded
    ensures u.desk.d.receipts[0].outputs == ReceiptOutputs(built.artifacts, built.manifest)
    ensures !u.desk.d.receipts[0].reusedFromParent
    ensures KeyFor(job.keys, BUILD, None) == Some(u.desk.d.receipts[0].stageKey)
    ensures KeyFor(job.keys, stageName, built.manifest) == Some(u.desk.d.receipts[1].stageKey)
  {
    t := BuildRuns(job, stageName, built, next);
    u := SecondRuns(job, stageName, built, next, t);
  }

  /** The next session: the build is passed, and hands on the last output of its receipt. */
  lemma BuildIsPassed(job: Job, stageName: string, built: Outcome, next: Outcome, desk: Desk) returns (t2: Turned)
    requires TwoStages(job, stageName, built, next) && desk.field.Some?
    requires |desk.d.receipts| == 2 && desk.d.receipts[0].succeeded
    requires KeyFor(job.keys, BUILD, None) == Some(desk.d.receipts[0].stageKey)
    requires desk.d.receipts[1].stageKey.stageName == stageName
    requires desk.d.receipts[0].outputs == ReceiptOutputs(built.artifacts, built.manifest)
    requires !desk.d.receipts[0].reusedFromParent
    ensures FirstTurn(job, desk) == Some(t2) && t2.pos == Position(Some(LastOutput(built)), false)
    ensures t2.desk.d.receipts == desk.d.receipts && t2.desk.log == desk.log + [Passed(0, desk.d.receipts[0].stageKey)]
  {
    var r, key := desk.d.receipts[0], desk.d.receipts[0].stageKey;
    assert desk.d.receipts[..1] == [] + [r];
    ReceiptForAppend([], r, key);
    assert ReceiptFor(desk.d.receipts, key) == Some(r);
    t2 := FirstTurn(job, desk).value;
  }

  /** Of a build receipt and one of another stage, the latter answers exactly for its own input. */
  lemma SecondReceiptAnswers(inputs: KeyInputs, stageName: string, a: StageReceipt, b: StageReceipt, asked: ArtifactRef,
                             held: ArtifactRef)
    requires a.stageKey.stageName != stageName && b.succeeded
    requires KeyFor(inputs, stageName, Some(asked)) == Some(b.stageKey) && stageName != BUILD
    requires KeyIdentity(held).Some?
    ensures var key := KeyFor(inputs, stageName, Some(held));
            key.Some? && (ReceiptFor([a, b], key.value).Some? <==> KeyIdentity(held) == KeyIdentity(asked))
  {
    var key := KeyFor(inputs, stageName, Some(held)).value;
    assert [a, b] == [] + [a] + [b];
    ReceiptForAppend([], a, key);
    ReceiptForAppend([a], b, key);
    assert [] + [a] == [a];
  }

  /** The second turn of the next session, with the last output of the build's receipt in hand. */
  lemma SecondTurnAgain(job: Job, stageName: string, asked: ArtifactRef, held: ArtifactRef, t2: Turned) returns (u2: Turned)
    requires job.stages == [BUILD, stageName] && stageName != BUILD && job.parentReceipts == []
    requires (forall call :: !job.cancelled(call))
    requires forall call, m, attempt :: job.runner(call, stageName, m, attempt).Success?
    requires Usable(held) && t2.pos == Position(Some(held), false)
    requires |t2.desk.d.receipts| == 2 && t2.desk.d.receipts[1].succeeded
    requires t2.desk.d.receipts[0].stageKey.stageName == BUILD
    requires KeyFor(job.keys, stageName, Some(asked)) == Some(t2.desk.d.receipts[1].stageKey)
    ensures SecondTurn(job, t2) == Some(u2) && |t2.desk.log| < |u2.desk.log| && u2.desk.log[..|t2.desk.log|] == t2.desk.log
    ensures u2.desk.log[|t2.desk.log|].index == 1
    ensures u2.desk.log[|t2.desk.log|].Called? <==> KeyIdentity(held) != KeyIdentity(asked)
  {
    var receipts := t2.desk.d.receipts;
    assert receipts == [receipts[0], receipts[1]];
    SecondReceiptAnswers(job.keys, stageName, receipts[0], receipts[1], asked, held);
    u2 := SecondTurn(job, t2).value;
    CalledExactlyWhen(job, Answered(t2.desk), 1, Some(held), u2);
  }

  /** Both turns of the next session. */
  lemma BothTurnsAgain(job: Job, stageName: string, built: Outcome, next: Outcome, desk: Desk)
    returns (t2: Turned, u2: Turned)
    requires TwoStages(job, stageName, built, next) && desk.field.Some? && Usable(LastOutput(built))
    requires |desk.d.receipts| == 2 && desk.d.receipts[0].succeeded && desk.d.receipts[1].succeeded
    requires desk.d.receipts[0].outputs == ReceiptOutputs(built.artifacts, built.manifest)
    requires !desk.d.receipts[0].reusedFromParent
    requires KeyFor(job.keys, BUILD, None) == Some(desk.d.receipts[0].stageKey)
    requires KeyFor(job.keys, stageName, built.manifest) == Some(desk.d.receipts[1].stageKey)
    requires |desk.log| == 4
    ensures FirstTurn(job, desk) == Some(t2) && SecondTurn(job, t2) == Some(u2)
    ensures |u2.desk.log| > 5 && u2.desk.log[3] == desk.log[3] && u2.desk.log[5].index == 1
    ensures u2.desk.log[5].Called? <==> KeyIdentity(LastOutput(built)) != KeyIdentity(built.manifest.value)
  {
    t2 := BuildIsPassed(job, stageName, built, next, desk);
    assert t2.desk.log[3] == desk.log[3] && |t2.desk.log| == 5;
    u2 := SecondTurnAgain(job, stageName, built.manifest.value, LastOutput(built), t2);
    assert u2.desk.log[3] == u2.desk.log[..5][3];
  }

  /**
   Killed after both stages passed and resumed, the job hands its second stage to the runner again exactly when the
   last output of the build's receipt does not stand for the manifest the build returned.
   */
  lemma SecondStageRunsAgainExactlyWhen(job: Job, stageName: string, built: Outcome, next: Outcome)
    returns (t: Turned, u: Turned, t2: Turned, u2: Turned)
    requires TwoStages(job, stageName, built, next) && Usable(built.manifest.value) && Usable(LastOutput(built))
    ensures FirstTurn(job, Blank(0, 0)) == Some(t) && SecondTurn(job, t) == Some(u)
    ensures FirstTurn(job, u.desk) == Some(t2) && SecondTurn(job, t2) == Some(u2)
    ensures |u2.desk.log| > 5 && u2.desk.log[3].Passed? && u2.desk.log[3].index == u2.desk.log[5].index == 1
    ensures u2.desk.log[5].Called? <==> KeyIdentity(LastOutput(built)) != KeyIdentity(built.manifest.value)
  {
    t, u := TwoStagesRun(job, stageName, built, next);
    t2, u2 := BothTurnsAgain(job, stageName, built, next, u.desk);
  }

  /** A job whose build lists its manifest before another one. */
  function ListingJob(): Job {
    Job([BUILD, "benchmark"], PlainInputs(), None, [], None,
        (call, stage, manifest, attempt) =>
          if stage == BUILD then Listing() else Success([], Some(PublishedRef(Manifest(1, 3)))),
        call => false, call => false)
  }

  function Listing(): Outcome {
    var first, second := PublishedRef(Manifest(1, 1)), PublishedRef(Manifest(1, 2));
    Success([first, second], Some(first))
  }

  lemma ListingGoesOnElsewhere()
    ensures Usable(Listing().manifest.value) && Usable(LastOutput(Listing()))
    ensures KeyIdentity(LastOutput(Listing())) != KeyIdentity(Listing().manifest.value)
  {
    var first, second := PublishedRef(Manifest(1, 1)), PublishedRef(Manifest(1, 2));
    assert SameFile(first, first);
    assert ReceiptOutputs([first, second], Some(first)) == [first, second];
    assert Manifest(1, 1).revision != Manifest(1, 2).revision;
  }

  /** Such a job passes its build again, but hands its passed second stage to the runner a second time. */
  lemma ListedManifestRunsTwice() returns (job: Job, t: Turned, u: Turned, t2: Turned, u2: Turned)
    ensures |job.stages| == 2 && job.stages[0] == BUILD
    ensures FirstTurn(job, Blank(0, 0)) == Some(t) && SecondTurn(job, t) == Some(u)
    ensures FirstTurn(job, u.desk) == Some(t2) && SecondTurn(job, t2) == Some(u2)
    ensures !NeverRepeats(u2.desk.log)
  {
    job := ListingJob();
    var built, next := Listing(), Success([], Some(PublishedRef(Manifest(1, 3))));
    assert TwoStages(job, "benchmark", built, next);
    ListingGoesOnElsewhere();
    t, u, t2, u2 := SecondStageRunsAgainExactlyWhen(job, "benchmark", built, next);
    assert !OnlyPassedAgain(u2.desk.log, 3, 5);
  }
}
