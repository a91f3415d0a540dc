/** The worker's sessions, performed write by write. */
module WorkerSessions {
  import opened Common
  import opened Contracts
  import opened StageKeys
  import opened Journal
  import opened Worker
  import opened WorkerLedger
  import opened WorkerTurns
  import opened WorkerProgress

  datatype Ending = Killed | StillOwned | Ended

  datatype StageEnd = Onward(manifest: Option<ArtifactRef>, pendingFork: bool) | Stop(ending: Ending)

  datatype ForkAnswer = ForkKilled | ForkRaised | Forked(manifest: ArtifactRef)

  class Workflow {
    const ledger: Ledger
    var state: JobState
    var manifest: Option<ArtifactRef>  // of the state record; stale commits by others may rewrite it between sessions
    var budget: nat                    // writes left before this session is killed
    var answers: nat                   // foreign answers consumed so far
    var freshRun: nat                  // next unused run id

    constructor (ledger: Ledger)
      ensures this.ledger == ledger && state == Queued
    {
      this.ledger := ledger;
      state, manifest := Queued, None;
      budget, answers, freshRun := 0, 0, 0;
    }

    /** What the session has in front of it, as a value. */
    ghost function Table(): Desk
      reads this, ledger
    {
      Desk(ledger.Rec(), manifest, answers, freshRun, ledger.history)
    }

    /** In a job that starts with the build, a stage that lets the session go on is answered and leads on alike. */
    ghost predicate LeadsOn(i: nat, next: StageEnd)
      requires i < |ledger.job.stages|
      reads this, ledger
    {
      StartsWithBuild(ledger.job) && next.Onward? ==>
        ledger.Before(i + 1) == Some(Position(next.manifest, next.pendingFork)) && manifest == next.manifest
    }

    /** A stage that ends the session was cut short, or has set a final state; nothing else touches the state. */
    twostate predicate EndsWell(next: StageEnd)
      reads this
    {
      && next != Stop(StillOwned)
      && if next == Stop(Ended) then state in {Failed, Cancelled} else state == old(state)
    }

    /** The session did exactly this turn, or was killed in it; it ends by itself only where the turn does. */
    ghost predicate Does(next: StageEnd, turn: Option<Turned>)
      reads this, ledger
    {
      && (next.Onward? ==> turn == Some(Turned(Table(), Position(next.manifest, next.pendingFork))))
      && (next == Stop(Ended) ==> turn == None)
      && (next == Stop(Killed) ==> budget == 0)
    }

    /** At most `writes` writes were made. */
    twostate predicate Spent(writes: nat)
      reads this
    {
      budget <= old(budget) <= budget + writes
    }

    method SpendWrite() returns (alive: bool)
      modifies this`budget
      ensures Spent(1)
      ensures alive <==> old(budget) > 0
    {
      alive := budget > 0;
      if alive {
        budget := budget - 1;
      }
    }

    method SetState(s: JobState) returns (ending: Ending)
      modifies this`budget, this`state
      ensures Spent(1) && (ending == Killed ==> budget == 0)
      ensures ending == (if old(budget) == 0 then Killed else Ended)
      ensures state == if ending == Ended then s else old(state)
    {
      var alive := SpendWrite();
      if !alive {
        return Killed;
      }
      state := s;
      ending := Ended;
    }

    method Publish(m: ArtifactRef) returns (alive: bool)
      modifies this`budget, this`manifest
      ensures Spent(1) && (alive || budget == 0)
      ensures manifest == if alive then Some(m) else old(manifest)
    {
      alive := SpendWrite();
      if alive {
        manifest := Some(m);
      }
    }

    method NoteFork(source: ArtifactRef, nextStage: Option<string>, reason: ForkReason, fork: ArtifactRef, ghost i: nat)
      returns (alive: bool)
      requires ledger.Valid() && i <= |ledger.job.stages| && ledger.ForkDue(source, nextStage, reason, i)
      requires IsSnapshotOf(fork, source.digest)
      requires ledger.Unhindered() ==> Workable(fork)
      modifies this`budget, ledger`events
      ensures Spent(1) && (alive || budget == 0)
      ensures ledger.Valid() && ledger.Grew()
      ensures ledger.Leads(if reason == BeforeStage then i else |ledger.job.stages|)
      ensures alive ==>
                && RecordedFork(ledger.events, source.digest, nextStage, reason) == Some(fork)
                && Table() == Noting(old(Table()), ManifestForked(source.digest, nextStage, reason, fork))
    {
      alive := SpendWrite();
      if alive {
        ledger.LogFork(source, nextStage, reason, fork, i);
      }
    }

    /** A snapshot under a new run, then its note. */
    method MintFork(source: ArtifactRef, nextStage: Option<string>, reason: ForkReason, ghost i: nat)
      returns (answer: ForkAnswer)
      requires ledger.Valid() && i <= |ledger.job.stages| && source.digest.OfManifest?
      requires ledger.ForkDue(source, nextStage, reason, i)
      requires IsRunManifest(source) && (ledger.Unhindered() ==> Workable(source))
      modifies this`budget, this`freshRun, ledger`events
      ensures ledger.Unhindered() && answer.Forked? ==> Workable(answer.manifest)
      ensures Spent(2) && (answer.ForkKilled? ==> budget == 0) && !answer.ForkRaised?
      ensures ledger.Valid() && ledger.Grew()
      ensures ledger.Leads(if reason == BeforeStage then i else |ledger.job.stages|)
      ensures answer.Forked? ==>
                && RecordedFork(ledger.events, source.digest, nextStage, reason) == Some(answer.manifest)
                && IsSnapshotOf(answer.manifest, source.digest)
                && Minted(ledger.job, old(Table()), source, nextStage, reason) == ForkTurned(Table(), answer.manifest)
    {
      var alive := SpendWrite();
      if !alive {
        return ForkKilled;
      }
      var fork := ForkOf(ledger.job, source, freshRun);
      if ledger.Unhindered() { ForkIsWorkable(ledger.job, source, freshRun); }
      freshRun := freshRun + 1;
      assert Table() == Fresh(old(Table()));
      alive := NoteFork(source, nextStage, reason, fork, i);
      answer := if alive then Forked(fork) else ForkKilled;
    }

    /** The fork the journal records, or else a new one. */
    method TakeFork(source: ArtifactRef, nextStage: Option<string>, reason: ForkReason, ghost i: nat)
      returns (answer: ForkAnswer)
      requires ledger.Valid() && i <= |ledger.job.stages| && source.digest.OfManifest?
      requires RecordedFork(ledger.events, source.digest, nextStage, reason).None? ==>
                 ledger.ForkDue(source, nextStage, reason, i)
      requires IsRunManifest(source) && (ledger.Unhindered() ==> Workable(source))
      modifies this`budget, this`freshRun, ledger`events
      ensures ledger.Unhindered() && answer.Forked? ==> Workable(answer.manifest)
      ensures Spent(2) && (answer.ForkKilled? ==> budget == 0) && !answer.ForkRaised?
      ensures ledger.Valid() && ledger.Grew()
      ensures ledger.Leads(if reason == BeforeStage then i else |ledger.job.stages|)
      ensures answer.Forked? ==>
                && RecordedFork(ledger.events, source.digest, nextStage, reason) == Some(answer.manifest)
                && IsSnapshotOf(answer.manifest, source.digest)
      ensures answer.Forked? ==>
                FoundOrMinted(ledger.job, old(Table()), source, nextStage, reason) == ForkTurned(Table(), answer.manifest)
    {
      var recorded := ledger.FindFork(source.digest, nextStage, reason);
      if recorded.Some? {
        if ledger.Unhindered() { RecordedIsWorkable(ledger.events, source.digest, nextStage, reason); }
        return Forked(recorded.value);
      }
      answer := MintFork(source, nextStage, reason, i);
    }

    /** Snapshot a production manifest unless the journal already records that fork. */
    method ForkManifest(source: ArtifactRef, nextStage: Option<string>, reason: ForkReason, ghost i: nat)
      returns (answer: ForkAnswer)
      requires ledger.Valid() && i <= |ledger.job.stages|
      requires reason == BeforeStage ==> i < |ledger.job.stages| && nextStage == Some(ledger.job.stages[i])
      requires StartsWithBuild(ledger.job) && reason == BeforeStage && IsRunManifest(source) ==>
                 RecordedFork(ledger.events, source.digest, nextStage, reason).Some? || ledger.Answer(i).None?
      requires ledger.Unhindered() ==> Workable(source)
      modifies this`budget, this`answers, this`freshRun, ledger`events
      ensures ledger.Unhindered() && answer.Forked? ==> Workable(answer.manifest)
      ensures Spent(2) && (answer.ForkKilled? ==> budget == 0)
      ensures ledger.Valid() && ledger.Grew()
      ensures ledger.Leads(if reason == BeforeStage then i else |ledger.job.stages|)
      ensures answer.Forked? && IsRunManifest(source) ==>
                && RecordedFork(ledger.events, source.digest, nextStage, reason) == Some(answer.manifest)
                && IsSnapshotOf(answer.manifest, source.digest)
      ensures !answer.ForkKilled? ==>
                ForkTurn(ledger.job, old(Table()), source, nextStage, reason)
                == if answer.Forked? then Some(ForkTurned(Table(), answer.manifest)) else None
    {
      if !IsRunManifest(source) {
        return Forked(source);
      }
      var fault := ledger.job.forkFaults(answers);
      answers := answers + 1;
      assert Table() == Answered(old(Table()));
      if fault || !source.digest.OfManifest? {
        return ForkRaised;
      }
      answer := TakeFork(source, nextStage, reason, i);
    }

    /** Going on from the receipt that answers the stage: note it and take its last output, if any, along. */
    method MoveOn(i: nat, s: Settlement, pos: Position) returns (next: StageEnd)
      requires ledger.Valid() && i < |ledger.job.stages| && ledger.AnsweredBy(i, s)
      modifies this`budget, this`manifest, ledger`events
      ensures Spent(2)
      ensures ledger.Valid() && ledger.Grew()
      ensures LeadsOn(i, next) && (next.Stop? ==> next.ending == Killed)
      ensures Does(next, Some(WorkerTurns.MoveOn(ledger.job, old(Table()), i, s, pos)))
    {
      var alive := SpendWrite();
      if !alive {
        return Stop(Killed);
      }
      ledger.NoteReuse(ledger.job.stages[i], s.stageKey);
      ghost var noted := Table();
      if s.receipt.outputs == [] {
        assert !StartsWithBuild(ledger.job);
        return Onward(pos.manifest, pos.pendingFork);
      }
      if StartsWithBuild(ledger.job) {
        assert ledger.Answer(i) == Some(s);
        AnswerLeads(ledger.job, ledger.Rec(), i);
      }
      var m := s.receipt.outputs[|s.receipt.outputs| - 1];
      alive := Publish(m);
      next := if alive then Onward(Some(m), Advance(s).pendingFork) else Stop(Killed);
    }

    /** A recorded receipt answers the stage. */
    method PassStage(i: nat, s: Settlement, pos: Position) returns (next: StageEnd)
      requires ledger.Valid() && i < |ledger.job.stages| && ledger.AnsweredBy(i, s)
      modifies this`budget, this`manifest, ledger`events, ledger`history
      ensures Spent(2)
      ensures ledger.Valid() && ledger.Grew()
      ensures ledger.history == old(ledger.history) + [Passed(i, s.stageKey)]
      ensures LeadsOn(i, next) && (next.Stop? ==> next.ending == Killed)
      ensures Does(next, Some(PassTurn(ledger.job, old(Table()), i, s, pos)))
    {
      ledger.LogPass(i, s);
      ghost var passed := ledger.Now();
      next := MoveOn(i, s, pos);
      ExtendsOn(old(ledger.Now()), passed, ledger.Now());
    }

    /** Reserve the attempt number and announce the call. */
    method StartStage(i: nat, key: StageKey, floor: nat, ghost pos: Position) returns (alive: bool, attempt: nat)
      requires ledger.Valid() && i < |ledger.job.stages| && ledger.Open(i, pos, key)
      modifies this`budget, ledger`events, ledger`history
      ensures Spent(1) && (alive || budget == 0)
      ensures ledger.Valid() && ledger.Grew() && ledger.Open(i, pos, key)
      ensures attempt == Larger(NextNumber(old(ledger.Rec()), key.stageName, key), floor)
      ensures alive ==> Table() == Announced(old(Table()), i, key, attempt)
    {
      var next := ledger.NextAttempt(key.stageName, key);
      attempt := Larger(next, floor);
      alive := SpendWrite();
      if alive {
        ledger.Announce(i, key, attempt, pos);
      }
    }

    /** The runner succeeded: the receipt is on disk before anything else mentions the result. */
    method FinishStage(i: nat, m: Option<ArtifactRef>, key: StageKey, attempt: nat, outcome: Outcome, ghost pos: Position)
      returns (next: StageEnd)
      requires ledger.Valid() && i < |ledger.job.stages| && ledger.Open(i, pos, key) && outcome.Success?
      requires StartsWithBuild(ledger.job) ==> EndsWithManifest(outcome)
      requires ledger.Unhindered() ==> GoodOutcome(outcome)
      modifies this`budget, this`manifest, ledger`receipts, ledger`history
      ensures Spent(2)
      ensures ledger.Valid() && ledger.Grew()
      ensures LeadsOn(i, next) && (next.Stop? ==> next.ending == Killed)
      ensures Does(next, Some(FinishTurn(old(Table()), i, m, key, attempt, outcome)))
    {
      var alive := SpendWrite();
      if !alive {
        return Stop(Killed);
      }
      var outputs := ReceiptOutputs(outcome.artifacts, outcome.manifest);
      ledger.RecordSuccess(i, StageReceipt(key, key.stageName, attempt, true, outputs, false), pos);
      if StartsWithBuild(ledger.job) {
        AnswerLeads(ledger.job, ledger.Rec(), i);
      }
      if outcome.manifest.Some? {
        alive := Publish(outcome.manifest.value);
      }
      next := if alive then Onward(Produced(outcome, m), false) else Stop(Killed);
    }

    method FailStage() returns (next: StageEnd)
      modifies this`budget, this`state
      ensures Spent(1) && (next == Stop(Killed) ==> budget == 0)
      ensures next.Stop? && EndsWell(next)
    {
      var ending := SetState(Failed);
      next := Stop(ending);
    }

    /** The runner failed: its receipt keeps the attempt, then the job fails. */
    method FailRun(r: StageReceipt) returns (next: StageEnd)
      requires ledger.Valid() && !r.succeeded
      modifies this`budget, this`state, ledger`receipts
      ensures Spent(2) && (next == Stop(Killed) ==> budget == 0)
      ensures ledger.Valid() && ledger.Grew() && next.Stop? && EndsWell(next)
    {
      var alive := SpendWrite();
      if !alive {
        return Stop(Killed);
      }
      ledger.RecordFailure(r);
      next := FailStage();
    }

    /** What the runner's answer leads to. */
    method TakeOutcome(i: nat, m: Option<ArtifactRef>, key: StageKey, attempt: nat, outcome: Outcome, ghost pos: Position)
      returns (next: StageEnd)
      requires ledger.Valid() && i < |ledger.job.stages| && ledger.Open(i, pos, key)
      requires StartsWithBuild(ledger.job) ==> EndsWithManifest(outcome)
      requires ledger.Unhindered() ==> GoodOutcome(outcome)
      modifies this, ledger
      ensures Spent(2)
      ensures ledger.Valid() && ledger.Grew() && LeadsOn(i, next) && EndsWell(next)
      ensures Does(next, if outcome.Success? then Some(FinishTurn(old(Table()), i, m, key, attempt, outcome)) else None)
    {
      match outcome
      case Cancellation =>
        var ending := SetState(Cancelled);
        next := Stop(ending);
      case Failure =>
        next := FailRun(StageReceipt(key, key.stageName, attempt, false, [], false));
      case Success(_, _) =>
        next := FinishStage(i, m, key, attempt, outcome, pos);
    }

    method AskRunner(m: Option<ArtifactRef>, stageName: string, attempt: nat) returns (outcome: Outcome)
      modifies this`answers
      ensures ledger.Unhindered() ==> GoodOutcome(outcome)
      ensures Spent(0)
      ensures outcome == ledger.job.runner(old(answers), stageName, m, attempt) && Table() == Answered(old(Table()))
      ensures StartsWithBuild(ledger.job) ==> EndsWithManifest(outcome)
    {
      outcome := ledger.job.runner(answers, stageName, m, attempt);
      RunnerReturnsManifest(ledger.job, answers, stageName, m, attempt);
      answers := answers + 1;
    }

    /** Announce the call and make it. */
    method CallRunner(i: nat, m: Option<ArtifactRef>, key: StageKey, floor: nat, ghost pos: Position)
      returns (alive: bool, attempt: nat, outcome: Outcome)
      requires ledger.Valid() && i < |ledger.job.stages| && ledger.Open(i, pos, key)
      modifies this`budget, this`answers, ledger`events, ledger`history
      ensures ledger.Unhindered() && alive ==> GoodOutcome(outcome)
      ensures Spent(1) && (alive || budget == 0)
      ensures ledger.Valid() && ledger.Grew() && ledger.Open(i, pos, key)
      ensures StartsWithBuild(ledger.job) ==> EndsWithManifest(outcome)
      ensures attempt == Larger(NextNumber(old(ledger.Rec()), key.stageName, key), floor)
      ensures alive ==> outcome == ledger.job.runner(old(answers), key.stageName, m, attempt)
      ensures alive ==> Table() == Answered(Announced(old(Table()), i, key, attempt))
    {
      alive, attempt := StartStage(i, key, floor, pos);
      outcome := Failure;
      if alive {
        outcome := AskRunner(m, key.stageName, attempt);
      }
    }

    /** Call the runner and take what comes back. */
    method RunWithFloor(i: nat, m: Option<ArtifactRef>, key: StageKey, floor: nat, ghost pos: Position)
      returns (next: StageEnd)
      requires ledger.Valid() && i < |ledger.job.stages| && ledger.Open(i, pos, key)
      modifies this, ledger
      ensures Spent(3)
      ensures ledger.Valid() && ledger.Grew() && LeadsOn(i, next) && EndsWell(next)
      ensures Does(next, CallTurn(ledger.job, old(Table()), i, m, key, floor))
    {
      var alive, attempt, outcome := CallRunner(i, m, key, floor, pos);
      if !alive {
        return Stop(Killed);
      }
      ghost var called := ledger.Now();
      next := TakeOutcome(i, m, key, attempt, outcome, pos);
      ExtendsOn(old(ledger.Now()), called, ledger.Now());
    }

    /** Runs a stage no receipt answers, from the lookups made with `pos` and the manifest `m` now in hand. */
    method RunStage(i: nat, m: Option<ArtifactRef>, key: StageKey, ghost pos: Position) returns (next: StageEnd)
      requires ledger.Valid() && i < |ledger.job.stages| && ledger.Open(i, pos, key)
      modifies this, ledger
      ensures Spent(3)
      ensures ledger.Valid() && ledger.Grew() && LeadsOn(i, next) && EndsWell(next)
      ensures Does(next, RunTurn(ledger.job, old(Table()), i, m, key))
    {
      var floor := ManifestAttemptFloor(m, key.stageName);
      if floor.None? {
        next := FailStage();
      } else {
        next := RunWithFloor(i, m, key, floor.value, pos);
      }
    }

    /** The copy of a receipt of the parent job answers the stage. */
    method CopyReceipt(i: nat, r: StageReceipt, ghost pos: Position) returns (alive: bool)
      requires ledger.Valid() && i < |ledger.job.stages| && ledger.Open(i, pos, r.stageKey)
      requires KeyFor(ledger.job.keys, ledger.job.stages[i], pos.manifest) == Some(r.stageKey)
      requires r.succeeded && (StartsWithBuild(ledger.job) ==> r.outputs != [])
      requires ledger.Unhindered() ==> AllWorkable(r.outputs)
      modifies this`budget, ledger`receipts, ledger`history
      ensures Spent(1) && (alive || budget == 0)
      ensures ledger.Valid() && ledger.Grew()
      ensures alive ==> ledger.AnsweredBy(i, Settlement(r.stageKey, r, false))
      ensures alive ==> Table() == Recorded(old(Table()), i, r)
    {
      alive := SpendWrite();
      if alive {
        ghost var before := ledger.Rec();
        ledger.RecordSuccess(i, r, pos);
        ReceiptForAppend(before.receipts, r, r.stageKey);
        if StartsWithBuild(ledger.job) {
          ReuseIsSettled(ledger.job, before, i, pos, r);
        }
      }
    }

    /** An unchanged stage of the parent job: copy its receipt under the next attempt, then pass. */
    method ReuseFromParent(i: nat, m: Option<ArtifactRef>, pendingFork: bool, key: StageKey, parent: StageReceipt)
      returns (next: StageEnd)
      requires ledger.Valid() && i < |ledger.job.stages| && ledger.Open(i, Position(m, pendingFork), key)
      requires KeyFor(ledger.job.keys, ledger.job.stages[i], m) == Some(key)
      requires ReceiptFor(ledger.job.parentReceipts, key) == Some(parent)
      modifies this`budget, this`manifest, ledger
      ensures Spent(3)
      ensures ledger.Valid() && ledger.Grew()
      ensures LeadsOn(i, next) && (next.Stop? ==> next.ending == Killed)
      ensures Does(next, Some(CopyTurn(ledger.job, old(Table()), i, Position(m, pendingFork), key, parent)))
    {
      var attempt := ledger.NextAttempt(key.stageName, key);
      if ledger.Unhindered() { FoundIsWorkable(ledger.job.parentReceipts, key); }
      var r := StageReceipt(key, parent.stageName, attempt, true, parent.outputs, true);
      var alive := CopyReceipt(i, r, Position(m, pendingFork));
      if !alive {
        return Stop(Killed);
      }
      ghost var copied := ledger.Now();
      next := MoveOn(i, Settlement(key, r, false), Position(m, pendingFork));
      ExtendsOn(old(ledger.Now()), copied, ledger.Now());
    }

    /** Fork a manifest and go on with the fork in hand. */
    method HoldFork(source: ArtifactRef, nextStage: string, reason: ForkReason, ghost i: nat) returns (next: StageEnd)
      requires ledger.Valid() && i <= |ledger.job.stages|
      requires reason == BeforeStage ==> i < |ledger.job.stages| && nextStage == ledger.job.stages[i]
      requires StartsWithBuild(ledger.job) && reason == BeforeStage && IsRunManifest(source) ==>
                 RecordedFork(ledger.events, source.digest, Some(nextStage), reason).Some? || ledger.Answer(i).None?
      requires ledger.Unhindered() ==> Workable(source)
      modifies this`budget, this`answers, this`freshRun, this`manifest, this`state, ledger`events
      ensures Spent(3) && (next == Stop(Killed) ==> budget == 0)
      ensures ledger.Valid() && ledger.Grew() && EndsWell(next)
      ensures ledger.Leads(if reason == BeforeStage then i else |ledger.job.stages|)
      ensures next == Stop(Ended) ==> ForkTurn(ledger.job, old(Table()), source, Some(nextStage), reason) == None
      ensures next.Onward? ==>
                var forked := ForkTurn(ledger.job, old(Table()), source, Some(nextStage), reason);
                && forked.Some? && Table() == Holding(forked.value.desk, forked.value.fork)
                && next == Onward(Some(forked.value.fork), false)
      ensures next.Onward? && IsRunManifest(source) ==>
                RecordedFork(ledger.events, source.digest, Some(nextStage), reason) == next.manifest
      ensures next.Onward? && !IsRunManifest(source) ==> next.manifest == Some(source)
      ensures ledger.Unhindered() && next.Onward? ==> Ready(next.manifest)
    {
      var answer := ForkManifest(source, Some(nextStage), reason, i);
      if answer.ForkKilled? {
        return Stop(Killed);
      }
      if answer.ForkRaised? {
        next := FailStage();
        return;
      }
      var alive := Publish(answer.manifest);
      next := if alive then Onward(Some(answer.manifest), false) else Stop(Killed);
    }

    /** Fork the reused manifest before this job diverges from it; the fork may re-key the stage. */
    method ForkThenRun(i: nat, m: ArtifactRef) returns (next: StageEnd)
      requires ledger.Valid() && i < |ledger.job.stages|
      requires ledger.AskedFrom(i, Position(Some(m), true))
      requires Unanswered(ledger.job, ledger.Rec(), KeyFor(ledger.job.keys, ledger.job.stages[i], Some(m)))
      requires ledger.Unhindered() ==> Workable(m)
      modifies this, ledger
      ensures Spent(6)
      ensures ledger.Valid() && ledger.Grew() && LeadsOn(i, next) && EndsWell(next)
      ensures Does(next, ForkRunTurn(ledger.job, old(Table()), i, m))
    {
      if StartsWithBuild(ledger.job) {
        ForkDecides(ledger.job, ledger.Rec(), i, m, ForkInRecords(ledger.Rec(), m, ledger.job.stages[i]));
      }
      next := HoldFork(m, ledger.job.stages[i], BeforeStage, i);
      if next.Stop? {
        return;
      }
      ghost var forked := ledger.Now();
      next := LookAgain(i, m, next.manifest.value);
      ExtendsOn(old(ledger.Now()), forked, ledger.Now());
    }

    /** The second lookup, with the recorded fork in hand. */
    method LookAgain(i: nat, ghost m: ArtifactRef, fork: ArtifactRef) returns (next: StageEnd)
      requires ledger.Valid() && i < |ledger.job.stages|
      requires ledger.AskedFrom(i, Position(Some(m), true))
      requires Unanswered(ledger.job, ledger.Rec(), KeyFor(ledger.job.keys, ledger.job.stages[i], Some(m)))
      requires ForkInRecords(ledger.Rec(), m, ledger.job.stages[i]) == Some(fork)
      modifies this, ledger
      ensures Spent(3)
      ensures ledger.Valid() && ledger.Grew() && LeadsOn(i, next) && EndsWell(next)
      ensures Does(next, ForkedTurn(ledger.job, old(Table()), i, fork))
    {
      if StartsWithBuild(ledger.job) {
        ForkDecides(ledger.job, ledger.Rec(), i, m, Some(fork));
      }
      var key := KeyFor(ledger.job.keys, ledger.job.stages[i], Some(fork));
      if key.None? {
        next := FailStage();
        return;
      }
      var resumed := ReceiptFor(ledger.receipts, key.value);
      if resumed.Some? {
        next := PassStage(i, Settlement(key.value, resumed.value, true), Position(Some(fork), false));
      } else {
        next := RunStage(i, Some(fork), key.value, Position(Some(m), true));
      }
    }

    /** The lookups for one stage, then whichever of pass, copy, fork or run they call for. */
    method AnswerStage(i: nat, m: Option<ArtifactRef>, pendingFork: bool) returns (next: StageEnd)
      requires ledger.Valid() && i < |ledger.job.stages|
      requires ledger.AskedFrom(i, Position(m, pendingFork))
      requires ledger.Unhindered() ==> Ready(m)
      modifies this, ledger
      ensures Spent(6)
      ensures ledger.Valid() && ledger.Grew() && LeadsOn(i, next) && EndsWell(next)
      ensures Does(next, AnswerTurn(ledger.job, old(Table()), i, m, pendingFork))
    {
      var pos := Position(m, pendingFork);
      if StartsWithBuild(ledger.job) {
        AskedIsSettled(ledger.job, ledger.Rec(), i, pos);
      }
      var key := KeyFor(ledger.job.keys, ledger.job.stages[i], m);
      if key.None? {
        next := FailStage();
        return;
      }
      var own := ReceiptFor(ledger.receipts, key.value);
      if own.Some? {
        next := PassStage(i, Settlement(key.value, own.value, false), pos);
        return;
      }
      var parent := ReceiptFor(ledger.job.parentReceipts, key.value);
      if parent.Some? {
        next := ReuseFromParent(i, m, pendingFork, key.value, parent.value);
      } else if pendingFork && m.Some? {
        next := ForkThenRun(i, m.value);
      } else {
        next := RunStage(i, m, key.value, pos);
      }
    }

    /** The first stage of a job that starts from a manifest. */
    method StartFromManifest(source: ArtifactRef, pendingFork: bool) returns (next: StageEnd)
      requires ledger.Valid() && ledger.job.stages != [] && !pendingFork
      requires ledger.Unhindered() ==> Workable(source)
      modifies this, ledger
      ensures Spent(9)
      ensures ledger.Valid() && ledger.Grew() && LeadsOn(0, next) && EndsWell(next)
      ensures Does(next, InitialTurn(ledger.job, old(Table()), source, pendingFork))
    {
      next := HoldFork(source, ledger.job.stages[0], InitialManifest, 0);
      if next.Stop? {
        return;
      }
      ghost var forked := ledger.Now();
      next := AnswerStage(0, next.manifest, pendingFork);
      ExtendsOn(old(ledger.Now()), forked, ledger.Now());
    }

    method AskCancel() returns (cancel: bool)
      modifies this`answers
      ensures Spent(0)
      ensures cancel == ledger.job.cancelled(old(answers)) && Table() == Answered(old(Table()))
    {
      cancel := ledger.job.cancelled(answers);
      answers := answers + 1;
    }

    /** One turn of the stage loop: one that goes on has done what `Turn` says. */
    method DriveStage(i: nat, m: Option<ArtifactRef>, pendingFork: bool, initialPending: bool) returns (next: StageEnd)
      requires ledger.Valid() && i < |ledger.job.stages|
      requires ledger.AskedFrom(i, Position(m, pendingFork)) && (initialPending ==> i == 0 && !pendingFork)
      requires ledger.Unhindered() ==> Ready(m)
      modifies this, ledger
      ensures Spent(9)
      ensures ledger.Valid() && ledger.Grew() && LeadsOn(i, next) && EndsWell(next)
      ensures Does(next, Turn(ledger.job, old(Table()), i, m, pendingFork, initialPending))
    {
      var cancel := AskCancel();
      if cancel {
        var ending := SetState(Cancelled);
        next := Stop(ending);
      } else if initialPending && m.Some? {
        next := StartFromManifest(m.value, pendingFork);
      } else {
        next := AnswerStage(i, m, pendingFork);
      }
    }

    /** The session that opened with `start` in front of it has made its first `n` turns, and goes on with `next`. */
    ghost predicate HasTurned(start: Desk, n: nat, next: StageEnd)
      requires n <= |ledger.job.stages|
      reads this, ledger
    {
      && next.Onward? && ledger.AskedFrom(n, Position(next.manifest, next.pendingFork))
      && Turns(ledger.job, start, n) == Some(Turned(Table(), Position(next.manifest, next.pendingFork)))
    }

    /** It still has to fork the manifest its job starts from. */
    ghost predicate StillToFork(start: Desk, n: nat, next: StageEnd, initialPending: bool)
      reads this, ledger
    {
      && initialPending == (n == 0 && InitialPending(ledger.job, start))
      && (initialPending && next.Onward? ==> !next.pendingFork)
    }

    /** The next turn of the stage loop. */
    method DriveNext(i: nat, from: StageEnd, initialPending: bool, ghost start: Desk) returns (next: StageEnd)
      requires ledger.Valid() && i < |ledger.job.stages|
      requires HasTurned(start, i, from) && StillToFork(start, i, from, initialPending)
      requires ledger.Unhindered() ==> DeskReady(start)
      modifies this, ledger
      ensures ledger.Valid() && ledger.Grew() && EndsWell(next)
      ensures next.Onward? ==> HasTurned(start, i + 1, next)
      ensures next == Stop(Ended) ==> StopsBy(ledger.job, start, i + 1)
      ensures next == Stop(Killed) ==> budget == 0
      ensures Spent(9)
    {
      if ledger.Unhindered() { TurnsGoOn(ledger.job, start, i); }
      next := DriveStage(i, from.manifest, from.pendingFork, initialPending);
    }

    /** The stage loop. */
    method DriveAll() returns (next: StageEnd)
      requires ledger.Valid()
      requires ledger.Unhindered() ==> Ready(manifest)
      modifies this, ledger
      ensures ledger.Valid() && ledger.Grew() && EndsWell(next)
      ensures next.Onward? ==> HasTurned(old(Table()), |ledger.job.stages|, next)
      ensures next == Stop(Ended) ==> StopsSomewhere(ledger.job, old(Table()))
      ensures next == Stop(Killed) ==> budget == 0
      ensures Spent(9 * |ledger.job.stages|)
    {
      ghost var start := Table();
      var initialPending := manifest.None? && ledger.job.initialManifest.Some?;
      next := Onward(if manifest.Some? then manifest else ledger.job.initialManifest, false);
      for i := 0 to |ledger.job.stages|
        invariant ledger.Valid() && ledger.Grew() && Spent(9 * i) && state == old(state)
        invariant HasTurned(start, i, next) && StillToFork(start, i, next, initialPending)
      {
        ghost var driven := ledger.Now();
        next := DriveNext(i, next, initialPending, start);
        ExtendsOn(old(ledger.Now()), driven, ledger.Now());
        if next.Stop? {
          assert next == Stop(Ended) ==> StopsBy(ledger.job, start, i + 1);
          return;
        }
        initialPending := false;
      }
    }

    /** The manifest a finished job publishes: the last stage's, or the one recorded fork of a copied one. */
    ghost predicate LeavesWith(m: Option<ArtifactRef>, pendingFork: bool)
      reads this, ledger
    {
      if pendingFork && m.Some? && IsRunManifest(m.value)
      then RecordedFork(ledger.events, m.value.digest, None, AllStagesReused) == manifest
      else manifest == m
    }

    /** All stages passed: a job that only reused its parent's work still leaves with a manifest of its own. */
    method FinishJob(m: Option<ArtifactRef>, pendingFork: bool) returns (ending: Ending)
      requires ledger.Valid()
      requires ledger.Unhindered() ==> Ready(m)
      modifies this, ledger`events
      ensures ending == Killed && !old(state).Terminal() ==> !state.Terminal()
      ensures Spent(6) && (ending == Killed ==> budget == 0)
      ensures ending == Ended && state != Succeeded ==>
                m.Some? && ForkTurn(ledger.job, old(Table()), m.value, None, AllStagesReused) == None
      ensures ending == Ended && state == Succeeded ==> LeavesWith(m, pendingFork)
      ensures ledger.Valid() && ledger.Grew()
      ensures ending != StillOwned && (ending == Ended ==> state.Terminal())
      ensures ledger.Leads(|ledger.job.stages|)
    {
      var final := m;
      if pendingFork && m.Some? {
        var answer := ForkManifest(m.value, None, AllStagesReused, |ledger.job.stages|);
        if answer.ForkKilled? {
          return Killed;
        }
        if answer.ForkRaised? {
          ending := SetState(Failed);
          return;
        }
        final := Some(answer.manifest);
        var alive := Publish(answer.manifest);
        if !alive {
          return Killed;
        }
      }
      ending := SetState(Collecting);
      if ending == Killed { return; }
      ending := SetState(Committing);
      if ending == Killed { return; }
      ending := SetState(Succeeded);
      if ending == Ended {
        manifest := final;
      }
    }

    lemma LastForkGoesOn(start: Desk, last: StageEnd)
      requires ledger.Unhindered() && DeskReady(start) && HasTurned(start, |ledger.job.stages|, last)
      ensures Ready(last.manifest)
      ensures last.manifest.Some? ==>
                ForkTurn(ledger.job, Table(), last.manifest.value, None, AllStagesReused).Some?
    {
      TurnsGoOn(ledger.job, start, |ledger.job.stages|);
      if last.manifest.Some? {
        ForkGoesOn(ledger.job, Table(), last.manifest.value, None, AllStagesReused);
      }
    }

    /** Every stage is answered by a verified receipt, and the state record names the manifest they lead to. */
    ghost predicate Complete()
      reads this, ledger
    {
      && (forall i | 0 <= i < |ledger.job.stages| :: ledger.Answer(i).Some?)
      && var last := ledger.Before(|ledger.job.stages|);
         last.Some? && LeavesWith(last.value.manifest, last.value.pendingFork)
    }

    /** `_run_claimed`. */
    method RunClaimed() returns (ending: Ending)
      requires ledger.Valid() && !state.Terminal()
      requires ledger.Unhindered() ==> Ready(manifest)
      modifies this, ledger
      ensures ending == Killed ==> !state.Terminal()
      ensures Spent(9 * |ledger.job.stages| + 8) && (ending == Killed ==> budget == 0)
      ensures ledger.Unhindered() && ending == Ended ==> state == Succeeded
      ensures ledger.Valid() && ledger.Grew()
      ensures ending != StillOwned && (ending == Ended ==> state.Terminal())
      ensures ending == Ended && state == Succeeded && StartsWithBuild(ledger.job) ==> Complete()
    {
      ending := SetState(Staging);
      if ending == Killed { return; }
      ending := SetState(Running);
      if ending == Killed { return; }
      ghost var start := Table();
      var last := DriveAll();
      if last.Stop? {
        if ledger.Unhindered() { WillingNeverStops(ledger.job, start); }
        return last.ending;
      }
      if StartsWithBuild(ledger.job) {
        EarlierSettled(ledger.job, ledger.Rec(), |ledger.job.stages|);
      }
      ghost var answered := ledger.Now();
      if ledger.Unhindered() {
        LastForkGoesOn(start, last);
      }
      ending := FinishJob(last.manifest, last.pendingFork);
      ExtendsOn(old(ledger.Now()), answered, ledger.Now());
    }

    /** `run`, under the exclusive worker lease. `stale` is the heartbeat verdict at entry. */
    method RunSession(writes: nat, stale: bool) returns (ending: Ending)
      requires ledger.Valid()
      requires ledger.Unhindered() ==> Ready(manifest)
      modifies this, ledger
      ensures ending == Killed ==> !state.Terminal()
      ensures ending == Killed ==> writes <= 9 * |ledger.job.stages| + 9
      ensures ledger.Unhindered() && !old(state).Terminal() && ending == Ended ==> state == Succeeded
      ensures ledger.Valid() && ledger.Grew()
      ensures old(state).Terminal() ==> ending == Ended && state == old(state) && Table() == old(Table())
      ensures ending == StillOwned <==> old(state).InFlight() && !stale
      ensures ending == StillOwned ==> state == old(state) && Table() == old(Table())
      ensures ending == Ended ==> state.Terminal()
      ensures ending == Ended && state == Succeeded && !old(state).Terminal() && StartsWithBuild(ledger.job) ==> Complete()
    {
      budget := writes;
      if state.InFlight() {
        if !stale {
          return StillOwned;
        }
        ending := SetState(Orphaned);
        if ending == Killed { return; }
      }
      if state.Terminal() {
        return Ended;
      }
      ending := RunClaimed();
    }
  }

  /** Others leave usable manifests in the state record, and no final state. */
  ghost predicate Undisturbed(fields: seq<Option<ArtifactRef>>, states: seq<JobState>) {
    (forall m | m in fields :: Ready(m)) && (forall s | s in states :: !s.Terminal())
  }

  /** The last session finds no other at work, and has writes enough for all stages. */
  predicate GetsThrough(job: Job, writes: seq<nat>, stale: seq<bool>)
    requires |writes| == |stale|
  {
    writes != [] && stale[|stale| - 1] && writes[|writes| - 1] > 9 * |job.stages| + 9
  }

  /**
   A job's whole life: any number of sessions, each killed after any number of writes; in between, whoever commits a
   stale snapshot rewrites the manifest field and the state of the record, which only a terminal state resists. In every
   job attempts under a key never repeat, each fork is recorded once, as a snapshot of its source, and the history is
   the one the records tell: its calls are the announced starts, in order, and its passes the recorded successes. In a
   job that starts with the build, no stage is ever run again after it has passed, and every later pass uses the same key.
   A willing job that others leave alone, and whose last session has writes enough, has succeeded.
   */
  method Lifetime(job: Job, writes: seq<nat>, stale: seq<bool>, fields: seq<Option<ArtifactRef>>,
                  states: seq<JobState>)
    returns (d: Ledger, w: Workflow)
    requires |writes| == |stale| == |fields| == |states|
    ensures fresh(d) && fresh(w) && d.job == job && w.ledger == d
    ensures Willing(job) && Undisturbed(fields, states) && GetsThrough(job, writes, stale) ==> w.state == Succeeded
    ensures StartsWithBuild(job) ==>
              NeverRepeats(d.history) && Remembered(job, d.Rec(), d.history) && OutputsKept(d.receipts)
    ensures Placed(job, d.history)
    ensures Calls(d.history) == Starts(d.events) && PassedKeys(d.history) == SuccessKeys(d.receipts)
    ensures AttemptsIncrease(d.events) && ForksUnique(d.events) && SuccessesApart(d.receipts)
    ensures ForksAreSnapshots(d.events) && RelookupFindsNothingNew(job, d.Rec())
  {
    d := new Ledger(job, Undisturbed(fields, states));
    w := new Workflow(d);
    for s := 0 to |writes|
      invariant fresh(d) && fresh(w) && w.ledger == d && d.job == job && d.Valid()
      invariant d.trusted == Undisturbed(fields, states)
      invariant d.Unhindered() && w.state.Terminal() ==> w.state == Succeeded
      invariant d.Unhindered() && s > 0 && GetsThrough(job, writes[..s], stale[..s]) ==> w.state == Succeeded
    {
      assert fields[s] in fields && states[s] in states;
      w.manifest := fields[s];
      if !w.state.Terminal() {
        w.state := states[s];
      }
      var ending := w.RunSession(writes[s], stale[s]);
      assert writes[..s + 1][s] == writes[s] && stale[..s + 1][s] == stale[s];
    }
    assert writes[..|writes|] == writes && stale[..|stale|] == stale;
    SnapshotsRelookup(job, d.Rec());
  }
}
