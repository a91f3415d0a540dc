/** The job's persistent records, and the appends the worker makes to them. */
module WorkerLedger {
  import opened Common
  import opened Contracts
  import opened StageKeys
  import opened Worker
  import opened WorkerTurns
  import opened WorkerProgress

  /** Everything the ledger holds at one moment. */
  datatype Page = Page(receipts: seq<StageReceipt>, events: seq<JobEvent>, history: seq<Entry>)

  predicate SameAt<T(==)>(a: seq<T>, b: seq<T>, k: nat)
    requires k < |a| && k < |b|
  {
    a[k] == b[k]
  }

  ghost predicate Continues<T>(a: seq<T>, b: seq<T>) {
    |a| <= |b| && forall k | 0 <= k < |a| :: SameAt(a, b, k)
  }

  /** Nothing is ever taken off a page. */
  ghost predicate Extends(a: Page, b: Page) {
    a == b || (Continues(a.receipts, b.receipts) && Continues(a.events, b.events) && Continues(a.history, b.history))
  }

  lemma ContinuesMeans<T>(a: seq<T>, b: seq<T>)
    ensures Continues(a, b) <==> a <= b
  {
    if Continues(a, b) {
      forall k | 0 <= k < |a| ensures a[k] == b[k] {
        assert SameAt(a, b, k);
      }
    }
  }

  lemma ExtendsMeans(a: Page, b: Page)
    ensures Extends(a, b) <==> a.receipts <= b.receipts && a.events <= b.events && a.history <= b.history
  {
    ContinuesMeans(a.receipts, b.receipts);
    ContinuesMeans(a.events, b.events);
    ContinuesMeans(a.history, b.history);
  }

  lemma ExtendsOn(a: Page, b: Page, c: Page)
    requires Extends(a, b) && Extends(b, c)
    ensures Extends(a, c)
  {
    ExtendsMeans(a, b);
    ExtendsMeans(b, c);
    ExtendsMeans(a, c);
  }

  /** Receipts and journal events on disk. `history` is what the sessions did so far. */
  class Ledger {
    const job: Job
    /** What others write into the state record between sessions is usable as well. */
    ghost const trusted: bool
    var receipts: seq<StageReceipt>
    var events: seq<JobEvent>
    ghost var history: seq<Entry>

    constructor (job: Job, ghost trusted: bool)
      ensures this.job == job && this.trusted == trusted && receipts == [] && events == [] && history == []
    {
      this.job, this.trusted := job, trusted;
      receipts, events, history := [], [], [];
    }

    ghost function Rec(): Records
      reads this
    {
      Records(receipts, events)
    }

    /** Nothing outside the sessions stops this job. */
    ghost predicate Unhindered() {
      trusted && Willing(job)
    }

    ghost predicate Valid()
      reads this
    {
      Sound(job, Rec(), history) && (Unhindered() ==> RecordsReady(Rec()))
    }

    /** What the records answer for stage `i`. */
    ghost function Answer(i: nat): Option<Settlement>
      requires i < |job.stages|
      reads this
    {
      Settled(job, Rec(), i)
    }

    /** Where the records lead before stage `i`. */
    ghost function Before(i: nat): Option<Position>
      requires i <= |job.stages|
      reads this
    {
      Replay(job, Rec(), i)
    }

    // The rest of what a session knows at a stage is promised to jobs that start with the build.

    ghost predicate AskedFrom(i: nat, pos: Position)
      requires i <= |job.stages|
      reads this
    {
      StartsWithBuild(job) ==> Asks(job, Rec(), i, pos)
    }

    /** A receipt of this stage, which is the answer of the records. */
    ghost predicate AnsweredBy(i: nat, s: Settlement)
      requires i < |job.stages|
      reads this
    {
      && s.stageKey.stageName == job.stages[i] && ReceiptFor(receipts, s.stageKey) == Some(s.receipt)
      && (StartsWithBuild(job) ==> Answer(i) == Some(s))
    }

    /** A stage that may run under this key, which no receipt answers. */
    ghost predicate Open(i: nat, pos: Position, key: StageKey)
      requires i < |job.stages|
      reads this
    {
      && key.stageName == job.stages[i] && ReceiptFor(receipts, key).None?
      && (StartsWithBuild(job) ==> MayRun(job, Rec(), i, pos, key))
    }

    /** The records lead up to stage `n` as they did. */
    twostate predicate Leads(n: nat)
      requires n <= |job.stages|
      reads this
    {
      StartsWithBuild(job) ==> LeadsAlike(job, old(Rec()), Rec(), n)
    }

    ghost function Now(): Page
      reads this
    {
      Page(receipts, events, history)
    }

    /** Nothing is ever taken off the disk. */
    twostate predicate Grew()
      reads this
    {
      Extends(old(Now()), Now())
    }

    method NextAttempt(stageName: string, key: StageKey) returns (next: nat)
      ensures next == NextNumber(Rec(), stageName, key)
    {
      var highest := 0;
      assert receipts[..|receipts|] == receipts && events[..|events|] == events;
      for i := 0 to |receipts|
        invariant highest == HighestReceipt(receipts[..i], stageName, key)
      {
        assert receipts[..i + 1][..i] == receipts[..i];
        if receipts[i].stageName == stageName && receipts[i].stageKey == key && highest < receipts[i].attempt {
          highest := receipts[i].attempt;
        }
      }
      ghost var fromReceipts := highest;
      for i := 0 to |events|
        invariant highest == Larger(fromReceipts, HighestStart(events[..i], stageName, key))
      {
        assert events[..i + 1][..i] == events[..i];
        var e := events[i];
        if e.StageStarted? && e.stageName == stageName && e.stageKey == key && highest < e.attempt {
          highest := e.attempt;
        }
      }
      next := highest + 1;
    }

    method FindFork(source: Digest, nextStage: Option<string>, reason: ForkReason) returns (fork: Option<ArtifactRef>)
      ensures fork == RecordedFork(events, source, nextStage, reason)
      ensures fork.Some? && ForksAreSnapshots(events) ==> IsSnapshotOf(fork.value, source)
    {
      RecordedIsThere(events, source, nextStage, reason);
      fork := None;
      var i := |events|;
      assert events[..i] == events;
      while i > 0 && fork.None?
        invariant 0 <= i <= |events|
        invariant RecordedFork(events, source, nextStage, reason) ==
                    if fork.Some? then fork else RecordedFork(events[..i], source, nextStage, reason)
      {
        i := i - 1;
        assert events[..i + 1][..i] == events[..i];
        var e := events[i];
        if e.ManifestForked? && e.source == source && e.nextStage == nextStage && e.reason == reason {
          fork := Some(e.fork);
        }
      }
    }

    /** The note of a reuse, which no lookup reads. */
    method NoteReuse(stageName: string, key: StageKey)
      requires Valid()
      modifies this`events
      ensures Grew()
      ensures Valid() && events == old(events) + [StageReused(stageName, key)]
      ensures Leads(|job.stages|)
    {
      ghost var before := Rec();
      var e := StageReused(stageName, key);
      NoteIsSound(events, e);
      NoteIsTraced(before, history, e);
      events := events + [e];
      if StartsWithBuild(job) {
        assert Silent(before, Rec());
        SilentKeepsCoherent(job, before, Rec(), history);
      }
      ExtendsMeans(old(Now()), Now());
    }

    /** A fork nobody recorded yet; with `reason` BeforeStage it is due before stage `i`, which nothing answers. */
    ghost predicate ForkDue(source: ArtifactRef, nextStage: Option<string>, reason: ForkReason, i: nat)
      reads this
    {
      && RecordedFork(events, source.digest, nextStage, reason).None?
      && (StartsWithBuild(job) && reason == BeforeStage ==>
            i < |job.stages| && nextStage == Some(job.stages[i]) && Answer(i).None?)
    }

    method LogFork(source: ArtifactRef, nextStage: Option<string>, reason: ForkReason, fork: ArtifactRef, ghost i: nat)
      requires Valid() && i <= |job.stages| && ForkDue(source, nextStage, reason, i)
      requires IsSnapshotOf(fork, source.digest) && (Unhindered() ==> Workable(fork))
      modifies this`events
      ensures Grew()
      ensures Valid() && events == old(events) + [ManifestForked(source.digest, nextStage, reason, fork)]
      ensures RecordedFork(events, source.digest, nextStage, reason) == Some(fork)
      ensures Leads(if reason == BeforeStage then i else |job.stages|)
    {
      ghost var before := Rec();
      var e := ManifestForked(source.digest, nextStage, reason, fork);
      NoteIsSound(events, e);
      NoteIsTraced(before, history, e);
      events := events + [e];
      RecordedForkAppend(before.events, e, source.digest, nextStage, reason);
      if StartsWithBuild(job) {
        ForkKeepsCoherent(before, e, i);
      }
      ExtendsMeans(old(Now()), Now());
    }

    lemma ForkKeepsCoherent(before: Records, e: JobEvent, i: nat)
      requires StartsWithBuild(job) && Coherent(job, before, history) && i <= |job.stages| && e.ManifestForked?
      requires Rec() == before.(events := before.events + [e])
      requires e.reason == BeforeStage ==>
                 i < |job.stages| && e.nextStage == Some(job.stages[i]) && Settled(job, before, i).None?
      ensures Coherent(job, Rec(), history)
      ensures LeadsAlike(job, before, Rec(), if e.reason == BeforeStage then i else |job.stages|)
    {
      if e.reason == BeforeStage {
        assert AppendsFor(before, Rec(), job.stages[i]);
        AppendKeepsCoherent(job, before, Rec(), history, i);
      } else {
        assert Silent(before, Rec());
        SilentKeepsCoherent(job, before, Rec(), history);
      }
    }

    /** The records answer the stage, and a session notices. */
    ghost method LogPass(i: nat, s: Settlement)
      requires Valid() && i < |job.stages| && AnsweredBy(i, s)
      modifies this`history
      ensures Grew()
      ensures Valid() && history == old(history) + [Passed(i, s.stageKey)]
    {
      PassKeepsSound(job, Rec(), history, i, s.stageKey);
      history := history + [Passed(i, s.stageKey)];
      ExtendsMeans(old(Now()), Now());
    }

    /** The attempt number is announced before the runner is called under it. */
    method Announce(i: nat, key: StageKey, attempt: nat, ghost pos: Position)
      requires Valid() && i < |job.stages| && Open(i, pos, key)
      requires NextNumber(Rec(), key.stageName, key) <= attempt
      modifies this`events, this`history
      ensures Grew()
      ensures Valid() && Open(i, pos, key)
      ensures events == old(events) + [StageStarted(key.stageName, key, attempt)]
      ensures history == old(history) + [Called(i, key, attempt)]
    {
      ghost var before := Rec();
      NextNumberIsNext(before, key.stageName, key);
      StartKeepsSound(job, before, history, i, key, attempt);
      events := events + [StageStarted(key.stageName, key, attempt)];
      history := history + [Called(i, key, attempt)];
      if StartsWithBuild(job) {
        StartedKeepsRunsUnder(job, before, Rec(), job.stages[i], pos, key);
      }
      ExtendsMeans(old(Now()), Now());
    }

    /** The receipt goes to disk; from then on the records answer the stage with it. */
    method RecordSuccess(i: nat, r: StageReceipt, ghost pos: Position)
      requires Valid() && i < |job.stages| && Open(i, pos, r.stageKey)
      requires r.succeeded && (StartsWithBuild(job) ==> r.outputs != []) && (Unhindered() ==> AllWorkable(r.outputs))
      modifies this`receipts, this`history
      ensures Grew()
      ensures Valid() && AskedFrom(i, pos)
      ensures receipts == old(receipts) + [r] && history == old(history) + [Passed(i, r.stageKey)]
      ensures StartsWithBuild(job) ==>
                Answer(i).Some? && Answer(i).value.stageKey == r.stageKey && Answer(i).value.receipt == r
    {
      SuccessKeepsSound(job, Rec(), history, i, pos, r);
      if StartsWithBuild(job) {
        SuccessAnswers(job, Rec(), history, i, pos, r);
      }
      receipts := receipts + [r];
      history := history + [Passed(i, r.stageKey)];
      ExtendsMeans(old(Now()), Now());
    }

    method RecordFailure(r: StageReceipt)
      requires Valid() && !r.succeeded
      modifies this`receipts
      ensures Grew()
      ensures Valid() && receipts == old(receipts) + [r]
    {
      ghost var before := Rec();
      NewKeyIsApart(receipts, r);
      FailureIsTraced(before, history, r);
      receipts := receipts + [r];
      if StartsWithBuild(job) {
        assert Silent(before, Rec());
        SilentKeepsCoherent(job, before, Rec(), history);
      }
      ExtendsMeans(old(Now()), Now());
    }
  }
}
