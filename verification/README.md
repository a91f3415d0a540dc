# qairt-agent: verified models of the orchestrator's bookkeeping

A Dafny model of the parts of qairt-agent that have to be right when processes crash, stall or race: the job journal
and the workflow worker over it, the immutable manifest store and the continuation protocol, the artifact graph and its
verification cache, the device lease with its collector, the content identity behind stage keys, and the kernels of
arithmetic and text around them. `dafny verify dfyconfig.toml` checks everything.

## How the model is laid out

| module | what it models |
|---|---|
| `Journal`, `JournalRuns` | the journal as a class; then any number of writers committing from stale snapshots, killed between any two writes |
| `Contracts`, `StageKeys` | references, manifests and receipts; the key a stage gets and what a fork does to it |
| `Worker`, `WorkerTurns`, `WorkerProgress` | what the records answer for a stage; what an undisturbed turn of the stage loop does, as a function; what decides between pass, copy and run, and when nothing stops a job |
| `WorkerLedger`, `WorkerSessions` | the persistent records and their appends; the worker's sessions write by write, with a budget of writes as the kill |
| `Resumption` | what a resumed session does for jobs outside the guarantee, with the exact conditions |
| `Ancestry` | the queue walk over a job's parents |
| `Manifests`, `Continuation` | the store under interleaved publishers; the optimistic continuation of one manifest by many callers |
| `ArtifactGraph` | the cached verification of one reference and the walk over all of them |
| `Leases`, `LeaseFiles`, `LeaseRecovery` | one device as a step system of holders and collectors; then the lease operations as methods, each proved to be a sequence of its actions; then recovery from every kind of failure |
| `ContentIdentity`, `InputReach`, `InputDigests` | the recursion over configuration values and files, with every question it asks the disk; what it depends on, said without it; the stated digests and what an identity says |
| `Retarget`, `RetargetConditions`, `CropPad`, `Tensors` | shape resolution, crop and pad on row-major data, position ids, and the per-AR check; when each of them succeeds |
| `Toml`, `Text` | the printer and the minimal parser of the project file |
| `DockerIgnore` | the managed block and its checker |
| `SplitPlan` | dealing decoder layers out to slices |
| `Sqnr`, `Diagnosis` | quality metrics over the reals; first errors and attribution |

A digest is the content it stands for, so equal digests mean equal content. Clocks are integers, metrics are reals.
A process dies between two steps by losing its private state and any lock it holds. Each file write, each critical
section that cannot be interrupted half-way, and each device command is one step; every finite sequence of steps is a
run, and a step that is not enabled changes nothing.

## Where the code and its promises differ

- `jobs/journal.py` says that `state.seq` always equals the last event number. A commit killed after its event file
  leaves the record behind, and the next one killed the same way leaves it further behind.
  `JournalRuns.SeqIsLastExactlyWhenNothingWasCut` gives the exact condition and `JournalRuns.LagIsUnbounded` a run for
  every distance.
- `append_event`, `set_state` and `record_receipt` read the record before they take the lock. A commit from an older
  snapshot drops receipts that others listed since from the record (`JournalRuns.StaleCommitUnlists`), exactly those
  its snapshot did not know (`JournalRuns.CommitKeepsListingExactlyWhen`); their files stay.
- `StageProvenance` in `contracts.py` says that a reuse needs the whole provenance to match. The key leaves out the host
  architecture and emulation, and takes a missing preset for an empty one (`StageKeys.KeysAgreeExactlyWhen`).
- `revise` does not ask where its parent was loaded from, so a revision can be published whose predecessor the store
  never held (`Manifests.CopiedParentLeavesGap`). One publish keeps every ancestry whole exactly when the parent is in
  the store under its own name (`Manifests.PublishKeepsGrounded`), and a whole run does exactly when every write of it
  found its parent there (`Manifests.EveryPublishedManifest`).
- Appending an artifact that matches two entries leaves two entries with one name or path; a list of additions avoids
  it at every step exactly when none of them does that (`Manifests.MergesKeepDistinct`).
- A warm verification cache does not look at the size a reference declares (`ArtifactGraph.WarmDiffersFromCold`). Its
  verdict differs from a cold one exactly for a misdeclared size behind an earlier accepted question
  (`ArtifactGraph.VerifyAll`).
- The graph walk does not look at the size a second reference to one path and hash declares, cache or no cache
  (`ArtifactGraph.WalkSkipsDeclaredSize`), and does not open a manifest it first met as an ordinary artifact
  (`ArtifactGraph.WalkMissesBehindOtherKind`); `ArtifactGraph.VerifyManifestGraph` says exactly what it vouches for.
- A job whose first stage is not the build can run that stage again after it passed
  (`Resumption.ContinuationRunsTwice`), exactly when the committed manifest does not stand for the input the stage was
  first asked with and no parent receipt answers for it (`Resumption.FirstStageRunsAgainExactlyWhen`). A job that starts with the build can run a later
  stage again when the runner lists its manifest before other artifacts (`Resumption.ListedManifestRunsTwice`), exactly
  when the last output of the receipt before it does not stand for the manifest and no other receipt answers
  (`Resumption.NextStageRunsAgainExactlyWhen`).
- A fork of a fork changes stage keys (`StageKeys.ForkKeepsKeys`), and is the only case in which the lookup after a fork
  can find a receipt that the lookup before it missed (`Worker.SnapshotsRelookup`).
- A holder whose heartbeat stalls past the limit can be evicted while it is still pushing files, and then leaves a
  directory no record points to (`Leases.StalledHolderLosesItsPointer`). The invariant survives a run exactly when no
  check of it evicts a live holder (`Leases.RunKeepsExactlyWhen`).
- A retargeted vector case with a scalar input or output is stored with one axis and refused by the validator of the
  same module (`Retarget.ScalarOutputIsRefused`), and exactly then (`Retarget.PublishedIsAccepted`).
- A list whose strings hold commas does not survive the project file (`Toml.ListRoundTrip`).

## Model

| member | source | states |
|---|---|---|
| `Journal.JobJournal.Create` | src/qairt_agent/jobs/journal.py:109-152 | a new journal has one event, number 1, a queued record carrying that number, and nothing else |
| `Journal.JobJournal.NextSeq` | src/qairt_agent/jobs/journal.py:242-245 | the returned number is one above every event file, whatever files exist, so no event is overwritten |
| `Journal.JobJournal.Commit` | src/qairt_agent/jobs/journal.py:247-288 | a terminal state never changes to another; otherwise the event and the record get the same fresh number, and a newer heartbeat already on disk survives an older target |
| `Journal.JobJournal.AppendEvent` | src/qairt_agent/jobs/journal.py:290-291 | commits the current record unchanged except for number and time |
| `Journal.JobJournal.SetState` | src/qairt_agent/jobs/journal.py:293-322 | refuses a record whose error and failed state disagree, and otherwise commits exactly the fields asked for |
| `Journal.JobJournal.RecordReceipt` | src/qairt_agent/jobs/journal.py:347-376 | the receipt file and the stage list gain the receipt in one commit |
| `Journal.JobJournal.TouchHeartbeat` | src/qairt_agent/jobs/journal.py:418-447 | a terminal job is left alone; otherwise file and record both carry the new time |
| `Journal.JobJournal.MarkOrphanedIfStale` | src/qairt_agent/jobs/journal.py:476-526 | a non-positive limit is refused for an in-flight job; otherwise exactly an in-flight job with a stale heartbeat becomes orphaned |
| `Journal.LastHeartbeat` | src/qairt_agent/jobs/journal.py:455-474 | the newest of the heartbeat file and the record's field |
| `Journal.JobJournal.Events` | src/qairt_agent/jobs/journal.py:324-337 | the answer holds exactly the events above the given number, each once, in rising order, whatever order the directory lists them in |
| `Journal.WindowIsTheAnswer` | src/qairt_agent/jobs/journal.py:324-337 | that answer is the contiguous window of the log from the given number on |
| `JournalRuns.StepKeeps` | src/qairt_agent/jobs/journal.py:247-288 | one step by any writer, from however old a snapshot, keeps event numbers 1..n, never rewrites an event or a receipt file, never leaves a terminal state, and keeps failed exactly with an error |
| `JournalRuns.RunKeeps` | src/qairt_agent/jobs/journal.py:247-447 | the same over any sequence of reads, receipt files, commits, heartbeats and kills by any number of writers |
| `JournalRuns.EveryRun` | src/qairt_agent/jobs/journal.py:247-376 | in every run from creation event numbers are 1..n, failed holds exactly with an error, the record trails the log by exactly the number of commits cut between their two writes since the last that finished, and every receipt the record lists has its file |
| `JournalRuns.WholeCommit` | src/qairt_agent/jobs/journal.py:247-288 | a commit nobody kills between its writes is the journal's own commit, and a refused one changes nothing |
| `JournalRuns.WholeRecord` | src/qairt_agent/jobs/journal.py:347-376 | the receipt file and its commit, undisturbed, are the journal's own call |
| `JournalRuns.CommitSays` | src/qairt_agent/jobs/journal.py:293-376 | what the record says after a commit, from however old a snapshot: the snapshot's receipts in order, the recorded one unless its attempt was listed, and every other field as asked for or as the snapshot had it |
| `JournalRuns.CommitKeepsListingExactlyWhen` | src/qairt_agent/jobs/journal.py:347-376 | a commit keeps every listed receipt listed exactly when its snapshot knew all of them but the one it records; the receipt files stay in any case |
| `JournalRuns.StaleCommitUnlists` | src/qairt_agent/jobs/journal.py:290-376 | a run in which a listed receipt drops out of the record |
| `JournalRuns.SeqIsLastExactlyWhenNothingWasCut` | src/qairt_agent/jobs/journal.py:16-18 | the documented claim that `state.seq` is the last event number holds if and only if no commit is between its writes and none was killed there since the last finished one |
| `JournalRuns.LagIsUnbounded` | src/qairt_agent/jobs/journal.py:247-288 | the claim fails by any margin: for every number there is a run that leaves the record that far behind the log |
| `JournalRuns.HeartbeatRollsBackOnlyByOlderTouch` | src/qairt_agent/jobs/journal.py:418-447 | the heartbeat field moves back exactly when a heartbeat writer with an older clock sample gets the lock later |
| `JournalRuns.WholeTouch` | src/qairt_agent/jobs/journal.py:418-447 | an undisturbed heartbeat of any writer is the journal's own, and leaves a final state alone |
| `JournalRuns.CancelIsKept` | src/qairt_agent/jobs/journal.py:528-540 | no commit, heartbeat or crash loses or invents a request to cancel |
| `JournalRuns.WatchSeesTheLog` | src/qairt_agent/jobs/journal.py:324-337 | polls resumed from the last number seen, with any run in between, concatenate to the log itself |
| `StageKeys.KeysAgreeExactlyWhen` | src/qairt_agent/jobs/worker.py:148-258 | two keys, of one job or two, are equal exactly when stage and provenance agree, the specs agree on the fields and the stage configuration this stage depends on, and, but for the build, the manifests have one identity |
| `StageKeys.KeyExistsExactlyWhen` | src/qairt_agent/jobs/worker.py:226-246 | a stage other than the build has no key exactly when its manifest is named as a run manifest but holds none, or is a fork of something that is no manifest |
| `StageKeys.SameIdentityExactlyWhen` | src/qairt_agent/jobs/worker.py:226-246 | two manifests have one identity exactly when they, or what they are forks of, have the same bytes |
| `StageKeys.KeysAgree` | src/qairt_agent/jobs/worker.py:195-258 | within one job two manifests give a stage the same key exactly when the stage is the build or their identities agree |
| `StageKeys.ForkKeepsKeys` | src/qairt_agent/jobs/worker.py:227-258 | forking keeps every stage key exactly when the source is not itself a fork snapshot; a fork of a fork re-keys every stage but the build |
| `Worker.SettledStays` | src/qairt_agent/jobs/worker.py:578-719 | work logged for a stage that no record answers cannot change which stages are answered, nor how |
| `Worker.SilentStays` | src/qairt_agent/jobs/worker.py:260-302 | reuse notes, started notes and failed receipts change no later lookup |
| `Worker.RecordedIsSettled` | src/qairt_agent/jobs/worker.py:396-406 | once a run's receipt is on disk every later session answers the stage with it and goes on with its last output |
| `Worker.ReuseIsSettled` | src/qairt_agent/jobs/worker.py:279-302 | a receipt copied from the parent job answers under the key it was looked up with |
| `Worker.ForkDecides` | src/qairt_agent/jobs/worker.py:624-649 | with no direct answer and a fork due, the records answer exactly through the recorded fork |
| `Worker.PassedKeysAreNotCalled` | src/qairt_agent/jobs/worker.py:578-719 | in a history that the records tell, no key is handed to the runner after a verified receipt has answered it |
| `Worker.SuccessAnswers` | src/qairt_agent/jobs/worker.py:684-706 | in a job that starts with the build, a success recorded under a key its stage may run under answers the stage from then on, with this receipt, and the history stays coherent |
| `Worker.SuccessKeepsSound` | src/qairt_agent/jobs/worker.py:684-706 | in every job, recording a success nobody had recorded keeps the records sound |
| `Worker.RecordedForkKeepsKeys` | src/qairt_agent/jobs/worker.py:226-258 | a recorded fork gives a later stage the key of its source exactly when the stage is the build or the source is not itself a fork snapshot |
| `Worker.SnapshotsRelookup` | src/qairt_agent/jobs/worker.py:624-649 | the lookup after a fork finds a receipt the lookup before it missed only when the manifest in hand was itself a fork snapshot |
| `Worker.FoundAgainExactlyWhen` | src/qairt_agent/jobs/worker.py:195-258 | a receipt recorded for a stage asked about with one manifest is found by a session holding another exactly when the stage is the build or both stand for one input |
| `WorkerTurns.NextNumberIsNext` | src/qairt_agent/jobs/worker.py:260-277 | the next attempt number is above every attempt of this stage key in receipts and started notes, and the number before it is one of them unless it is the first |
| `WorkerProgress.DecidedBy` | src/qairt_agent/jobs/worker.py:279-302 | without a fork due, a stage is passed exactly when the job holds a success of the same work (stage, provenance, relevant spec, input), else copied exactly when the parent job holds one, else handed to the runner; what is copied was made by that work |
| `WorkerProgress.TurnsGoOn` | src/qairt_agent/jobs/worker.py:578-719 | whatever its records hold already, a job nothing outside stops gets through all its turns: no cancellation, no failing fork, a runner that succeeds with usable manifests |
| `WorkerLedger.Ledger.NextAttempt` | src/qairt_agent/jobs/worker.py:260-277 | the two loops compute that number |
| `WorkerLedger.Ledger.FindFork` | src/qairt_agent/jobs/worker.py:441-454 | finds the most recent recorded fork of this source, next stage and reason, if there is one, and it is a snapshot of that source |
| `WorkerLedger.Ledger.Announce` | src/qairt_agent/jobs/worker.py:650-658 | a start under a fresh number keeps the records sound, the stage open and every answer as it was |
| `WorkerSessions.Workflow.ForkManifest` | src/qairt_agent/jobs/worker.py:408-521 | a fork already recorded is reused; otherwise one new snapshot is recorded; either way the answer is a revision-zero snapshot of the manifest asked about, and answered stages stay answered |
| `WorkerLedger.Ledger.RecordSuccess` | src/qairt_agent/jobs/worker.py:684-706 | appends exactly this receipt and its pass, after which the records answer the stage with it |
| `WorkerSessions.Workflow.RunStage` | src/qairt_agent/jobs/worker.py:650-719 | called under a key no receipt answers, a run either ends the session or, in a job that starts with the build, leaves the stage answered so that the records lead on from it |
| `WorkerSessions.Workflow.AnswerStage` | src/qairt_agent/jobs/worker.py:613-649 | pass, copy, fork or run, chosen as the lookups say; in a job that starts with the build, going on means the records answer the stage |
| `WorkerSessions.Workflow.DriveStage` | src/qairt_agent/jobs/worker.py:593-719 | in every job, a turn of the stage loop does, write by write, what the function `Turn` says of the same records, manifest and foreign answers, ends by itself only where `Turn` does, and is cut short only when its writes run out |
| `WorkerSessions.Workflow.DriveAll` | src/qairt_agent/jobs/worker.py:583-719 | in every job, a stage loop that reaches its end has made exactly the turns of the function `Turns` |
| `WorkerSessions.Workflow.RunClaimed` | src/qairt_agent/jobs/worker.py:578-725 | killed after any write the history stays sound; when it ends the job is terminal, and a success of a job that starts with the build has every stage answered and leaves with the manifest the records lead to |
| `WorkerSessions.Workflow.RunSession` | src/qairt_agent/jobs/worker.py:543-576 | a terminal job is untouched, a fresh in-flight one is refused, a stale one is resumed; a session is cut short only if it had at most nine writes per stage and nine more, and a willing job that ends has succeeded |
| `WorkerSessions.Lifetime` | src/qairt_agent/jobs/worker.py:543-725 | any number of sessions of any job, each killed after any number of writes, with the record's manifest and state rewritten in between by stale commits: attempts under a key never repeat, each fork is recorded once as a snapshot of its source, a lookup after a fork finds nothing new except for a fork of a fork, and the history is the records' own, its calls the announced starts in order and its passes the recorded successes; when the job starts with the build and its receipts end with the manifest, no stage runs again after it passed, and later passes use the same key; a job nothing outside stops has succeeded once its last session has writes enough, whatever killed the sessions before |
| `Resumption.FirstStageRunsAgainExactlyWhen` | src/qairt_agent/jobs/worker.py:583-719 | for any job: a first stage that was run, passed and committed is handed to the runner again by the next session exactly when it is not the build, the committed manifest does not stand for the input it was first asked with, and no parent receipt answers |
| `Resumption.ContinuationRunsTwice` | src/qairt_agent/jobs/worker.py:583-719 | two sessions of a job with an initial manifest, in which the stage is called after it was passed |
| `Resumption.ResumedGoesOnAlikeExactlyWhen` | src/qairt_agent/jobs/worker.py:396-406 | a resumed session goes on from a receipt as the session that wrote it did exactly when the receipt ends with the returned manifest |
| `Resumption.NextStageRunsAgainExactlyWhen` | src/qairt_agent/jobs/worker.py:613-719 | for any job and stage: after a session has run this stage and the next, a session that comes back to this stage with the same manifest passes it, and calls the next one again exactly when that is not the build, the receipt's last output does not stand for what the first session went on with, and no other receipt answers for it |
| `Resumption.HandedOnAlikeExactlyWhen` | src/qairt_agent/jobs/worker.py:396-406 | a receipt hands on what its session went on with exactly when the runner returned no manifest or the receipt ends with it |
| `Resumption.SecondStageRunsAgainExactlyWhen` | src/qairt_agent/jobs/worker.py:613-719 | its instance for a build and one more stage with fixed outcomes, where all four turns are shown to happen |
| `Resumption.ListedManifestRunsTwice` | src/qairt_agent/jobs/worker.py:396-406 | two such sessions of a job that starts with the build |
| `Ancestry.HasVerifiedAncestorBuild` | src/qairt_agent/jobs/worker.py:318-353 | true exactly when the job, the job it reuses from or one of their ancestors holds a verified build under the key, and the queue ends on cyclic parent links too |
| `Manifests.MergeInPlace` | src/qairt_agent/artifacts.py:398-419 | the in-place loop computes the merge |
| `Manifests.MergeKeepsDistinct` | src/qairt_agent/artifacts.py:398-419 | one addition keeps names and paths unique exactly when it does not match two entries |
| `Manifests.MergesKeepDistinct` | src/qairt_agent/artifacts.py:398-419 | a whole list of additions keeps them unique at every step exactly when none of them matches two entries when its turn comes |
| `Manifests.MergeLosesNothing` | src/qairt_agent/artifacts.py:398-419 | the last addition and every entry no addition matched are in the merged list, nothing comes from elsewhere, and the list never shrinks |
| `Manifests.LastingAdditionsStay` | src/qairt_agent/artifacts.py:398-419 | every addition that no later one replaces is in the merged list |
| `Manifests.RevisedHolds` | src/qairt_agent/artifacts.py:421-447 | the next revision has its parent's identity, spec and creation time, one stage more, every lasting addition, every artifact no addition replaces, and nothing else |
| `Manifests.PublishesExactlyWhen` | src/qairt_agent/artifacts.py:273-514 | in a good store each builder's manifest is published exactly when no other manifest holds its run and revision, and a revision can be built exactly when the parent does not record the stage's name and attempt |
| `Manifests.RevisedIsPublishable` | src/qairt_agent/artifacts.py:421-447 | what `revise` builds is the next revision, extends its parent's stages and keeps build spec and creation time |
| `Manifests.PublishKeepsStore` | src/qairt_agent/artifacts.py:273-312 | one publish keeps one manifest per revision and every file well linked |
| `Manifests.AncestryIsPresent` | src/qairt_agent/artifacts.py:273-312 | in a good store a manifest whose links go through the store's own paths has r-1 down to 0 of the same run beside it |
| `Manifests.GroundedExactlyWhen` | src/qairt_agent/artifacts.py:273-312 | every manifest of a good store has its whole ancestry beside it exactly when every direct parent is there under its own name |
| `Manifests.PublishKeepsGrounded` | src/qairt_agent/artifacts.py:273-312 | one publish into a store of whole ancestries keeps them whole exactly when the parent it names is there under its own name, which a caller can look up first |
| `Manifests.AncestorsArePrefixes` | src/qairt_agent/artifacts.py:421-447 | the stages of every ancestor reached by revising are a prefix, under one build spec and creation time |
| `Manifests.RunKeeps` | src/qairt_agent/artifacts.py:273-312 | in every interleaving of check and write phases by any number of publishers: one manifest per revision, none ever changed |
| `Manifests.EveryPublishedManifest` | src/qairt_agent/artifacts.py:273-312 | in every interleaving there is one manifest per revision, and all ancestries are whole at every moment of the run exactly when every write found its parent in the store under the parent's own name |
| `Manifests.GroundedAtTheEnd` | src/qairt_agent/artifacts.py:273-312 | in whatever state a run is left, the ancestries are whole exactly when every direct parent is there |
| `Manifests.CopiedParentLeavesGap` | src/qairt_agent/artifacts.py:421-447 | a run in which, through a copy kept elsewhere, a revision appears whose predecessor the store never held |
| `Manifests.ForkAddsNoEdge` | src/qairt_agent/artifacts.py:449-514 | whatever other publishers do between its check and its write, a fork adds one revision-zero manifest of a new run, without a parent, and leaves every other file as it was |
| `Manifests.KilledWriterIsReplaced` | src/qairt_agent/artifacts.py:273-312 | a publisher that dies between its check and its write leaves nothing behind, and another takes its place |
| `Manifests.ManifestStore.Publish` | src/qairt_agent/artifacts.py:273-312 | checks parent and conflicts as listed, then writes exactly one file |
| `Manifests.ManifestStore.Revise` | src/qairt_agent/artifacts.py:421-447 | publishes the next revision of the loaded parent, or fails without writing |
| `Manifests.ManifestStore.ForkSnapshot` | src/qairt_agent/artifacts.py:449-514 | publishes a revision-zero snapshot of a stored source whose whole graph verified, or fails without writing |
| `Manifests.ManifestStore.FindConflict` | src/qairt_agent/artifacts.py:273-312 | finds another manifest of the same run and revision exactly when there is one |
| `Continuation.FindPublishedChild` | src/qairt_agent/pipeline.py:543-573 | the directory scan returns the one child of the parent, nothing when there is none, a conflict when there are several |
| `Continuation.StepKeeps` | src/qairt_agent/pipeline.py:737-895 | every atomic step of every caller, and of other publishers that create, fork or revise, keeps the store and what each caller knows |
| `Continuation.RunKeeps` | src/qairt_agent/pipeline.py:737-895 | the same over every interleaving of any number of callers, with faults and crashes |
| `Continuation.OneChildForever` | src/qairt_agent/pipeline.py:543-573 | a parent never has two children, and the child it has stays |
| `Continuation.EveryCallerReturnsTheChild` | src/qairt_agent/pipeline.py:575-606 | whatever faults it met, a caller that does not return an error of its own returns the one child: success exactly if the child's last stage has its name and key and succeeded, its failure only if it has them and failed, otherwise a conflict; without a fault there is no such error |
| `Continuation.SucceededOperation` | src/qairt_agent/pipeline.py:820-872 | in every run, a caller that found no child and whose operation succeeds publishes the one child if nobody has by then, with the stage recorded as succeeded with its outputs and holding its artifacts, and returns it; if somebody has, it returns that child when it is a success of the same stage and else a conflict |
| `Continuation.FailedOperation` | src/qairt_agent/pipeline.py:872-930 | the same for an operation that fails: a failure revision without outputs, or whatever result the child holds of the same stage |
| `Continuation.ChildIsTakenOver` | src/qairt_agent/pipeline.py:774-803 | a caller whose parent already has a child returns its success or its failure when it is of the same stage, else a conflict, and writes nothing |
| `Continuation.OnlyTroubleFaults` | src/qairt_agent/pipeline.py:737-930 | in every run a caller that met no unreadable file, no unverifiable child, no failing write and no attempt recorded before returns no error of its own and raises nothing |
| `Continuation.EverySessionEnds` | src/qairt_agent/pipeline.py:737-930 | a caller that takes its steps in order ends, whatever it meets and whatever others do in between |
| `Continuation.FailureAfterLostWrite` | src/qairt_agent/pipeline.py:845-900 | a write that fails before its rename leads to a published failure revision |
| `Continuation.SuccessAfterRenamedWrite` | src/qairt_agent/pipeline.py:872-918 | a write that fails after its rename has published: the caller's failure loses to its own success, which it returns |
| `Continuation.OutsiderPublishes` | src/qairt_agent/pipeline.py:683-735 | a publisher outside this operation that revises the parent takes the place of its child |
| `Continuation.KilledStaysSilent` | src/qairt_agent/pipeline.py:737-930 | a killed caller changes nothing afterwards |
| `Continuation.LosersPublishNothing` | src/qairt_agent/pipeline.py:630-657 | none of the actions of a caller whose stage is not the child's has changed the store, and it ends in a conflict or an error |
| `ArtifactGraph.VerificationCache.VerifyArtifact` | src/qairt_agent/artifacts.py:138-169 | a hit skips exactly the check of the reference's own size; every other verdict is the uncached one |
| `ArtifactGraph.VerifyAll` | src/qairt_agent/artifacts.py:138-169 | over any history of verifications and changing files, when stat identity fixes bytes, a verdict differs from a cold start's exactly when an earlier accepted question filled its key and the file does not have the size asked for |
| `ArtifactGraph.WarmEqualsCold` | src/qairt_agent/artifacts.py:138-169 | so the warm cache answers as a cold one when references to one path and hash agree on size |
| `ArtifactGraph.WarmDiffersFromCold` | src/qairt_agent/artifacts.py:138-169 | two references to one path and hash with different declared sizes, which a cold start tells apart and a warm cache does not |
| `ArtifactGraph.NestedMeans` | src/qairt_agent/artifacts.py:544-550 | the walk goes into exactly the parent, the artifacts and the inputs and outputs of the stages of a manifest |
| `ArtifactGraph.ClosureCovers` | src/qairt_agent/artifacts.py:517-553 | when path and hash fix the kind, a finished walk has seen everything reachable from what it has seen |
| `ArtifactGraph.VerifyManifestGraph` | src/qairt_agent/artifacts.py:517-553 | when path and hash fix the kind, returns exactly the references reachable through parents, artifacts, stage inputs and outputs, each once and without the root; every one of them is on the disk with its digest, and exactly those that declare another size than the file has go unverified; when path and hash fix the size too, it succeeds exactly on good graphs |
| `ArtifactGraph.WalkSkipsDeclaredSize` | src/qairt_agent/artifacts.py:517-553 | a graph that passes although a reachable reference declares a wrong size |
| `ArtifactGraph.WalkMissesBehindOtherKind` | src/qairt_agent/artifacts.py:517-553 | a graph whose listing has a gap because one path and hash appear under two kinds |
| `Leases.RunKeepsFiles` | src/qairt_agent/device/lease.py:428-586 | in every interleaving of holders and collectors, stalled or not: one owner record, the lock holder is inside its own critical section, tokens are never shared |
| `Leases.OwnerChangesOnlyBy` | src/qairt_agent/device/lease.py:553-586 | in every run the owner record changes only by its own holder's replacement under the token check, and disappears only by its holder with no directories listed or by a collector holding the lock on exactly this content |
| `Leases.EvictionIsJustified` | src/qairt_agent/device/doctor.py:355-446 | in every run, a collector that removes an owner record had scanned this very record overdue, later found it unchanged and still overdue with the lock free, held it locked and untouched ever since, and had every directory it lists removed |
| `Leases.RemovalIsExclusive` | src/qairt_agent/device/doctor.py:355-446 | from then on nobody else can change or remove that record |
| `Leases.StaleExactlyWhen` | src/qairt_agent/device/lease.py:256-290 | with a heartbeat file a record is stale exactly when the heartbeat is older than the limit and, if the record states an interval, older than three of them or than 180 seconds; without one, when the record is older than the grace |
| `Leases.StaleMeansNobodyLive` | src/qairt_agent/device/lease.py:256-290 | when every live heartbeat is no older than the limit, or than three intervals and 180 seconds, a record stale under the lock belongs to no live holder |
| `Leases.CheckBreaksExactlyWhen` | src/qairt_agent/device/doctor.py:355-387 | from a good state a check breaks the invariant exactly when it evicts a live holder |
| `Leases.RunKeepsExactlyWhen` | src/qairt_agent/device/doctor.py:355-446 | the full invariant holds throughout a run exactly when none of its checks evicts a live holder |
| `Leases.FreshRunSpares` | src/qairt_agent/device/runtime.py:172-223 | a run in which no check meets an overdue live holder evicts none |
| `Leases.FreshRunKeeps` | src/qairt_agent/device/runtime.py:172-223 | the full invariant after every run in which no check meets an overdue live holder |
| `Leases.BeatingRunIsFresh` | src/qairt_agent/device/lease.py:256-290 | a run in which every live holder has beaten within that time before each check evicts none |
| `Leases.NothingIsLost` | src/qairt_agent/device/runtime.py:172-223 | in every run that evicts no live holder, every remote attempt directory is listed in the owner record; without a record there is none |
| `Leases.OneLiveHolder` | src/qairt_agent/device/lease.py:428-586 | in such a run there is at most one live holder, and the owner record is its own |
| `Leases.CollectionLeavesNothing` | src/qairt_agent/device/doctor.py:415-446 | in such a run a completed collection leaves neither record nor directory |
| `Leases.StalledHolderLosesItsPointer` | src/qairt_agent/device/doctor.py:415-446 | without fresh heartbeats a reachable run leaves a directory on the device with no record of it |
| `LeaseFiles.LeaseDirectory.Acquire` | src/qairt_agent/device/lease.py:428-517 | takes the lease exactly when there is no record and the sidecar reports in; otherwise the record is as before |
| `LeaseFiles.LeaseDirectory.RecordAttempt` | src/qairt_agent/device/lease.py:593-617 | adds the directory to the record exactly when the token is still ours |
| `LeaseFiles.LeaseDirectory.ForgetAttempt` | src/qairt_agent/device/lease.py:619-640 | removes the directory from the record exactly when the token is still ours |
| `LeaseFiles.LeaseDirectory.ReleaseLease` | src/qairt_agent/device/lease.py:519-551 | removes only an empty record of this token and keeps one that still lists directories, with its heartbeat |
| `LeaseFiles.LeaseDirectory.StageAttempt` | src/qairt_agent/device/adb.py:396-448 | the directory is gone exactly when its removal was confirmed |
| `LeaseFiles.LeaseDirectory.Stage` | src/qairt_agent/device/runtime.py:172-223 | the four endings of an undisturbed session and the record, heartbeat and directory each leaves behind |
| `LeaseFiles.ProgramsAreRuns` | src/qairt_agent/device/lease.py:428-640 | whatever the lease methods are put together to, the files are those of a run of the step system, so everything proved of all runs holds |
| `LeaseFiles.LeaseDirectory.Collect` | src/qairt_agent/device/doctor.py:350-446 | collects exactly when the record is the scanned one, still stale, and no removal fails; otherwise record and heartbeat stay and directories that failed stay listed |
| `LeaseRecovery.CollectionClears` | src/qairt_agent/device/doctor.py:355-446 | one undisturbed collection of an overdue record that lists every directory leaves no record, no directory and a free lock |
| `LeaseRecovery.CrashedHolderIsCollected` | src/qairt_agent/device/doctor.py:355-446 | in every run that evicts no live holder, a holder that dies, even with the lock in hand, is recovered from by waiting and one collection |
| `LeaseRecovery.CrashedCollectorIsReplaced` | src/qairt_agent/device/doctor.py:355-446 | so is a collector that dies in the middle of a removal |
| `LeaseRecovery.FailedCollectionIsTakenUp` | src/qairt_agent/device/doctor.py:415-446 | so is a collection in which the device refuses to remove a directory |
| `LeaseRecovery.EarlyEndIsRecovered` | src/qairt_agent/device/runtime.py:172-223 | a session that ends early and releases leaves a cleared device, or its record, which a later collection clears |
| `ContentIdentity.IdentityTellsDisksApart` | src/qairt_agent/jobs/keys.py:334-442 | for one configuration two disks give the same identity exactly when they give the same answer to every question the walk asked: kinds, bytes, directory entries, existence |
| `ContentIdentity.IdentityIsLocal` | src/qairt_agent/jobs/keys.py:334-442 | nothing outside what was asked matters, failures and their order included |
| `ContentIdentity.FileWalk` | src/qairt_agent/jobs/keys.py:238-293 | ends on cyclic references: the files not yet being walked strictly shrink; lists no SDK directory |
| `ContentIdentity.ContentWalk` | src/qairt_agent/jobs/keys.py:334-424 | ends on every value and file graph; lists no SDK directory |
| `ContentIdentity.DirectoryAlike` | src/qairt_agent/jobs/keys.py:159-214 | a directory identity fixes the relative paths, bytes and link targets the walk found, and nothing else matters |
| `ContentIdentity.RootsFindTheTree` | src/qairt_agent/jobs/keys.py:178-207 | visiting directory by directory finds what the recursive walk finds, in the same order, with cache directories pruned |
| `ContentIdentity.DirectoryEntries` | src/qairt_agent/jobs/keys.py:177-207 | the nested loops list exactly the entries of that walk |
| `ContentIdentity.SuffixMeans` | src/qairt_agent/jobs/keys.py:181-186 | an extension is what the last dot of a name begins, unless that is its first or last character |
| `InputReach.IdentityShowsInputs` | src/qairt_agent/jobs/keys.py:334-442 | two disks give a configuration the same identity exactly when every place it mentions, or a file reached from it refers to, looks the same on both |
| `InputReach.OnlyInputsMatter` | src/qairt_agent/jobs/keys.py:334-442 | what is not reached does not matter, failures included |
| `InputReach.ChangedFileShows` | src/qairt_agent/jobs/keys.py:238-293 | a file read on one disk, named in the configuration, in a manifest or as external data of a model, changes the identity when the other disk lacks it or has other bytes |
| `InputReach.TreeFoundMeans` | src/qairt_agent/jobs/keys.py:159-207 | a directory's lines are exactly those of the wanted files and links under no pruned directory, at any depth |
| `InputReach.ChangedEntryShows` | src/qairt_agent/jobs/keys.py:159-214 | an entry of a listed directory that the other disk lacks or has with other bytes changes the identity |
| `InputReach.LooksLikeSdkMeans` | src/qairt_agent/jobs/keys.py:117-128 | a directory counts as an SDK exactly when `sdk.yaml` lies in it or in a subdirectory of its `qairt` |
| `InputDigests.ExpectedShaMeans` | src/qairt_agent/jobs/keys.py:222-235 | the digest expected of a field is the 64 hexadecimal characters stated beside it, under the names the source looks for |
| `InputDigests.IdentityExistsExactlyWhen` | src/qairt_agent/jobs/keys.py:238-424 | a configuration has an identity exactly when everything it leads to can be read, external data is there and every digest stated beside a mention is the digest of what is found |
| `InputDigests.DigestsHold` | src/qairt_agent/jobs/keys.py:144-156 | so no file of a configuration with an identity contradicts the digest stated beside it |
| `InputDigests.IdentityTellsConfigurationsApart` | src/qairt_agent/jobs/keys.py:334-442 | on one disk two configurations have the same identity exactly when they hold the same words and name the same places in the same positions |
| `Retarget.ResolveTargetShape` | src/qairt_agent/vector_retarget.py:341-416 | the loop resolves every axis by the listed rules or fails at the first axis that has none |
| `Retarget.ResolutionIsFixed` | src/qairt_agent/vector_retarget.py:341-416 | a resolved shape resolves to itself, whatever source it came from |
| `Retarget.ResolvedMeans` | src/qairt_agent/vector_retarget.py:341-416 | declared sizes are kept, AR and CL appear where they are named, the sequence axis proves AR, and any other size is the source's or one |
| `RetargetConditions.ResolvesExactlyWhen` | src/qairt_agent/vector_retarget.py:341-416 | a graph input resolves to a shape exactly when every dimension determines the size, every size is positive and the AR is where the role proves it |
| `RetargetConditions.TransformsExactlyWhen` | src/qairt_agent/vector_retarget.py:640-783 | an input can be fitted exactly when it has such a shape and can be filled: a castable source with enough in it, positions within the dtype, or a role that needs no source |
| `RetargetConditions.RetargetsExactlyWhen` | src/qairt_agent/vector_retarget.py:640-851 | a case is retargeted exactly when the family may be, every graph input can be fitted, and the target graph runs on the fitted inputs |
| `RetargetConditions.AcceptedExactlyWhen` | src/qairt_agent/vector_retarget.py:552-637 | a provided manifest is accepted exactly when family, AR, CL and metadata agree, it holds every graph input as declared and no other unless allowed, and every golden is a declared output that fits |
| `Retarget.AcceptedMeans` | src/qairt_agent/vector_retarget.py:552-637 | an accepted manifest holds exactly the graph's inputs, each with its dtype and a shape that resolves to itself, and only outputs that fit |
| `Retarget.TransformFits` | src/qairt_agent/vector_retarget.py:693-783 | a transformed input has the graph's dtype and the resolved shape, a provided scalar with one axis; its shape resolves to itself exactly when it is no such scalar |
| `Retarget.TransformedAt` | src/qairt_agent/vector_retarget.py:434-458 | a transformed input holds the source's entry where there is one and zero elsewhere; a scalar keeps its value |
| `Retarget.TransformedPositions` | src/qairt_agent/vector_retarget.py:461-481 | rebuilt positions count up from the source's first one along the last axis and stay in the dtype's range |
| `Retarget.PublishedMeans` | src/qairt_agent/vector_retarget.py:640-851 | what `RetargetManifest` publishes: the canonical family with this AR and CL, exactly the graph's inputs, each with its dtype, resolved shape and, entry by entry, the source's value, zero or the rebuilt position; and goldens captured from the target graph on these inputs |
| `Retarget.PublishedIsAccepted` | src/qairt_agent/vector_retarget.py:552-851 | what retargeting publishes without extra inputs is accepted by the per-AR check exactly when the graph declares no scalar input or output; a scalar is stored with one axis and fails the rank comparison |
| `Retarget.ScalarOutputIsRefused` | src/qairt_agent/vector_retarget.py:552-851 | a call in good order, with a capture that fits, whose result is refused |
| `Retarget.StoredInputPasses` | src/qairt_agent/vectors.py:55-67 | the same exact condition for one input: storing makes the array contiguous, which gives a scalar one axis |
| `CropPad.CroppedAt` | src/qairt_agent/vector_retarget.py:434-458 | for every rank and index: the source value inside the source, zero outside |
| `CropPad.AtIsOffset` | src/qairt_agent/vector_retarget.py:434-458 | indices and row-major positions agree |
| `CropPad.CropsCompose` | src/qairt_agent/vector_retarget.py:434-458 | going through a middle shape equals going straight to the target when every middle axis is at least the smaller of source and target |
| `CropPad.PositionAt` | src/qairt_agent/vector_retarget.py:461-481 | position ids count along the last axis and repeat along the others |
| `CropPad.FirstPositionIsStart` | src/qairt_agent/vector_retarget.py:461-481 | the first entry is the first position |
| `CropPad.PositionsStayInRange` | src/qairt_agent/vector_retarget.py:461-481 | no position lies outside the range that was checked against the dtype |
| `Toml.EscapeRoundTrip` | src/qairt_agent/project.py:78-85 | the two global unescape replacements undo the two escape replacements on every string |
| `Toml.ScalarRoundTrip` | src/qairt_agent/project.py:78-128 | every printed boolean, integer and string is read back as itself |
| `Toml.ListRoundTrip` | src/qairt_agent/project.py:115-120 | a flat list is read back exactly when none of its strings holds a comma |
| `Toml.DocumentRoundTrip` | src/qairt_agent/project.py:68-112 | a printed document is read back table by table, under the key and name conditions stated |
| `Toml.Dump` | src/qairt_agent/project.py:68-75 | the printing loops produce the document's lines with the last blank stripped |
| `Toml.Load` | src/qairt_agent/project.py:97-112 | the parsing loop folds the lines into tables |
| `Toml.DumpThenLoad` | src/qairt_agent/project.py:68-112 | printing and then parsing gives back every table |
| `Toml.IntRoundTrip` | src/qairt_agent/project.py:125-128 | every integer, negative ones included, is read back as itself |
| `Text.SplitTerminated` | src/qairt_agent/project.py:97-100 | splitting lines that were joined with line feeds gives the lines back |
| `Text.SplitAnyTerminated` | src/qairt_agent/project.py:97-100 | the same with line feeds and carriage returns before them in any mixture |
| `Toml.PlusIsRead` | src/qairt_agent/project.py:125-128 | a plus sign before digits is read over |
| `DockerIgnore.Merge` | src/qairt_agent/worker_scaffold.py:139-170 | keeps the user's lines, appends one managed block and writes only when the text changes |
| `DockerIgnore.MergeIsIdempotent` | src/qairt_agent/worker_scaffold.py:139-170 | merging twice is merging once, on every text |
| `DockerIgnore.MergeKeepsOwnLines` | src/qairt_agent/worker_scaffold.py:139-170 | every line outside managed blocks survives in order apart from trailing blanks, and exactly one managed block ends the file |
| `DockerIgnore.IssuesMean` | src/qairt_agent/worker_scaffold.py:236-263 | the block is reported missing exactly when a marker never occurs, not last exactly when the text does not end with the end marker, and the patterns reported are exactly those no line between the last markers repeats, in order |
| `DockerIgnore.SilentExactlyWhen` | src/qairt_agent/worker_scaffold.py:236-263 | the checker is silent if and only if the file ends in a block that opens last and lists every pattern |
| `DockerIgnore.MergedTextPassesTheCheck` | src/qairt_agent/worker_scaffold.py:139-170 | a merged text never raises an issue |
| `DockerIgnore.ManagedBlockIsSafe` | src/qairt_agent/worker_scaffold.py:139-264 | both for the repository's own markers and patterns |
| `SplitPlan.Build` | src/qairt_agent/families/split_plan.py:104-154 | refuses exactly requests without layers, without slices or with more slices than layers to deal, and otherwise returns a plan of the stated shape |
| `SplitPlan.SlicesPartitionLayers` | src/qairt_agent/families/split_plan.py:104-154 | every layer has exactly one owner and nothing outside the model is owned |
| `SplitPlan.SizesAreBalanced` | src/qairt_agent/families/split_plan.py:124-128 | decoder sizes differ by at most one, larger first, none empty |
| `SplitPlan.SharesAddUp` | src/qairt_agent/families/split_plan.py:124-141 | the decoders' shares add up to the layers they split |
| `SplitPlan.NamesSortInOrder` | src/qairt_agent/families/split_plan.py:126-133 | zero-padded decoder names are distinct and sort as text in numeric order |
| `SplitPlan.NamesArePadded` | src/qairt_agent/families/split_plan.py:126-133 | every decoder name ends with its number in digits of one length, at least two |
| `SplitPlan.FoldedHeadLayer` | src/qairt_agent/families/split_plan.py:61-68 | the search finds the last layer exactly when the head is split off |
| `SplitPlan.BoundariesCoverModel` | src/qairt_agent/families/sku.py:67-79 | the captured boundaries chain from the first layer to the last |
| `Sqnr.CauchySchwarz` | src/qairt_agent/diagnostics/sqnr.py:150-154 | the squared dot product never exceeds the product of the energies |
| `Sqnr.ClampNeverActs` | src/qairt_agent/diagnostics/sqnr.py:150-154 | for tensors with energy the cosine is the quotient itself, between -1 and 1 |
| `Sqnr.NoNoiseMeansEqual` | src/qairt_agent/diagnostics/sqnr.py:59-69 | noise is zero exactly when the tensors are equal |
| `Sqnr.NoiseBounds` | src/qairt_agent/diagnostics/sqnr.py:111-163 | max_abs_error squared <= noise <= n times max_abs_error squared |
| `Sqnr.RmseMeans` | src/qairt_agent/diagnostics/sqnr.py:161-162 | the rmse is the root of the mean noise and never exceeds max_abs_error |
| `Sqnr.StatusMeans` | src/qairt_agent/diagnostics/sqnr.py:136-144 | status exact is exactly infinite SQNR and exactly equal tensors above the floor; undefined is exactly undefined SQNR |
| `Sqnr.RatioMeans` | src/qairt_agent/diagnostics/sqnr.py:59-70 | a measured ratio is positive and multiplies the noise back to the reference energy |
| `Sqnr.NormalizedMeans` | src/qairt_agent/diagnostics/sqnr.py:136-144 | the normalized error squared times the reference energy is the noise |
| `Sqnr.QualityIsConsistent` | src/qairt_agent/diagnostics/sqnr.py:117-164 | the numbers of one report fit each other: zero error energy exactly for equal tensors, energy between the squared largest error and n times it and equal to n times the squared rmse, rmse at most the largest error, cosine between -1 and 1 |
| `Sqnr.SameSqnrEitherWay` | src/qairt_agent/diagnostics/sqnr.py:59-132 | both entry points accept the same pairs and give the same SQNR |
| `Sqnr.ComparesExactlyWhen` | src/qairt_agent/diagnostics/sqnr.py:14-34 | both entry points succeed exactly for two tensors of one shape with something in it and a floor of at least zero |
| `Diagnosis.DiagnoseSlices` | src/qairt_agent/diagnostics/sqnr.py:331-404 | the nested loops observe every tap in order, stop at the first fault and keep the first error of each run |
| `Diagnosis.ReportExistsExactlyWhen` | src/qairt_agent/diagnostics/sqnr.py:331-404 | there is a report exactly when every run that was given recorded a comparable output at every tap |
| `Diagnosis.FirstErrorIsFirstDivergence` | src/qairt_agent/diagnostics/sqnr.py:388-391 | the first error reported is the first tap whose recorded output is not the reference, and none exactly when all are |
| `Diagnosis.ReportNamesFirstDivergences` | src/qairt_agent/diagnostics/sqnr.py:331-404 | with the tensor comparison itself, a report names exactly the first diverging tap of each run |
| `Diagnosis.LabelMeans` | src/qairt_agent/diagnostics/sqnr.py:253-280 | the label says exactly which run differs from the reference, and the sign of the difference which is worse |

## Left out

- WorkerSessions.Workflow.RunSession: receipts are taken as verified when they are on disk; a damaged artifact that makes the parent's receipt unusable is not modelled.
- WorkerSessions.Lifetime: that no stage runs again is promised to jobs that start with the build and whose receipts end with the manifest; for other jobs `Resumption` states when a resumed turn runs a stage again.
- StageKeys.KeysAgreeExactlyWhen: every value in the spec stands for its content identity, which `ContentIdentity` models on its own.
- Continuation.SucceededOperation: a stage record's inputs are its parent manifest alone; input files named in the stage configuration, metrics and times are not recorded.
- Continuation.RunKeeps: parents are named by their path in the store; callers and publishers that revise a copy kept elsewhere are not modelled.
- Leases.RunKeepsExactlyWhen: records that are not valid JSON, records older than the heartbeat scheme, a collector's dry run and a device that does not match the configured one are not modelled; nor is a device command that still runs after its process died.
- LeaseFiles.LeaseDirectory.Stage: describes a session nobody interrupts; interleavings are the business of `Leases`.
- LeaseFiles.LeaseDirectory.Collect: one candidate and one directory listing in a given order without repeats.
- ContentIdentity.IdentityTellsDisksApart: set values, model objects and enumerations are not modelled; paths resolve by a fixed function, so a symbolic link is only seen inside a listed directory; an `sdk.yaml` that is itself a link does not mark an SDK directory; reading errors other than absence are not modelled.
- Retarget.PublishedIsAccepted: names, symbolic dimensions, families and safe casts are arbitrary tables; the manifest's files are written and read back unchanged apart from the axis a scalar gains; captured outputs are assumed to fit what the graph declares; preserved extra inputs are not modelled, and the audit record of each transform is not kept.
- Retarget.PublishedMeans: the ONNX Runtime session is an arbitrary function that may fail.
- Toml.Parse: integers are read with ASCII digits, sign and single underscores; other Unicode digits count as text.
- Toml.DocumentRoundTrip: nested lists are outside the flat subset.
- DockerIgnore.Check: the issues about the Dockerfile, the dependency lock and the source archive are not modelled.
- Toml.Print: values other than booleans, integers, strings and lists, which the printer quotes as text, are not modelled.
- Sqnr.RatioMeans: object and complex tensors are refused by the original and not modelled; decibels are represented by the ratio under the logarithm; rounding, overflow, NaN and infinities do not occur over the reals.
- Diagnosis.DiagnoseSlices: lineage records and the trace report over single taps are not modelled.
- SplitPlan.NamesSortInOrder: compares strings by code point.
- Journal.JobJournal.RecordReceipt: receipt file names truncate the stage key; two keys that share the kept part are not modelled; looking for the file and writing it is one step.
- Ancestry.HasVerifiedAncestorBuild: all journals live under one root.
- Manifests.RunKeeps: hard links, directory syncs and symbolic links; a write is one step.
- The SDK, its adapter, ONNX parsing, Docker and container runners, the command line, the server, doctor checks, project initialisation and latency statistics.
- Real SHA-256, canonical JSON text and field validation other than the rules that act as invariants.
