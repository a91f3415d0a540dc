/**
 Any number of writers on one journal. A writer reads the state record outside the lock, builds its target
 from that snapshot and commits it later; the lock covers two file writes and dies with its holder. Every
 finite sequence of actions is a run; an action that is not enabled, or that the journal refuses, changes
 nothing.
 */
module JournalRuns {
  import opened Common
  import opened Journal

  type Pid = nat

  datatype Lock =
    | Free
    | CommitLock(pid: Pid, final: JobStatus)  // event file written, state file not yet
    | TouchLock(pid: Pid, at: int)            // heartbeat file written, state file not yet

  /** What a writer asks for; the target is built from its own snapshot. */
  datatype Intent =
    | Append
    | Change(state: JobState, stage: Option<string>, error: Option<string>, manifest: Option<string>,
             heartbeatAt: Option<int>)
    | Record(receipt: Receipt)

  datatype Action =
    | Read(pid: Pid)
    | WriteReceipt(receipt: Receipt)        // outside the lock, before the commit that lists it
    | BeginCommit(pid: Pid, intent: Intent, kind: string, now: int)
    | EndCommit(pid: Pid)
    | BeginTouch(pid: Pid, at: int)
    | EndTouch(pid: Pid)
    | WriteCancelFile
    | RemoveCancelFile
    | Kill(pid: Pid)

  /** `cut` counts the commits killed between their two writes since the last commit that finished. */
  datatype System = System(files: Files, lock: Lock, snapshots: map<Pid, JobStatus>, cut: nat)

  function Target(snapshot: JobStatus, intent: Intent): JobStatus {
    match intent
    case Append => snapshot
    case Change(state, stage, error, manifest, at) => StateTarget(snapshot, state, stage, error, manifest, at)
    case Record(receipt) => ReceiptTarget(snapshot, receipt)
  }

  function WithReceipt(f: Files, receipt: Receipt): Files {
    f.(receipts := f.receipts[receipt.id := receipt])
  }

  predicate Filed(receipts: map<ReceiptId, Receipt>, r: Receipt) {
    r.id in receipts && receipts[r.id] == r
  }

  /** A receipt is listed only after its file was found or written with this very content. */
  predicate Recordable(f: Files, intent: Intent) {
    intent.Record? ==> Filed(f.receipts, intent.receipt)
  }

  lemma NextNumberExists(events: map<nat, Event>)
    ensures exists n :: IsNextSeq(events, n)
  {
    if events.Keys <= {0} {
      assert IsNextSeq(events, 1);
    } else {
      var top := Greatest(events.Keys);
      assert IsNextSeq(events, top + 1);
    }
  }

  lemma {:induction false} Greatest(s: set<nat>) returns (top: nat)
    requires s != {}
    ensures top in s && forall k | k in s :: k <= top
    decreases s
  {
    var x :| x in s;
    top := x;
    if s != {x} {
      var other := Greatest(s - {x});
      top := if x < other then other else x;
      assert forall k | k in s :: k == x || k in s - {x};
    }
  }

  ghost function NextNumber(events: map<nat, Event>): (n: nat)
    ensures IsNextSeq(events, n)
  {
    NextNumberExists(events);
    var n :| IsNextSeq(events, n);
    n
  }

  ghost function Step(s: System, a: Action): System {
    match a
    case Read(p) =>
      s.(snapshots := s.snapshots[p := s.files.status])
    case WriteReceipt(receipt) =>
      if receipt.id in s.files.receipts then s else s.(files := WithReceipt(s.files, receipt))
    case BeginCommit(p, intent, kind, now) =>
      if s.lock != Free || p !in s.snapshots || !Recordable(s.files, intent) then s
      else
        var target := Target(s.snapshots[p], intent);
        if !target.Valid() || Refused(s.files.status, target) then s
        else
          var n := NextNumber(s.files.events);
          s.(files := WithEvent(s.files, n, kind, now),
             lock := CommitLock(p, Stamped(s.files.status, target, n, now)))
    case EndCommit(p) =>
      if s.lock.CommitLock? && s.lock.pid == p
      then s.(files := s.files.(status := s.lock.final), lock := Free, cut := 0)
      else s
    case BeginTouch(p, at) =>
      if s.lock != Free || s.files.status.state.Terminal() then s
      else s.(files := s.files.(heartbeat := Some(at)), lock := TouchLock(p, at))
    case EndTouch(p) =>
      if s.lock.TouchLock? && s.lock.pid == p
      then s.(files := Touched(s.files, s.lock.at), lock := Free)
      else s
    case WriteCancelFile => s.(files := s.files.(cancelRequested := true))
    case RemoveCancelFile => s.(files := s.files.(cancelRequested := false))
    case Kill(p) =>
      var held := !s.lock.Free? && s.lock.pid == p;
      s.(snapshots := s.snapshots - {p},
         lock := if held then Free else s.lock,
         cut := if held && s.lock.CommitLock? then s.cut + 1 else s.cut)
  }

  ghost function Run(s: System, actions: seq<Action>): System {
    if actions == [] then s else Step(Run(s, actions[..|actions| - 1]), actions[|actions| - 1])
  }

  /** A journal as `create` leaves it. */
  ghost function Start(now: int): System {
    System(Files(map[1 := Event(1, "job_created", now)],
                 JobStatus(Queued, 1, now, None, [], None, None, None), map[], None, false),
           Free, map[], 0)
  }

  ghost predicate Contiguous(events: map<nat, Event>) {
    forall k: nat :: k in events.Keys <==> 1 <= k <= |events|
  }

  /** Every listed receipt has its file. */
  ghost predicate AllFiled(status: JobStatus, receipts: map<ReceiptId, Receipt>) {
    forall r | r in status.stages :: Filed(receipts, r)
  }

  ghost predicate ReceiptsInv(s: System) {
    && AllFiled(s.files.status, s.files.receipts)
    && (forall p | p in s.snapshots :: AllFiled(s.snapshots[p], s.files.receipts))
    && (s.lock.CommitLock? ==> AllFiled(s.lock.final, s.files.receipts))
  }

  ghost predicate Inv(s: System) {
    LogInv(s) && ReceiptsInv(s)
  }

  ghost predicate LogInv(s: System) {
    var n := |s.files.events|;
    var status := s.files.status;
    && Contiguous(s.files.events) && WellNumbered(s.files.events)
    && status.Valid()
    && (forall p | p in s.snapshots :: s.snapshots[p].Valid())
    && match s.lock
       case Free => status.seqNo + s.cut == n
       case CommitLock(_, final) =>
         && status.seqNo + s.cut + 1 == n && final.seqNo == n
         && final.Valid() && !Refused(status, final)
         && NotOlder(status.heartbeatAt, final.heartbeatAt)
       case TouchLock(_, _) => status.seqNo + s.cut == n && !status.state.Terminal()
  }

  lemma NextNumberIsCount(events: map<nat, Event>)
    requires Contiguous(events)
    ensures NextNumber(events) == |events| + 1
  {
    var n := NextNumber(events);
    assert |events| > 0 ==> |events| in events.Keys;
  }

  /** No file is removed or rewritten. */
  ghost predicate Kept<K(!new), V>(files: map<K, V>, later: map<K, V>) {
    forall k | k in files :: k in later && later[k] == files[k]
  }

  lemma KeepsOn(s: System, t: System, u: System)
    requires Keeps(s, t) && Keeps(t, u)
    ensures Keeps(s, u)
  {
  }

  /** What every later state of a run keeps of an earlier one. */
  ghost predicate Keeps(s: System, later: System) {
    && Kept(s.files.events, later.files.events) && |s.files.events| <= |later.files.events|
    && Kept(s.files.receipts, later.files.receipts)
    && (s.files.status.state in {Succeeded, Failed, Cancelled} ==> later.files.status.state == s.files.status.state)
  }

  lemma BeginCommitKeeps(s: System, a: Action)
    requires LogInv(s) && a.BeginCommit?
    ensures LogInv(Step(s, a)) && Keeps(s, Step(s, a))
  {
    NextNumberIsCount(s.files.events);
  }

  lemma OtherStepKeeps(s: System, a: Action)
    requires LogInv(s) && !a.BeginCommit?
    ensures LogInv(Step(s, a)) && Keeps(s, Step(s, a))
  {
  }

  lemma TargetIsFiled(snapshot: JobStatus, intent: Intent, f: Files)
    requires AllFiled(snapshot, f.receipts) && Recordable(f, intent)
    ensures AllFiled(Target(snapshot, intent), f.receipts)
  {
  }

  lemma StepKeepsReceipts(s: System, a: Action)
    requires ReceiptsInv(s)
    ensures ReceiptsInv(Step(s, a))
  {
    if a.BeginCommit? && a.pid in s.snapshots && Recordable(s.files, a.intent) {
      TargetIsFiled(s.snapshots[a.pid], a.intent, s.files);
    }
  }

  /** One step by any writer, from however old a snapshot. */
  lemma StepKeeps(s: System, a: Action)
    requires Inv(s)
    ensures Inv(Step(s, a)) && Keeps(s, Step(s, a))
  {
    if a.BeginCommit? { BeginCommitKeeps(s, a); } else { OtherStepKeeps(s, a); }
    StepKeepsReceipts(s, a);
  }

  /**
   Whole runs: event numbers stay exactly 1..n, no event file is ever rewritten, a terminal state is never
   left, and an error is present exactly on a failed job.
   */
  lemma {:induction false} RunKeeps(s: System, actions: seq<Action>)
    requires Inv(s)
    ensures Inv(Run(s, actions)) && Keeps(s, Run(s, actions))
  {
    if actions != [] {
      var init := actions[..|actions| - 1];
      RunKeeps(s, init);
      StepKeeps(Run(s, init), actions[|actions| - 1]);
      KeepsOn(s, Run(s, init), Run(s, actions));
    }
  }

  lemma EveryRun(now: int, actions: seq<Action>)
    ensures var s := Run(Start(now), actions);
            && Contiguous(s.files.events)
            && (s.files.status.state.Failed? <==> s.files.status.error.Some?)
            && s.files.status.seqNo + s.cut + (if s.lock.CommitLock? then 1 else 0) == |s.files.events|
            && AllFiled(s.files.status, s.files.receipts)
  {
    var s0 := Start(now);
    assert |s0.files.events| == 1;
    RunKeeps(s0, actions);
  }

  lemma {:induction false} RunAppend(s: System, a: seq<Action>, b: seq<Action>)
    ensures Run(s, a + b) == Run(Run(s, a), b)
  {
    if b == [] {
      assert a + b == a;
    } else {
      assert (a + b)[..|a + b| - 1] == a + b[..|b| - 1];
      RunAppend(s, a, b[..|b| - 1]);
    }
  }

  /**
   `state.seq` equals the last event number exactly when no commit is between its two writes and none was
   killed there since the last commit that finished.
   */
  lemma SeqIsLastExactlyWhenNothingWasCut(now: int, actions: seq<Action>)
    ensures var s := Run(Start(now), actions);
            s.files.status.seqNo == |s.files.events| <==> s.cut == 0 && !s.lock.CommitLock?
  {
    EveryRun(now, actions);
  }

  /** A commit nobody kills between its two writes is the journal's own commit. */
  lemma WholeCommit(s: System, pid: Pid, intent: Intent, kind: string, now: int)
    requires s.lock == Free && pid in s.snapshots
    ensures var target := Target(s.snapshots[pid], intent);
            var t := Step(Step(s, BeginCommit(pid, intent, kind, now)), EndCommit(pid));
            && t.lock == Free && t.snapshots == s.snapshots
            && if target.Valid() && !Refused(s.files.status, target) && Recordable(s.files, intent)
               then IsNextSeq(s.files.events, NextNumber(s.files.events))
                    && t.files == Committed(s.files, target, kind, NextNumber(s.files.events), now)
               else t.files == s.files
  {
  }

  /** A receipt's file and its commit, undisturbed, are what the journal does in one call. */
  lemma WholeRecord(s: System, pid: Pid, receipt: Receipt, now: int)
    requires s.lock == Free && (receipt.id in s.files.receipts ==> s.files.receipts[receipt.id] == receipt)
    ensures var kind, n := "stage_receipt", NextNumber(s.files.events);
            var filed := Step(Step(s, WriteReceipt(receipt)), Read(pid));
            var t := Step(Step(filed, BeginCommit(pid, Record(receipt), kind, now)), EndCommit(pid));
            var target := ReceiptTarget(s.files.status, receipt);
            target.Valid() ==>
              t.files == Committed(s.files.(receipts := s.files.receipts[receipt.id := receipt]), target, kind, n, now)
  {
    assert receipt.id in s.files.receipts ==> s.files.receipts[receipt.id := receipt] == s.files.receipts;
    var filed := Step(Step(s, WriteReceipt(receipt)), Read(pid));
    WholeCommit(filed, pid, Record(receipt), "stage_receipt", now);
  }

  /** The journal takes this commit, whatever others have committed since the snapshot. */
  ghost predicate Takes(s: System, pid: Pid, intent: Intent) {
    s.lock == Free && pid in s.snapshots && Recordable(s.files, intent)
    && Target(s.snapshots[pid], intent).Valid() && !Refused(s.files.status, Target(s.snapshots[pid], intent))
  }

  /** The list already holds a receipt of this attempt. */
  predicate Lists(stages: seq<Receipt>, receipt: Receipt) {
    exists r | r in stages :: r.id.stageKey == receipt.id.stageKey && r.id.attempt == receipt.id.attempt
  }

  /** `r` is the newer of the two heartbeats. */
  predicate NewestOf(r: Option<int>, a: Option<int>, b: Option<int>) {
    (r == a || r == b) && NotOlder(a, r) && NotOlder(b, r)
  }

  /**
   What the record says after a commit: the snapshot's receipts in their order, the one recorded unless its attempt was
   listed, and of the other fields what was asked for, or else what the snapshot said.
   */
  lemma CommitSays(s: System, pid: Pid, intent: Intent, kind: string, now: int)
    requires Takes(s, pid, intent)
    ensures var was := s.snapshots[pid];
            var later := Step(Step(s, BeginCommit(pid, intent, kind, now)), EndCommit(pid)).files.status;
            && (forall r :: r in later.stages <==>
                  r in was.stages || (intent.Record? && r == intent.receipt && !Lists(was.stages, r)))
            && was.stages <= later.stages && |later.stages| <= |was.stages| + 1
            && (intent.Record? ==> Lists(later.stages, intent.receipt) && later.currentStage == Some(intent.receipt.id.stageName))
            && (if intent.Change?
                then later.state == intent.state && later.error == intent.error
                     && (intent.manifest.Some? ==> later.manifest == intent.manifest)
                     && (intent.stage.Some? ==> later.currentStage == intent.stage)
                else later.state == was.state && later.error == was.error)
            && (!(intent.Change? && intent.manifest.Some?) ==> later.manifest == was.manifest)
            && NewestOf(later.heartbeatAt, s.files.status.heartbeatAt,
                        if intent.Change? && intent.heartbeatAt.Some? then intent.heartbeatAt else was.heartbeatAt)
            && (intent.Append? || (intent.Change? && intent.stage.None?) ==> later.currentStage == was.currentStage)
  {
    var was := s.snapshots[pid];
    if intent.Record? {
      var target := ReceiptTarget(was, intent.receipt);
      if !Lists(was.stages, intent.receipt) { assert target.stages[|was.stages|] == intent.receipt; }
    }
  }

  /**
   A commit keeps every receipt listed exactly when its snapshot knows all that are, but for the one it records; what
   others listed after the snapshot was read drops out of the record, and only out of the record.
   */
  lemma CommitKeepsListingExactlyWhen(s: System, pid: Pid, intent: Intent, kind: string, now: int)
    requires Inv(s) && Takes(s, pid, intent)
    ensures var was, later := s.files.status.stages,
              Step(Step(s, BeginCommit(pid, intent, kind, now)), EndCommit(pid)).files;
            && ((forall r | r in was :: r in later.status.stages) <==>
                forall r | r in was && r !in s.snapshots[pid].stages ::
                  intent.Record? && r == intent.receipt && !Lists(s.snapshots[pid].stages, r))
            && (forall r | r in was :: Filed(later.receipts, r))
  {
    CommitSays(s, pid, intent, kind, now);
  }

  const LISTED := Receipt(ReceiptId("build", "key", 1), true, [])

  /** Writer 1 reads the record of a new journal; writer 2 then lists a receipt. */
  function Listing(): seq<Action> {
    [Read(1), WriteReceipt(LISTED), Read(2)] + [BeginCommit(2, Record(LISTED), "stage_receipt", 0), EndCommit(2)]
  }

  lemma ReadersReady() returns (t: System)
    ensures t == Run(Start(0), [Read(1), WriteReceipt(LISTED), Read(2)])
    ensures t.files.status == Start(0).files.status && t.files.receipts == map[LISTED.id := LISTED]
    ensures t.lock == Free && t.snapshots == map[1 := t.files.status, 2 := t.files.status]
  {
    t := Step(Step(Step(Start(0), Read(1)), WriteReceipt(LISTED)), Read(2));
    RunThree(Start(0), Read(1), WriteReceipt(LISTED), Read(2));
  }

  lemma ListingRuns()
    ensures var t := Run(Start(0), Listing());
            && t.lock == Free && LISTED in t.files.status.stages && !t.files.status.state.Terminal()
            && 1 in t.snapshots && t.snapshots[1] == Start(0).files.status
  {
    var begin, end := BeginCommit(2, Record(LISTED), "stage_receipt", 0), EndCommit(2);
    var t := ReadersReady();
    RunAppend(Start(0), [Read(1), WriteReceipt(LISTED), Read(2)], [begin, end]);
    RunTwo(t, begin, end);
    CommitSays(t, 2, Record(LISTED), "stage_receipt", 0);
  }

  /** A listed receipt can drop out of the record: writer 1 commits from its older snapshot. */
  lemma StaleCommitUnlists() returns (actions: seq<Action>)
    ensures actions == Listing() + [BeginCommit(1, Append, "note", 0), EndCommit(1)]
    ensures LISTED in Run(Start(0), Listing()).files.status.stages
    ensures LISTED !in Run(Start(0), actions).files.status.stages
  {
    ListingRuns();
    var t := Run(Start(0), Listing());
    actions := Listing() + [BeginCommit(1, Append, "note", 0), EndCommit(1)];
    RunAppend(Start(0), Listing(), [BeginCommit(1, Append, "note", 0), EndCommit(1)]);
    RunTwo(t, BeginCommit(1, Append, "note", 0), EndCommit(1));
    CommitSays(t, 1, Append, "note", 0);
  }

  lemma RunTwo(s: System, a: Action, b: Action)
    ensures Run(s, [a, b]) == Step(Step(s, a), b)
  {
    assert [a, b][..1] == [a] && [a][..0] == [];
    assert Run(s, []) == s && Run(s, [a]) == Step(s, a);
  }

  lemma RunThree(s: System, a: Action, b: Action, c: Action)
    ensures Run(s, [a, b, c]) == Step(Step(Step(s, a), b), c)
  {
    RunTwo(s, a, b);
    assert [a, b, c][..2] == [a, b];
  }

  /** One commit killed after its event file: an idle journal's log grows, its record stays. */
  lemma CutCommit(s: System)
    requires Inv(s) && s.lock == Free
    ensures var cut := Run(s, [Read(7), BeginCommit(7, Append, "stage_started", 0), Kill(7)]);
            && cut.lock == Free && cut.files.status == s.files.status
            && |cut.files.events| == |s.files.events| + 1
  {
    var begin := BeginCommit(7, Append, "stage_started", 0);
    var s1 := Step(s, Read(7));
    var s2 := Step(s1, begin);
    assert Target(s1.snapshots[7], Append) == s.files.status;
    NextNumberIsCount(s1.files.events);
    assert [Read(7)][..0] == [];
    assert Run(s, []) == s;
    assert Run(s, [Read(7)]) == s1;
    assert [Read(7), begin][..1] == [Read(7)];
    assert Run(s, [Read(7), begin]) == s2;
    assert [Read(7), begin, Kill(7)][..2] == [Read(7), begin];
    assert Run(s, [Read(7), begin, Kill(7)]) == Step(s2, Kill(7));
  }

  /** With every lock released again, the record can trail the log by any number of events. */
  lemma {:induction false} LagIsUnbounded(lag: nat) returns (actions: seq<Action>)
    ensures var s := Run(Start(0), actions);
            && s.lock == Free && s.files.status == Start(0).files.status
            && |s.files.events| == s.files.status.seqNo + lag
  {
    assert |Start(0).files.events| == 1;
    if lag == 0 {
      actions := [];
    } else {
      var before := LagIsUnbounded(lag - 1);
      var three := [Read(7), BeginCommit(7, Append, "stage_started", 0), Kill(7)];
      RunKeeps(Start(0), before);
      CutCommit(Run(Start(0), before));
      RunAppend(Start(0), before, three);
      actions := before + three;
    }
  }

  /**
   A commit, however old its snapshot, never brings an older heartbeat back; the field moves backwards exactly
   when a heartbeat writer that sampled an earlier clock gets the lock later.
   */
  lemma HeartbeatRollsBackOnlyByOlderTouch(s: System, a: Action)
    requires LogInv(s)
    ensures var before, after := s.files.status.heartbeatAt, Step(s, a).files.status.heartbeatAt;
            !NotOlder(before, after) <==>
              a.EndTouch? && s.lock.TouchLock? && s.lock.pid == a.pid && before.Some? && s.lock.at < before.value
  {
  }

  /** A heartbeat nobody kills between its two writes is the journal's own; a final state is left alone. */
  lemma WholeTouch(s: System, pid: Pid, at: int)
    requires s.lock == Free
    ensures var t := Step(Step(s, BeginTouch(pid, at)), EndTouch(pid));
            && t.lock == Free && t.snapshots == s.snapshots && t.cut == s.cut
            && t.files == if s.files.status.state in {Succeeded, Failed, Cancelled} then s.files else Touched(s.files, at)
  {
  }

  /** What the last action on the cancel file, if any, has left. */
  function CancelAfter(before: bool, actions: seq<Action>): bool {
    if actions == [] then before
    else
      var a := actions[|actions| - 1];
      a.WriteCancelFile? || (!a.RemoveCancelFile? && CancelAfter(before, actions[..|actions| - 1]))
  }

  /** No commit, heartbeat or crash loses or invents a request to cancel. */
  lemma {:induction false} CancelIsKept(s: System, actions: seq<Action>)
    ensures Run(s, actions).files.cancelRequested == CancelAfter(s.files.cancelRequested, actions)
  {
    if actions != [] {
      CancelIsKept(s, actions[..|actions| - 1]);
    }
  }

  // ------------------------------------------------------------- watching

  lemma {:induction false} WindowSplit(events: map<nat, Event>, a: nat, b: nat, c: nat)
    requires a <= b <= c
    ensures Window(events, a, c) == Window(events, a, b) + Window(events, b, c)
    decreases c
  {
    if c > b {
      WindowSplit(events, a, b, c - 1);
    }
  }

  lemma {:induction false} WindowFrozen(events: map<nat, Event>, later: map<nat, Event>, a: nat, c: nat)
    requires Contiguous(events) && c <= |events|
    requires Kept(events, later)
    ensures Window(later, a, c) == Window(events, a, c)
    ensures |Window(events, a, c)| == if a <= c then c - a else 0
    ensures a < c ==> Window(events, a, c)[c - a - 1] == events[c]
    decreases c
  {
    if a < c {
      assert c in events.Keys;
      WindowFrozen(events, later, a, c - 1);
    }
  }

  /** A reader polls after each stretch of the run, each time from the last number it has seen. */
  ghost function Watch(s: System, after: nat, stretches: seq<seq<Action>>): seq<Event>
    decreases |stretches|
  {
    if stretches == [] then []
    else
      var now := Run(s, stretches[0]);
      var window := Window(now.files.events, after, |now.files.events|);
      var seen := if window == [] then after else window[|window| - 1].number;
      window + Watch(now, seen, stretches[1..])
  }

  ghost function After(s: System, stretches: seq<seq<Action>>): System
    decreases |stretches|
  {
    if stretches == [] then s else After(Run(s, stretches[0]), stretches[1..])
  }

  lemma WindowJoins(events: map<nat, Event>, later: map<nat, Event>, after: nat)
    requires Contiguous(events) && WellNumbered(events) && Kept(events, later)
    requires after <= |events| <= |later|
    ensures var window := Window(events, after, |events|);
            && (if window == [] then after else window[|window| - 1].number) == |events|
            && window + Window(later, |events|, |later|) == Window(later, after, |later|)
  {
    var n := |events|;
    WindowFrozen(events, events, after, n);
    WindowFrozen(events, later, after, n);
    WindowSplit(later, after, n, |later|);
  }

  /** Resumed windows concatenate to the log itself: no event missed, repeated or out of order. */
  lemma {:induction false} WatchSeesTheLog(s: System, after: nat, stretches: seq<seq<Action>>)
    requires Inv(s) && after <= |s.files.events|
    ensures var end := After(s, stretches);
            && Inv(end) && Keeps(s, end)
            && (stretches != [] ==>
                  Watch(s, after, stretches) == Window(end.files.events, after, |end.files.events|))
    decreases |stretches|
  {
    if stretches != [] {
      var now, end := Run(s, stretches[0]), After(s, stretches);
      RunKeeps(s, stretches[0]);
      WatchSeesTheLog(now, |now.files.events|, stretches[1..]);
      KeepsOn(s, now, end);
      WindowJoins(now.files.events, end.files.events, after);
      if stretches[1..] == [] {
        WindowJoins(now.files.events, now.files.events, after);
        assert Window(now.files.events, |now.files.events|, |now.files.events|) == [];
      }
    }
  }
}
