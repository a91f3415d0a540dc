/**
 Any number of processes continue manifests of one store, each by one stage. A process loads its parent, looks
 for a child somebody already published, runs its operation, and publishes a success or a failure revision;
 foreign answers, I/O faults and kills are arbitrary. Every finite sequence of actions is a run.
 */
module Continuation {
  import opened Common
  import opened Contracts
  import opened Manifests

  datatype ChildLookup = NoChild | OneChild(child: RunManifest) | ManyChildren

  datatype Answer =
    | StageDone(manifest: ArtifactRef)
    | StageError(manifest: ArtifactRef)
    | InConflict(manifest: ArtifactRef)
    | OtherError(manifest: ArtifactRef)

  datatype Pc =
    | Loading
    | Operating
    | Publishing(stage: StageRecord, artifacts: seq<ArtifactRef>)
    | Contested(attempt: nat)          // the success revision lost the race
    | Failing(failed: StageRecord)
    | FailureContested                 // the failure revision lost the race
    | Returned(answer: Answer)
    | Raised                           // an exception left the operation
    | Dead

  /** `faulted` marks a process that met an I/O, verification or validation failure; `published` one that wrote. */
  datatype Process = Process(
    parent: RunManifest, stageName: string, stageKey: string, pc: Pc, faulted: bool, published: bool)

  datatype System = System(files: Files, processes: map<nat, Process>)

  datatype Fault = NoFault | BeforeRename | AfterRename

  /** In `LoadParent`, `readable` says that the parent and the scanned manifests load, `childReadable` that a child of
      the caller's own stage verifies; `scanned` says the same of the scan after a lost race. */
  datatype Action =
    | Start(pid: nat, parent: RunManifest, stageName: string, stageKey: string)
    | LoadParent(pid: nat, readable: bool, childReadable: bool)
    | Operate(pid: nat, succeeds: bool, artifacts: seq<ArtifactRef>, attempt: nat)
    | PublishSuccess(pid: nat, fault: Fault, now: int)
    | ReadWinner(pid: nat, scanned: bool, readable: bool)
    | PublishFailure(pid: nat, fault: Fault, now: int)
    | ReadFailureWinner(pid: nat, scanned: bool, readable: bool)
    | KillProcess(pid: nat)
    | Unrelated(build: Build, now: int)

  // ------------------------------------------------------------- children

  ghost predicate IsChild(files: Files, parent: RunManifest, c: RunManifest) {
    var p := PublishedRef(c).path;
    && p in files && files[p] == c && c.runId == parent.runId && c.revision == parent.revision + 1
    && c.parent.Some? && c.parent.value.path == PublishedRef(parent).path && c.parent.value.digest == OfManifest(parent)
  }

  /** `_published_child`: what the directory listing yields for one parent. */
  ghost function PublishedChild(files: Files, parent: RunManifest): (r: ChildLookup)
    ensures r.NoChild? <==> !exists c :: IsChild(files, parent, c)
    ensures r.OneChild? ==> IsChild(files, parent, r.child) && forall c | IsChild(files, parent, c) :: c == r.child
  {
    if exists c, d :: IsChild(files, parent, c) && IsChild(files, parent, d) && c != d then ManyChildren
    else if exists c :: IsChild(files, parent, c) then
      var c :| IsChild(files, parent, c);
      OneChild(c)
    else NoChild
  }

  method FindPublishedChild(files: Files, parent: RunManifest) returns (r: ChildLookup)
    requires StoreInv(files)
    ensures r == PublishedChild(files, parent)
  {
    r := NoChild;
    var rest := files.Keys;
    while rest != {}
      invariant rest <= files.Keys
      invariant r.NoChild? ==> forall c | IsChild(files, parent, c) :: PublishedRef(c).path in rest
      invariant r.OneChild? ==> IsChild(files, parent, r.child)
      invariant r.OneChild? ==> forall c | IsChild(files, parent, c) :: c == r.child || PublishedRef(c).path in rest
      invariant r.ManyChildren? ==> exists c, d :: IsChild(files, parent, c) && IsChild(files, parent, d) && c != d
      decreases rest
    {
      var p :| p in rest;
      assert FileOk(files, p);
      var c := files[p];
      if p.RunFile? && p.runId == parent.runId && p.revision == parent.revision + 1 && c.parent.Some?
         && c.parent.value.path == PublishedRef(parent).path && c.parent.value.digest == OfManifest(parent)
      {
        assert IsChild(files, parent, c);
        if r.OneChild? && r.child == c {
        } else {
          r := if r.NoChild? then OneChild(c) else ManyChildren;
        }
      }
      rest := rest - {p};
    }
  }

  /** The child's last stage is this caller's stage under this caller's key. */
  predicate Mine(c: RunManifest, stageName: string, stageKey: string) {
    c.stages != [] && var last := c.stages[|c.stages| - 1]; last.name == stageName && last.stageKey == stageKey
  }

  function LastStatus(c: RunManifest): StageStatus {
    if c.stages == [] then StageOther else c.stages[|c.stages| - 1].status
  }

  // ----------------------------------------------------------------- steps

  /** `_reuse_child_result`: a result of the caller's own stage, else None. */
  function ReuseChild(c: RunManifest, stageName: string, stageKey: string): Option<Answer> {
    if !Mine(c, stageName, stageKey) then None
    else match LastStatus(c)
      case StageFailed => Some(StageError(PublishedRef(c)))
      case StageSucceeded => Some(StageDone(PublishedRef(c)))
      case StageOther => None
  }

  ghost function AfterLoad(files: Files, p: Process, readable: bool, childReadable: bool): Process {
    var ref := PublishedRef(p.parent);
    if !readable || Load(files, ref).None? then p.(pc := Returned(OtherError(ref)), faulted := true)
    else match PublishedChild(files, p.parent)
      case ManyChildren => p.(pc := Returned(OtherError(ref)), faulted := true)
      case NoChild => p.(pc := Operating)
      case OneChild(c) =>
        if Mine(c, p.stageName, p.stageKey) && !childReadable
        then p.(pc := Returned(OtherError(PublishedRef(c))), faulted := true)
        else
          var reused := ReuseChild(c, p.stageName, p.stageKey);
          p.(pc := Returned(if reused.Some? then reused.value else InConflict(PublishedRef(c))))
  }

  /**
   The answer after the success revision was refused: only a matching success is taken over. `scanned` says whether
   every candidate of the scan could be loaded, `readable` whether the artifacts of the caller's own child verify.
   */
  ghost function AfterContest(files: Files, p: Process, scanned: bool, readable: bool): Process
    requires p.pc.Contested?
  {
    if !scanned then p.(pc := Failing(FailedRecord(p, p.pc.attempt)), faulted := true)
    else match PublishedChild(files, p.parent)
    case NoChild => p.(pc := Returned(InConflict(PublishedRef(p.parent))))
    case ManyChildren => p.(pc := Failing(FailedRecord(p, p.pc.attempt)), faulted := true)
    case OneChild(c) =>
      if Mine(c, p.stageName, p.stageKey) && !readable then p.(pc := Failing(FailedRecord(p, p.pc.attempt)), faulted := true)
      else
        var reused := ReuseChild(c, p.stageName, p.stageKey);
        p.(pc := Returned(if reused.Some? && reused.value.StageDone? then reused.value else InConflict(PublishedRef(c))))
  }

  ghost function AfterFailureContest(files: Files, p: Process, scanned: bool, readable: bool): Process {
    if !scanned then p.(pc := Returned(OtherError(PublishedRef(p.parent))), faulted := true)
    else match PublishedChild(files, p.parent)
    case NoChild => p.(pc := Returned(InConflict(PublishedRef(p.parent))))
    case ManyChildren => p.(pc := Returned(OtherError(PublishedRef(p.parent))), faulted := true)
    case OneChild(c) =>
      if Mine(c, p.stageName, p.stageKey) && !readable then p.(pc := Raised, faulted := true)
      else
        var reused := ReuseChild(c, p.stageName, p.stageKey);
        p.(pc := Returned(if reused.Some? then reused.value else InConflict(PublishedRef(c))))
  }

  function FailedRecord(p: Process, attempt: nat): StageRecord {
    StageRecord(p.stageName, attempt, StageFailed, p.stageKey, [PublishedRef(p.parent)], [])
  }

  /** One publication attempt: refused, invalid, faulty or done. */
  datatype Attempt = Refused | Invalid | Faulty(files: Files) | Done(files: Files, ref: ArtifactRef)

  ghost function Attempted(files: Files, p: Process, stage: StageRecord, artifacts: seq<ArtifactRef>, fault: Fault,
                           now: int)
    : Attempt
  {
    var ref := PublishedRef(p.parent);
    var m := Revised(ref, Some(stage), artifacts, now);
    if !m.Valid() || Load(files, ref).None? then Invalid
    else if fault.BeforeRename? then Faulty(files)
    else if PublishCheck(files, m).Some? then (if PublishCheck(files, m).value.Conflict? then Refused else Invalid)
    else if fault.AfterRename? then Faulty(Written(files, m))
    else Done(Written(files, m), PublishedRef(m))
  }

  /** The parent is named by a path outside the store. */
  predicate LinksElsewhere(m: RunManifest) {
    m.parent.Some? && !m.parent.value.path.RunFile?
  }

  ghost function Step(s: System, a: Action): System {
    match a
    case Start(pid, parent, name, key) =>
      if pid in s.processes then s
      else s.(processes := s.processes[pid := Process(parent, name, key, Loading, false, false)])
    case Unrelated(b, now) =>
      var m := Built(s.files, b, now);
      if m.None? || LinksElsewhere(m.value) || PublishCheck(s.files, m.value).Some? then s
      else s.(files := Written(s.files, m.value))
    case _ =>
      if a.pid !in s.processes then s
      else
        var p := s.processes[a.pid];
        var q := StepProcess(s.files, p, a);
        System(q.0, s.processes[a.pid := q.1])
  }

  ghost function StepProcess(files: Files, p: Process, a: Action): (Files, Process) {
    match a
    case LoadParent(_, readable, childReadable) =>
      (files, if p.pc.Loading? then AfterLoad(files, p, readable, childReadable) else p)
    case Operate(_, succeeds, artifacts, attempt) =>
      (files,
       if !p.pc.Operating? then p
       else if succeeds then
         p.(pc := Publishing(StageRecord(p.stageName, attempt, StageSucceeded, p.stageKey, [PublishedRef(p.parent)], artifacts),
                             artifacts))
       else p.(pc := Failing(FailedRecord(p, attempt))))
    case PublishSuccess(_, fault, now) =>
      if !p.pc.Publishing? then (files, p)
      else (
        match Attempted(files, p, p.pc.stage, p.pc.artifacts, fault, now)
        case Refused => (files, p.(pc := Contested(p.pc.stage.attempt)))
        case Invalid => (files, p.(pc := Failing(FailedRecord(p, p.pc.stage.attempt)), faulted := true))
        case Faulty(written) =>
          (written, p.(pc := Failing(FailedRecord(p, p.pc.stage.attempt)), faulted := true,
                       published := p.published || written != files))
        case Done(written, ref) =>
          (written, p.(pc := Returned(StageDone(ref)), published := p.published || written != files)))
    case PublishFailure(_, fault, now) =>
      if !p.pc.Failing? then (files, p)
      else (
        match Attempted(files, p, p.pc.failed, [], fault, now)
        case Refused => (files, p.(pc := FailureContested))
        case Invalid => (files, p.(pc := Returned(OtherError(PublishedRef(p.parent))), faulted := true))
        case Faulty(written) =>
          (written, p.(pc := Returned(OtherError(PublishedRef(p.parent))), faulted := true,
                       published := p.published || written != files))
        case Done(written, ref) =>
          (written, p.(pc := Returned(StageError(ref)), published := p.published || written != files)))
    case ReadWinner(_, scanned, readable) =>
      (files, if p.pc.Contested? then AfterContest(files, p, scanned, readable) else p)
    case ReadFailureWinner(_, scanned, readable) =>
      (files, if p.pc.FailureContested? then AfterFailureContest(files, p, scanned, readable) else p)
    case KillProcess(_) => (files, if p.pc.Returned? || p.pc.Raised? then p else p.(pc := Dead))
    case _ => (files, p)
  }

  ghost function Run(s: System, actions: seq<Action>): System {
    if actions == [] then s else Step(Run(s, actions[..|actions| - 1]), actions[|actions| - 1])
  }

  // ------------------------------------------------------------ invariants

  /** Every link in this store was made through the store's own path. */
  ghost predicate Linked(files: Files) {
    forall p | p in files && p.RunFile? :: !LinksElsewhere(files[p])
  }

  ghost predicate StoreOk(files: Files) {
    StoreInv(files) && Linked(files)
  }

  /** What a returned answer means, for the one child `c` of the caller's parent. */
  ghost predicate AnswerFits(p: Process, answer: Answer, c: RunManifest) {
    match answer
    case StageDone(ref) => ref == PublishedRef(c) && Mine(c, p.stageName, p.stageKey) && LastStatus(c).StageSucceeded?
    case StageError(ref) => ref == PublishedRef(c) && Mine(c, p.stageName, p.stageKey) && LastStatus(c).StageFailed?
    case InConflict(ref) => ref == PublishedRef(c) && !(Mine(c, p.stageName, p.stageKey) && LastStatus(c).StageSucceeded?)
    case OtherError(ref) => p.faulted && ref == PublishedRef(c)
  }

  ghost predicate ProcessOk(files: Files, p: Process) {
    var ref := PublishedRef(p.parent);
    && (!p.pc.Loading? && !p.pc.Dead? && !p.faulted ==> Load(files, ref) == Some(p.parent))
    && (p.pc.Publishing? ==> p.pc.stage.name == p.stageName && p.pc.stage.stageKey == p.stageKey
                             && p.pc.stage.status.StageSucceeded?)
    && (p.pc.Failing? ==> p.pc.failed.name == p.stageName && p.pc.failed.stageKey == p.stageKey
                          && p.pc.failed.status.StageFailed?)
    && (p.pc.Contested? || p.pc.FailureContested? ==> exists c :: IsChild(files, p.parent, c))
    && (p.pc.Returned? ==>
          || (p.faulted && p.pc.answer == OtherError(PublishedRef(p.parent)))
          || exists c :: IsChild(files, p.parent, c) && AnswerFits(p, p.pc.answer, c))
    && (p.pc.Raised? ==> p.faulted)
    && (p.published ==> exists c :: IsChild(files, p.parent, c) && Mine(c, p.stageName, p.stageKey))
  }

  ghost predicate Inv(s: System) {
    StoreOk(s.files) && forall pid | pid in s.processes :: ProcessOk(s.files, s.processes[pid])
  }

  lemma ChildIsUnique(files: Files, parent: RunManifest, c: RunManifest, d: RunManifest)
    requires StoreOk(files) && IsChild(files, parent, c) && IsChild(files, parent, d)
    ensures c == d
  {
    assert PublishedRef(c).path == PublishedRef(d).path;
  }

  /** Any manifest that holds the next revision of a published parent is that parent's child. */
  lemma NextRevisionIsChild(files: Files, parent: RunManifest, p: Path)
    requires StoreOk(files) && Load(files, PublishedRef(parent)) == Some(parent)
    requires p in files && p.RunFile? && p.runId == parent.runId && p.revision == parent.revision + 1
    ensures IsChild(files, parent, files[p])
  {
    var c := files[p];
    assert FileOk(files, p);
    var link := c.parent.value;
    assert FileOk(files, link.path);
    assert link.path == PublishedRef(parent).path;
  }

  lemma AttemptEffects(files: Files, p: Process, stage: StageRecord, artifacts: seq<ArtifactRef>, fault: Fault,
                       now: int)
    requires StoreOk(files)
    requires stage.name == p.stageName && stage.stageKey == p.stageKey
    ensures var a := Attempted(files, p, stage, artifacts, fault, now);
            && (a.Refused? ==> exists c :: IsChild(files, p.parent, c))
            && (a.Faulty? || a.Done? ==> StoreOk(a.files) && Grows(files, a.files))
            && ((a.Faulty? && a.files != files) || a.Done? ==>
                  exists c :: IsChild(a.files, p.parent, c) && Mine(c, p.stageName, p.stageKey)
                           && LastStatus(c) == stage.status && (a.Done? ==> a.ref == PublishedRef(c)))
  {
    var ref := PublishedRef(p.parent);
    var m := Revised(ref, Some(stage), artifacts, now);
    if m.Valid() && Load(files, ref).Some? {
      RevisedIsPublishable(ref, Some(stage), artifacts, now);
      var check := PublishCheck(files, m);
      if check.None? {
        PublishKeepsStore(files, m);
        assert Linked(Written(files, m));
        assert m.stages[|m.stages| - 1] == stage;
        assert IsChild(Written(files, m), p.parent, m);
      } else if check.value.Conflict? {
        var q :| q in files && q.RunFile? && q.runId == m.runId && q.revision == m.revision && q != PublishedRef(m).path;
        NextRevisionIsChild(files, p.parent, q);
      }
    }
  }

  /** Files are only ever added. */
  ghost predicate Grows(files: Files, later: Files) {
    forall p | p in files :: p in later && later[p] == files[p]
  }

  lemma ProcessSurvivesGrowth(files: Files, later: Files, p: Process)
    requires ProcessOk(files, p) && Grows(files, later)
    ensures ProcessOk(later, p)
  {
    forall c | IsChild(files, p.parent, c) ensures IsChild(later, p.parent, c) {
    }
  }

  lemma LookupFinds(files: Files, parent: RunManifest)
    requires StoreOk(files)
    ensures !PublishedChild(files, parent).ManyChildren?
  {
    forall c, d | IsChild(files, parent, c) && IsChild(files, parent, d) ensures c == d {
      ChildIsUnique(files, parent, c, d);
    }
  }

  lemma ReuseFits(p: Process, c: RunManifest)
    ensures var reused := ReuseChild(c, p.stageName, p.stageKey);
            AnswerFits(p, if reused.Some? then reused.value else InConflict(PublishedRef(c)), c)
  {
  }

  lemma LoadStepOk(files: Files, p: Process, readable: bool, childReadable: bool)
    requires StoreOk(files) && ProcessOk(files, p) && p.pc.Loading?
    ensures ProcessOk(files, AfterLoad(files, p, readable, childReadable))
  {
    LookupFinds(files, p.parent);
    var q, lookup := AfterLoad(files, p, readable, childReadable), PublishedChild(files, p.parent);
    if lookup.OneChild? {
      ReuseFits(p, lookup.child);
      assert IsChild(files, p.parent, lookup.child);
      if q.pc.Returned? && !q.faulted { assert AnswerFits(q, q.pc.answer, lookup.child); }
    }
  }

  lemma ContestStepOk(files: Files, p: Process, scanned: bool, readable: bool)
    requires StoreOk(files) && ProcessOk(files, p)
    ensures p.pc.Contested? ==> ProcessOk(files, AfterContest(files, p, scanned, readable))
    ensures p.pc.FailureContested? ==> ProcessOk(files, AfterFailureContest(files, p, scanned, readable))
  {
    LookupFinds(files, p.parent);
  }

  lemma SuccessStepOk(files: Files, p: Process, a: Action)
    requires StoreOk(files) && ProcessOk(files, p) && a.PublishSuccess? && p.pc.Publishing?
    ensures var q := StepProcess(files, p, a);
            StoreOk(q.0) && Grows(files, q.0) && ProcessOk(q.0, q.1)
  {
    AttemptEffects(files, p, p.pc.stage, p.pc.artifacts, a.fault, a.now);
    ProcessSurvivesGrowth(files, StepProcess(files, p, a).0, p);
  }

  lemma FailureStepOk(files: Files, p: Process, a: Action)
    requires StoreOk(files) && ProcessOk(files, p) && a.PublishFailure? && p.pc.Failing?
    ensures var q := StepProcess(files, p, a);
            StoreOk(q.0) && Grows(files, q.0) && ProcessOk(q.0, q.1)
  {
    AttemptEffects(files, p, p.pc.failed, [], a.fault, a.now);
    ProcessSurvivesGrowth(files, StepProcess(files, p, a).0, p);
  }

  lemma ProcessStepOk(files: Files, p: Process, a: Action)
    requires StoreOk(files) && ProcessOk(files, p)
    ensures var q := StepProcess(files, p, a);
            StoreOk(q.0) && Grows(files, q.0) && ProcessOk(q.0, q.1)
  {
    match a
    case LoadParent(_, readable, childReadable) =>
      if p.pc.Loading? { LoadStepOk(files, p, readable, childReadable); }
    case ReadWinner(_, scanned, readable) => ContestStepOk(files, p, scanned, readable);
    case ReadFailureWinner(_, scanned, readable) => ContestStepOk(files, p, scanned, readable);
    case PublishSuccess(_, _, _) =>
      if p.pc.Publishing? { SuccessStepOk(files, p, a); }
    case PublishFailure(_, _, _) =>
      if p.pc.Failing? { FailureStepOk(files, p, a); }
    case _ =>
  }

  lemma FilesStepOk(s: System, a: Action)
    requires Inv(s)
    ensures StoreOk(Step(s, a).files) && Grows(s.files, Step(s, a).files)
    ensures a.Unrelated? ==> Step(s, a).processes == s.processes
  {
    match a
    case Start(_, _, _, _) =>
    case Unrelated(b, now) =>
      var m := Built(s.files, b, now);
      if m.Some? && !LinksElsewhere(m.value) && PublishCheck(s.files, m.value).None? {
        PublishKeepsStore(s.files, m.value);
      }
    case _ =>
      if a.pid in s.processes { ProcessStepOk(s.files, s.processes[a.pid], a); }
  }

  lemma StepKeeps(s: System, a: Action)
    requires Inv(s)
    ensures Inv(Step(s, a)) && Grows(s.files, Step(s, a).files)
  {
    var s2 := Step(s, a);
    FilesStepOk(s, a);
    forall pid | pid in s2.processes ensures ProcessOk(s2.files, s2.processes[pid]) {
      if pid in s.processes && (a.Unrelated? || a.Start? || pid != a.pid) {
        ProcessSurvivesGrowth(s.files, s2.files, s.processes[pid]);
      } else if pid in s.processes {
        ProcessStepOk(s.files, s.processes[pid], a);
      }
    }
  }

  lemma {:induction false} RunKeeps(s: System, actions: seq<Action>)
    requires Inv(s)
    ensures Inv(Run(s, actions)) && Grows(s.files, Run(s, actions).files)
  {
    if actions != [] {
      RunKeeps(s, actions[..|actions| - 1]);
      StepKeeps(Run(s, actions[..|actions| - 1]), actions[|actions| - 1]);
    }
  }

  // ------------------------------------------------- what one caller does

  /** None of these actions is one of this process. */
  predicate NotBy(actions: seq<Action>, pid: nat) {
    forall a | a in actions :: a.Unrelated? || a.pid != pid
  }

  lemma {:induction false} RunConcat(s: System, xs: seq<Action>, ys: seq<Action>)
    ensures Run(s, xs + ys) == Run(Run(s, xs), ys)
  {
    if ys == [] {
      assert xs + ys == xs;
    } else {
      var n := |ys| - 1;
      assert (xs + ys)[..|xs| + n] == xs + ys[..n] && (xs + ys)[|xs| + n] == ys[n];
      RunConcat(s, xs, ys[..n]);
    }
  }

  lemma RunOne(s: System, a: Action)
    ensures Run(s, [a]) == Step(s, a)
  {
    assert [a][..0] == [];
  }

  lemma {:induction false} OthersLeave(s: System, actions: seq<Action>, pid: nat)
    requires NotBy(actions, pid) && pid in s.processes
    ensures pid in Run(s, actions).processes && Run(s, actions).processes[pid] == s.processes[pid]
  {
    if actions != [] {
      var n := |actions| - 1;
      assert actions[n] in actions;
      forall a | a in actions[..n] ensures a in actions {
      }
      OthersLeave(s, actions[..n], pid);
    }
  }

  ghost predicate Childless(files: Files, parent: RunManifest) {
    !exists c :: IsChild(files, parent, c)
  }

  /** What a published revision of `parent` with this stage and these artifacts holds. */
  ghost predicate HoldsStage(c: RunManifest, parent: RunManifest, stage: StageRecord, artifacts: seq<ArtifactRef>) {
    && c.stages == parent.stages + [stage]
    && (forall k: nat | k < |artifacts| && Lasts(artifacts, k) :: artifacts[k] in c.artifacts)
    && (forall r | r in parent.artifacts && (forall a | a in artifacts :: !Matches(a, r)) :: r in c.artifacts)
    && (forall r | r in c.artifacts :: r in parent.artifacts || r in artifacts)
  }

  /** A new file of the store, and nothing else, is the child `c`. */
  ghost predicate AddsChild(files: Files, later: Files, parent: RunManifest, c: RunManifest) {
    later == files[PublishedRef(c).path := c] && IsChild(later, parent, c)
  }

  /** With no child yet and a stage not recorded yet, an undisturbed publication adds the child and returns it. */
  lemma FirstAttemptIsDone(files: Files, p: Process, stage: StageRecord, artifacts: seq<ArtifactRef>, now: int)
    returns (c: RunManifest)
    requires StoreOk(files) && Load(files, PublishedRef(p.parent)).Some? && Childless(files, p.parent)
    requires NotRecorded(p.parent, stage)
    ensures var later := files[PublishedRef(c).path := c];
            && Attempted(files, p, stage, artifacts, NoFault, now) == Done(later, PublishedRef(c))
            && AddsChild(files, later, p.parent, c) && HoldsStage(c, p.parent, stage, artifacts)
  {
    var ref := PublishedRef(p.parent);
    c := Revised(ref, Some(stage), artifacts, now);
    assert FileOk(files, ref.path);
    RevisionIsValid(ref, Some(stage), artifacts, now);
    if !Vacant(files, c) {
      var q :| q in files && q.RunFile? && q.runId == c.runId && q.revision == c.revision && files[q] != c;
      NextRevisionIsChild(files, p.parent, q);
      assert false;
    }
    VacantMeans(files, c);
    forall r ensures (r in p.parent.artifacts && (forall a | a in artifacts :: !Matches(a, r)) ==> r in c.artifacts)
      ensures r in c.artifacts ==> r in p.parent.artifacts || r in artifacts
      ensures forall k: nat | k < |artifacts| && Lasts(artifacts, k) :: artifacts[k] in c.artifacts
    {
      RevisedHolds(ref, stage, artifacts, now, r);
    }
  }

  /** With a child there, it is refused, or else finds that it has written this very child before. */
  lemma LateAttemptAddsNothing(files: Files, p: Process, stage: StageRecord, artifacts: seq<ArtifactRef>, now: int,
                               c: RunManifest)
    requires StoreOk(files) && Load(files, PublishedRef(p.parent)).Some? && IsChild(files, p.parent, c)
    requires NotRecorded(p.parent, stage)
    ensures var a := Attempted(files, p, stage, artifacts, NoFault, now);
            a == Refused || (a == Done(files, PublishedRef(c)) && c.stages != [] && c.stages[|c.stages| - 1] == stage)
  {
    var ref := PublishedRef(p.parent);
    var m := Revised(ref, Some(stage), artifacts, now);
    assert FileOk(files, ref.path);
    RevisionIsValid(ref, Some(stage), artifacts, now);
    VacantMeans(files, m);
    assert files[PublishedRef(c).path] == c;
  }

  /** A caller opens its parent, and nobody else does anything of its process. */
  function Opening(pid: nat, parent: RunManifest, stageName: string, stageKey: string): seq<Action> {
    [Start(pid, parent, stageName, stageKey), LoadParent(pid, true, true)]
  }

  /** The parent is in the store, and the process is new. */
  ghost predicate MayOpen(s: System, pid: nat, parent: RunManifest) {
    Inv(s) && pid !in s.processes && Load(s.files, PublishedRef(parent)).Some?
  }

  function Opened(parent: RunManifest, stageName: string, stageKey: string, pc: Pc): Process {
    Process(parent, stageName, stageKey, pc, false, false)
  }

  function WithProcess(s: System, pid: nat, p: Process): System {
    s.(processes := s.processes[pid := p])
  }

  lemma StartRuns(s: System, pid: nat, parent: RunManifest, stageName: string, stageKey: string)
    requires pid !in s.processes
    ensures Step(s, Start(pid, parent, stageName, stageKey)) == WithProcess(s, pid, Opened(parent, stageName, stageKey, Loading))
  {
  }

  lemma LoadRuns(s: System, pid: nat, p: Process)
    requires p.pc.Loading?
    ensures Step(WithProcess(s, pid, p), LoadParent(pid, true, true))
            == WithProcess(s, pid, AfterLoad(s.files, p, true, true))
  {
    assert StepProcess(s.files, p, LoadParent(pid, true, true)) == (s.files, AfterLoad(s.files, p, true, true));
    var q := AfterLoad(s.files, p, true, true);
    assert s.processes[pid := p][pid := q] == s.processes[pid := q];
  }

  lemma OpeningRuns(s: System, pid: nat, parent: RunManifest, stageName: string, stageKey: string) returns (p: Process)
    requires MayOpen(s, pid, parent)
    ensures var t := Run(s, Opening(pid, parent, stageName, stageKey));
            Inv(t) && t == WithProcess(s, pid, p)
    ensures p == AfterLoad(s.files, Opened(parent, stageName, stageKey, Loading), true, true)
  {
    var start, load := Start(pid, parent, stageName, stageKey), LoadParent(pid, true, true);
    p := AfterLoad(s.files, Opened(parent, stageName, stageKey, Loading), true, true);
    StartRuns(s, pid, parent, stageName, stageKey);
    LoadRuns(s, pid, Opened(parent, stageName, stageKey, Loading));
    assert Opening(pid, parent, stageName, stageKey) == [start] + [load];
    RunConcat(s, [start], [load]);
    RunOne(s, start);
    RunOne(Step(s, start), load);
    StepKeeps(s, start);
    StepKeeps(Step(s, start), load);
  }

  /** The result a caller that finds this child takes over as its own. */
  ghost predicate TakesOver(answer: Answer, c: RunManifest, stageName: string, stageKey: string) {
    && c.stages != []
    && var last := c.stages[|c.stages| - 1];
       && last.name == stageName && last.stageKey == stageKey
       && (if answer.StageDone? then last.status == StageSucceeded else answer.StageError? && last.status == StageFailed)
       && answer.manifest == PublishedRef(c)
  }

  /** The child's result, if it is one of this stage; otherwise a conflict with it. */
  ghost predicate FollowsChild(answer: Answer, c: RunManifest, stageName: string, stageKey: string) {
    if exists own :: TakesOver(own, c, stageName, stageKey) then TakesOver(answer, c, stageName, stageKey)
    else answer == InConflict(PublishedRef(c))
  }

  lemma ReuseMeans(c: RunManifest, stageName: string, stageKey: string)
    ensures var reused := ReuseChild(c, stageName, stageKey);
            FollowsChild(if reused.Some? then reused.value else InConflict(PublishedRef(c)), c, stageName, stageKey)
  {
    var reused := ReuseChild(c, stageName, stageKey);
    if reused.Some? { assert TakesOver(reused.value, c, stageName, stageKey); }
  }

  /** A caller whose parent has a child returns that child's result if it is of its own stage, else a conflict. */
  lemma ChildIsTakenOver(s: System, pid: nat, parent: RunManifest, stageName: string, stageKey: string, c: RunManifest)
    requires MayOpen(s, pid, parent) && IsChild(s.files, parent, c)
    ensures var t := Run(s, Opening(pid, parent, stageName, stageKey));
            && t.files == s.files && pid in t.processes && t.processes[pid].pc.Returned?
            && FollowsChild(t.processes[pid].pc.answer, c, stageName, stageKey)
  {
    var p := OpeningRuns(s, pid, parent, stageName, stageKey);
    LookupFinds(s.files, parent);
    ReuseMeans(c, stageName, stageKey);
  }

  /** A caller that found no child runs its operation and publishes; others act before and after that operation. */
  function Session(pid: nat, parent: RunManifest, stageName: string, stageKey: string, xs: seq<Action>, operate: Action,
                   ys: seq<Action>)
    : seq<Action>
  {
    Opening(pid, parent, stageName, stageKey) + xs + [operate] + ys
  }

  ghost predicate MayOperate(s: System, pid: nat, parent: RunManifest, xs: seq<Action>, ys: seq<Action>) {
    MayOpen(s, pid, parent) && Childless(s.files, parent) && NotBy(xs, pid) && NotBy(ys, pid)
  }

  lemma SessionRuns(s: System, pid: nat, parent: RunManifest, stageName: string, stageKey: string, xs: seq<Action>,
                    operate: Action, ys: seq<Action>)
    requires MayOperate(s, pid, parent, xs, ys) && operate.Operate? && operate.pid == pid
    ensures var t := Run(s, Session(pid, parent, stageName, stageKey, xs, operate, ys));
            && Inv(t) && Load(t.files, PublishedRef(parent)) == Some(parent) && pid in t.processes
            && t.processes[pid] == StepProcess(t.files, Opened(parent, stageName, stageKey, Operating), operate).1
  {
    var opening := Opening(pid, parent, stageName, stageKey);
    var p := OpeningRuns(s, pid, parent, stageName, stageKey);
    RunConcat(s, opening + xs + [operate], ys);
    RunConcat(s, opening + xs, [operate]);
    RunConcat(s, opening, xs);
    OthersLeave(Run(s, opening), xs, pid);
    RunOne(Run(s, opening + xs), operate);
    OthersLeave(Run(s, opening + xs + [operate]), ys, pid);
    RunKeeps(s, Session(pid, parent, stageName, stageKey, xs, operate, ys));
  }

  /** The stage record of a caller's operation. */
  function RecordOf(p: Process, n: nat, status: StageStatus, outputs: seq<ArtifactRef>): StageRecord {
    StageRecord(p.stageName, n, status, p.stageKey, [PublishedRef(p.parent)], outputs)
  }

  /** The caller added the one child of its parent, with this stage and these artifacts, and returns `answer`. */
  ghost predicate Publishes(t: System, u: System, pid: nat, stage: StageRecord, artifacts: seq<ArtifactRef>, success: bool) {
    && pid in t.processes && pid in u.processes
    && var parent := t.processes[pid].parent;
       exists c :: && AddsChild(t.files, u.files, parent, c) && HoldsStage(c, parent, stage, artifacts)
                   && u.processes[pid].pc == Returned(if success then StageDone(PublishedRef(c)) else StageError(PublishedRef(c)))
  }

  /** A caller about to publish this, from a good parent that does not record the stage yet. */
  ghost predicate Ready(t: System, pid: nat, pc: Pc, n: nat) {
    && Inv(t) && pid in t.processes && t.processes[pid].pc == pc
    && Load(t.files, PublishedRef(t.processes[pid].parent)).Some?
    && forall r | r in t.processes[pid].parent.stages :: r.name != t.processes[pid].stageName || r.attempt != n
  }

  lemma SuccessAlone(t: System, pid: nat, stage: StageRecord, artifacts: seq<ArtifactRef>, now: int)
    requires Ready(t, pid, Publishing(stage, artifacts), stage.attempt) && stage.name == t.processes[pid].stageName
    requires Childless(t.files, t.processes[pid].parent)
    ensures Publishes(t, Step(t, PublishSuccess(pid, NoFault, now)), pid, stage, artifacts, true)
  {
    var c := FirstAttemptIsDone(t.files, t.processes[pid], stage, artifacts, now);
  }

  lemma FailureAlone(t: System, pid: nat, stage: StageRecord, now: int)
    requires Ready(t, pid, Failing(stage), stage.attempt) && stage.name == t.processes[pid].stageName
    requires Childless(t.files, t.processes[pid].parent)
    ensures Publishes(t, Step(t, PublishFailure(pid, NoFault, now)), pid, stage, [], false)
  {
    var c := FirstAttemptIsDone(t.files, t.processes[pid], stage, [], now);
  }

  /** A caller that comes too late to publish a success takes over a success of its own stage. */
  lemma SuccessTooLate(t: System, pid: nat, stage: StageRecord, artifacts: seq<ArtifactRef>, now: int, c: RunManifest)
    requires Ready(t, pid, Publishing(stage, artifacts), stage.attempt)
    requires var p := t.processes[pid]; stage == RecordOf(p, stage.attempt, StageSucceeded, artifacts)
    requires IsChild(t.files, t.processes[pid].parent, c)
    ensures var p, v := t.processes[pid], Step(Step(t, PublishSuccess(pid, NoFault, now)), ReadWinner(pid, true, true));
            && v.files == t.files && pid in v.processes
            && v.processes[pid].pc == Returned(if TakesOver(StageDone(PublishedRef(c)), c, p.stageName, p.stageKey)
                                               then StageDone(PublishedRef(c)) else InConflict(PublishedRef(c)))
  {
    LateAttemptAddsNothing(t.files, t.processes[pid], stage, artifacts, now, c);
    LookupFinds(t.files, t.processes[pid].parent);
  }

  /** One that comes too late to publish a failure takes over whatever result there is of its own stage. */
  lemma FailureTooLate(t: System, pid: nat, stage: StageRecord, now: int, c: RunManifest)
    requires Ready(t, pid, Failing(stage), stage.attempt)
    requires var p := t.processes[pid]; stage == RecordOf(p, stage.attempt, StageFailed, [])
    requires IsChild(t.files, t.processes[pid].parent, c)
    ensures var p, v := t.processes[pid], Step(Step(t, PublishFailure(pid, NoFault, now)), ReadFailureWinner(pid, true, true));
            && v.files == t.files && pid in v.processes && v.processes[pid].pc.Returned?
            && FollowsChild(v.processes[pid].pc.answer, c, p.stageName, p.stageKey)
  {
    var p := t.processes[pid];
    LateAttemptAddsNothing(t.files, p, stage, [], now, c);
    LookupFinds(t.files, p.parent);
    ReuseMeans(c, p.stageName, p.stageKey);
  }

  /**
   A caller whose operation succeeds. If nobody has continued the parent by then, it publishes the one child, which
   records the stage as succeeded with its outputs and holds its artifacts, and returns it. If somebody has, it
   returns that child when it is a success of the same stage, and otherwise a conflict.
   */
  lemma SucceededOperation(s: System, pid: nat, parent: RunManifest, stageName: string, stageKey: string,
                           xs: seq<Action>, artifacts: seq<ArtifactRef>, n: nat, ys: seq<Action>, now: int)
    requires MayOperate(s, pid, parent, xs, ys)
    requires forall r | r in parent.stages :: r.name != stageName || r.attempt != n
    ensures var t := Run(s, Session(pid, parent, stageName, stageKey, xs, Operate(pid, true, artifacts, n), ys));
            var u := Step(t, PublishSuccess(pid, NoFault, now));
            var v := Step(u, ReadWinner(pid, true, true));
            && (Childless(t.files, parent) ==>
                  Publishes(t, u, pid, StageRecord(stageName, n, StageSucceeded, stageKey, [PublishedRef(parent)], artifacts),
                            artifacts, true))
            && (forall c | IsChild(t.files, parent, c) ::
                  && v.files == t.files && pid in v.processes
                  && v.processes[pid].pc == Returned(if TakesOver(StageDone(PublishedRef(c)), c, stageName, stageKey)
                                                     then StageDone(PublishedRef(c)) else InConflict(PublishedRef(c))))
  {
    var operate := Operate(pid, true, artifacts, n);
    SessionRuns(s, pid, parent, stageName, stageKey, xs, operate, ys);
    var t := Run(s, Session(pid, parent, stageName, stageKey, xs, operate, ys));
    var stage := RecordOf(t.processes[pid], n, StageSucceeded, artifacts);
    if Childless(t.files, parent) {
      SuccessAlone(t, pid, stage, artifacts, now);
    } else {
      var c :| IsChild(t.files, parent, c);
      SuccessTooLate(t, pid, stage, artifacts, now, c);
      forall d | IsChild(t.files, parent, d) ensures d == c { ChildIsUnique(t.files, parent, c, d); }
    }
  }

  /** The same for an operation that fails: it publishes a failure revision, or takes over whatever result is there. */
  lemma FailedOperation(s: System, pid: nat, parent: RunManifest, stageName: string, stageKey: string,
                        xs: seq<Action>, artifacts: seq<ArtifactRef>, n: nat, ys: seq<Action>, now: int)
    requires MayOperate(s, pid, parent, xs, ys)
    requires forall r | r in parent.stages :: r.name != stageName || r.attempt != n
    ensures var t := Run(s, Session(pid, parent, stageName, stageKey, xs, Operate(pid, false, artifacts, n), ys));
            var u := Step(t, PublishFailure(pid, NoFault, now));
            var v := Step(u, ReadFailureWinner(pid, true, true));
            && (Childless(t.files, parent) ==>
                  Publishes(t, u, pid, StageRecord(stageName, n, StageFailed, stageKey, [PublishedRef(parent)], []), [], false))
            && (forall c | IsChild(t.files, parent, c) ::
                  && v.files == t.files && pid in v.processes && v.processes[pid].pc.Returned?
                  && FollowsChild(v.processes[pid].pc.answer, c, stageName, stageKey))
  {
    var operate := Operate(pid, false, artifacts, n);
    SessionRuns(s, pid, parent, stageName, stageKey, xs, operate, ys);
    var t := Run(s, Session(pid, parent, stageName, stageKey, xs, operate, ys));
    var stage := RecordOf(t.processes[pid], n, StageFailed, []);
    if Childless(t.files, parent) {
      FailureAlone(t, pid, stage, now);
    } else {
      var c :| IsChild(t.files, parent, c);
      FailureTooLate(t, pid, stage, now, c);
      forall d | IsChild(t.files, parent, d) ensures d == c { ChildIsUnique(t.files, parent, c, d); }
    }
  }

  // -------------------------------------------------- faults and outsiders

  /** How far a caller has got; every action takes it as far as that action goes. */
  function Progress(pc: Pc): nat {
    match pc
    case Loading => 0
    case Operating => 1
    case Publishing(_, _) => 2
    case Contested(_) => 3
    case Failing(_) => 4
    case FailureContested => 5
    case _ => 6
  }

  function StageOf(a: Action): nat {
    match a
    case LoadParent(_, _, _) => 1
    case Operate(_, _, _, _) => 2
    case PublishSuccess(_, _, _) => 3
    case ReadWinner(_, _, _) => 4
    case PublishFailure(_, _, _) => 5
    case ReadFailureWinner(_, _, _) => 6
    case _ => 0
  }

  lemma PublicationAdvances(files: Files, p: Process, a: Action)
    requires a.PublishSuccess? || a.PublishFailure?
    requires Progress(p.pc) + 1 >= StageOf(a)
    ensures Progress(StepProcess(files, p, a).1.pc) >= StageOf(a)
  {
    if a.PublishSuccess? && p.pc.Publishing? {
      var attempt := Attempted(files, p, p.pc.stage, p.pc.artifacts, a.fault, a.now);
      assert attempt.Refused? || attempt.Invalid? || attempt.Faulty? || attempt.Done?;
    } else if a.PublishFailure? && p.pc.Failing? {
      var attempt := Attempted(files, p, p.pc.failed, [], a.fault, a.now);
      assert attempt.Refused? || attempt.Invalid? || attempt.Faulty? || attempt.Done?;
    }
  }

  lemma ProcessAdvances(files: Files, p: Process, a: Action)
    requires !a.Unrelated? && Progress(p.pc) + 1 >= StageOf(a)
    ensures Progress(StepProcess(files, p, a).1.pc) >= StageOf(a)
  {
    match a
    case PublishSuccess(_, _, _) => PublicationAdvances(files, p, a);
    case PublishFailure(_, _, _) => PublicationAdvances(files, p, a);
    case LoadParent(_, _, _) =>
    case ReadWinner(_, _, _) =>
    case ReadFailureWinner(_, _, _) =>
    case _ =>
  }

  lemma StepAdvances(s: System, a: Action, pid: nat)
    requires pid in s.processes && !a.Unrelated? && a.pid == pid && Progress(s.processes[pid].pc) + 1 >= StageOf(a)
    ensures pid in Step(s, a).processes && Progress(Step(s, a).processes[pid].pc) >= StageOf(a)
  {
    ProcessAdvances(s.files, s.processes[pid], a);
  }

  /** The six steps of this caller, in order, among whatever the others do. */
  ghost predicate InOrder(actions: seq<Action>, pid: nat, from: nat)
    decreases |actions|
  {
    if actions == [] then from == 6
    else if actions[0].Unrelated? || actions[0].pid != pid then InOrder(actions[1..], pid, from)
    else StageOf(actions[0]) == from + 1 && InOrder(actions[1..], pid, from + 1)
  }

  lemma {:induction false} ProgressesInOrder(s: System, actions: seq<Action>, pid: nat, from: nat)
    requires pid in s.processes && InOrder(actions, pid, from) && Progress(s.processes[pid].pc) >= from
    ensures pid in Run(s, actions).processes && Progress(Run(s, actions).processes[pid].pc) >= 6
    decreases |actions|
  {
    if actions != [] {
      var a := actions[0];
      assert actions == [a] + actions[1..];
      RunConcat(s, [a], actions[1..]);
      RunOne(s, a);
      if a.Unrelated? || a.pid != pid {
        assert NotBy([a], pid);
        OthersLeave(s, [a], pid);
        ProgressesInOrder(Step(s, a), actions[1..], pid, from);
      } else {
        StepAdvances(s, a, pid);
        ProgressesInOrder(Step(s, a), actions[1..], pid, from + 1);
      }
    }
  }

  /** A caller that takes its six steps in order, whatever it meets and whatever the others do, ends. */
  lemma EverySessionEnds(s: System, actions: seq<Action>, pid: nat)
    requires pid in s.processes && InOrder(actions, pid, 0)
    ensures var p := Run(s, actions).processes; pid in p && (p[pid].pc.Returned? || p[pid].pc.Raised? || p[pid].pc.Dead?)
  {
    ProgressesInOrder(s, actions, pid, 0);
  }

  /** A write that fails before the rename leaves no trace: the caller publishes its failure instead. */
  lemma FailureAfterLostWrite(t: System, pid: nat, stage: StageRecord, artifacts: seq<ArtifactRef>, now: int, later: int)
    requires Ready(t, pid, Publishing(stage, artifacts), stage.attempt) && stage.name == t.processes[pid].stageName
    requires Childless(t.files, t.processes[pid].parent)
    ensures var u := Step(t, PublishSuccess(pid, BeforeRename, now));
            u.files == t.files &&
            Publishes(u, Step(u, PublishFailure(pid, NoFault, later)), pid,
                      RecordOf(t.processes[pid], stage.attempt, StageFailed, []), [], false)
  {
    var u := Step(t, PublishSuccess(pid, BeforeRename, now));
    var c := FirstAttemptIsDone(t.files, t.processes[pid], stage, artifacts, now);
    StepKeeps(t, PublishSuccess(pid, BeforeRename, now));
    FailureAlone(u, pid, RecordOf(t.processes[pid], stage.attempt, StageFailed, []), later);
  }

  lemma RenamedWrite(t: System, pid: nat, stage: StageRecord, artifacts: seq<ArtifactRef>, now: int)
    returns (c: RunManifest)
    requires Ready(t, pid, Publishing(stage, artifacts), stage.attempt) && stage.name == t.processes[pid].stageName
    requires Childless(t.files, t.processes[pid].parent)
    ensures var p, u := t.processes[pid], Step(t, PublishSuccess(pid, AfterRename, now));
            && AddsChild(t.files, u.files, p.parent, c) && HoldsStage(c, p.parent, stage, artifacts)
            && pid in u.processes && u.processes[pid].parent == p.parent && u.processes[pid].stageName == p.stageName
            && u.processes[pid].stageKey == p.stageKey
            && Ready(u, pid, Failing(RecordOf(p, stage.attempt, StageFailed, [])), stage.attempt)
  {
    c := FirstAttemptIsDone(t.files, t.processes[pid], stage, artifacts, now);
    StepKeeps(t, PublishSuccess(pid, AfterRename, now));
  }

  /** A write that fails after the rename has published: the caller's failure loses to its own success and returns it. */
  lemma SuccessAfterRenamedWrite(t: System, pid: nat, stage: StageRecord, artifacts: seq<ArtifactRef>, now: int, later: int)
    requires Ready(t, pid, Publishing(stage, artifacts), stage.attempt)
    requires stage == RecordOf(t.processes[pid], stage.attempt, StageSucceeded, artifacts)
    requires Childless(t.files, t.processes[pid].parent)
    ensures var u := Step(t, PublishSuccess(pid, AfterRename, now));
            var v := Step(Step(u, PublishFailure(pid, NoFault, later)), ReadFailureWinner(pid, true, true));
            Publishes(t, v, pid, stage, artifacts, true)
  {
    var p := t.processes[pid];
    var c := RenamedWrite(t, pid, stage, artifacts, now);
    FailureTooLate(Step(t, PublishSuccess(pid, AfterRename, now)), pid, RecordOf(p, stage.attempt, StageFailed, []), later, c);
    assert TakesOver(StageDone(PublishedRef(c)), c, p.stageName, p.stageKey);
  }

  /** A publisher outside this operation that revises the parent takes the place of its child like any caller. */
  lemma OutsiderPublishes(t: System, parent: RunManifest, stage: StageRecord, artifacts: seq<ArtifactRef>, now: int)
    requires Inv(t) && Load(t.files, PublishedRef(parent)).Some? && Childless(t.files, parent) && NotRecorded(parent, stage)
    ensures var u := Step(t, Unrelated(Revise(PublishedRef(parent), Some(stage), artifacts), now));
            exists c :: AddsChild(t.files, u.files, parent, c) && HoldsStage(c, parent, stage, artifacts)
  {
    var p := Opened(parent, stage.name, stage.stageKey, Operating);
    var c := FirstAttemptIsDone(t.files, p, stage, artifacts, now);
  }

  /** A killed caller does nothing more. */
  lemma {:induction false} KilledStaysSilent(s: System, actions: seq<Action>, pid: nat)
    requires pid in s.processes && !s.processes[pid].pc.Returned? && !s.processes[pid].pc.Raised?
    ensures var t := Run(Step(s, KillProcess(pid)), actions);
            && pid in t.processes && t.processes[pid] == s.processes[pid].(pc := Dead)
            && forall a: Action | !a.Unrelated? && a.pid == pid :: Step(t, a).files == t.files
  {
    if actions != [] {
      KilledStaysSilent(s, actions[..|actions| - 1], pid);
    }
  }

  // --------------------------------------------------------- main results

  const NOTHING := System(map[], map[])

  /** A parent never has two children, and the one it has stays. */
  lemma OneChildForever(s: System, actions: seq<Action>, parent: RunManifest, c: RunManifest, d: RunManifest)
    requires Inv(s) && IsChild(s.files, parent, c)
    requires IsChild(Run(s, actions).files, parent, d)
    ensures d == c
  {
    RunKeeps(s, actions);
    ChildIsUnique(Run(s, actions).files, parent, c, d);
  }

  /**
   In every run, whatever faults it met, a caller that returns anything but an error of its own names the one child of
   its parent, and reports success exactly when that child's last stage carries its own stage name and key and
   succeeded; a failure only when it carries them and failed; otherwise a conflict. Only a fault makes a caller return
   an error of its own or raise.
   */
  lemma EveryCallerReturnsTheChild(actions: seq<Action>, pid: nat)
    requires pid in Run(NOTHING, actions).processes
    ensures var s := Run(NOTHING, actions);
            var p := s.processes[pid];
            p.pc.Returned? && !p.pc.answer.OtherError? ==>
              exists c :: IsChild(s.files, p.parent, c)
                       && (forall d | IsChild(s.files, p.parent, d) :: d == c)
                       && p.pc.answer.manifest == PublishedRef(c)
                       && (p.pc.answer.StageDone? <==>
                             Mine(c, p.stageName, p.stageKey) && LastStatus(c).StageSucceeded?)
                       && (p.pc.answer.StageError? ==> Mine(c, p.stageName, p.stageKey) && LastStatus(c).StageFailed?)
    ensures var p := Run(NOTHING, actions).processes[pid];
            (p.pc.Returned? && p.pc.answer.OtherError?) || p.pc.Raised? ==> p.faulted
    ensures var s := Run(NOTHING, actions);
            var p := s.processes[pid];
            p.pc.Returned? && p.pc.answer.OtherError? ==>
              || p.pc.answer.manifest == PublishedRef(p.parent)
              || exists c :: IsChild(s.files, p.parent, c) && p.pc.answer.manifest == PublishedRef(c)
  {
    RunKeeps(NOTHING, actions);
    var s := Run(NOTHING, actions);
    var p := s.processes[pid];
    assert ProcessOk(s.files, p);
    if p.pc.Returned? && !p.pc.answer.OtherError? {
      var c :| IsChild(s.files, p.parent, c) && AnswerFits(p, p.pc.answer, c);
      forall d | IsChild(s.files, p.parent, d) ensures d == c {
        ChildIsUnique(s.files, p.parent, c, d);
      }
    }
  }

  /** The action would publish a stage whose name and attempt the parent already records. */
  ghost predicate Rerecords(p: Process, stage: StageRecord) {
    !NotRecorded(p.parent, stage)
  }

  /** The action meets an unreadable file, an unverifiable child, a failing write or an attempt number taken before. */
  ghost predicate Troubles(s: System, a: Action, pid: nat) {
    !a.Unrelated? && a.pid == pid && pid in s.processes &&
    var p := s.processes[pid];
    match a
    case LoadParent(_, readable, childReadable) => !readable || !childReadable || Load(s.files, PublishedRef(p.parent)).None?
    case PublishSuccess(_, fault, _) => p.pc.Publishing? && (fault != NoFault || Rerecords(p, p.pc.stage))
    case PublishFailure(_, fault, _) => p.pc.Failing? && (fault != NoFault || Rerecords(p, p.pc.failed))
    case ReadWinner(_, scanned, readable) => !scanned || !readable
    case ReadFailureWinner(_, scanned, readable) => !scanned || !readable
    case _ => false
  }

  /** Nothing of the kind happened to this caller. */
  ghost predicate Untroubled(actions: seq<Action>, pid: nat) {
    actions == [] ||
    (Untroubled(actions[..|actions| - 1], pid) && !Troubles(Run(NOTHING, actions[..|actions| - 1]), actions[|actions| - 1], pid))
  }

  lemma AttemptIsValid(files: Files, p: Process, stage: StageRecord, artifacts: seq<ArtifactRef>, now: int)
    requires StoreOk(files) && Load(files, PublishedRef(p.parent)) == Some(p.parent) && NotRecorded(p.parent, stage)
    ensures var a := Attempted(files, p, stage, artifacts, NoFault, now); a.Refused? || a.Done?
  {
    if Childless(files, p.parent) {
      var c := FirstAttemptIsDone(files, p, stage, artifacts, now);
    } else {
      var c :| IsChild(files, p.parent, c);
      LateAttemptAddsNothing(files, p, stage, artifacts, now, c);
    }
  }

  lemma OnlyTroubleFaultsStep(s: System, a: Action, pid: nat)
    requires Inv(s) && pid in Step(s, a).processes && !Troubles(s, a, pid)
    requires pid in s.processes ==> !s.processes[pid].faulted
    ensures !Step(s, a).processes[pid].faulted
  {
    if pid in s.processes && !a.Unrelated? && a.pid == pid {
      var p := s.processes[pid];
      assert ProcessOk(s.files, p);
      LookupFinds(s.files, p.parent);
      if a.PublishSuccess? && p.pc.Publishing? {
        AttemptIsValid(s.files, p, p.pc.stage, p.pc.artifacts, a.now);
      } else if a.PublishFailure? && p.pc.Failing? {
        AttemptIsValid(s.files, p, p.pc.failed, [], a.now);
      }
    }
  }

  /** In every run, a caller to which nothing of the kind happened returns no error of its own, and raises nothing. */
  lemma {:induction false} OnlyTroubleFaults(actions: seq<Action>, pid: nat)
    requires Untroubled(actions, pid) && pid in Run(NOTHING, actions).processes
    ensures var p := Run(NOTHING, actions).processes[pid];
            !p.faulted && !p.pc.Raised? && (p.pc.Returned? ==> !p.pc.answer.OtherError?)
  {
    RunKeeps(NOTHING, actions);
    assert ProcessOk(Run(NOTHING, actions).files, Run(NOTHING, actions).processes[pid]);
    if actions != [] {
      var before, a := actions[..|actions| - 1], actions[|actions| - 1];
      RunKeeps(NOTHING, before);
      if pid in Run(NOTHING, before).processes { OnlyTroubleFaults(before, pid); }
      OnlyTroubleFaultsStep(Run(NOTHING, before), a, pid);
    }
  }

  /** One of the actions of this process changed the store. */
  ghost predicate Wrote(actions: seq<Action>, pid: nat) {
    actions != [] &&
    var before, a := actions[..|actions| - 1], actions[|actions| - 1];
    || Wrote(before, pid)
    || (!a.Unrelated? && a.pid == pid && Step(Run(NOTHING, before), a).files != Run(NOTHING, before).files)
  }

  lemma {:induction false} PublishedExactlyWhen(actions: seq<Action>, pid: nat)
    ensures Wrote(actions, pid) <==> pid in Run(NOTHING, actions).processes && Run(NOTHING, actions).processes[pid].published
  {
    if actions != [] {
      PublishedExactlyWhen(actions[..|actions| - 1], pid);
      PublishedByStep(Run(NOTHING, actions[..|actions| - 1]), actions[|actions| - 1], pid);
    }
  }

  ghost predicate HasPublished(s: System, pid: nat) {
    pid in s.processes && s.processes[pid].published
  }

  lemma PublishedByStep(s: System, a: Action, pid: nat)
    ensures HasPublished(Step(s, a), pid) <==>
              HasPublished(s, pid) || (!a.Unrelated? && a.pid == pid && Step(s, a).files != s.files)
  {
  }

  /** Whoever's stage is not the child's wrote nothing, and whatever it met, no result but a conflict or an error. */
  lemma LosersPublishNothing(actions: seq<Action>, pid: nat, c: RunManifest)
    requires var s := Run(NOTHING, actions);
             pid in s.processes && IsChild(s.files, s.processes[pid].parent, c)
             && !Mine(c, s.processes[pid].stageName, s.processes[pid].stageKey)
    ensures !Wrote(actions, pid)
    ensures var p := Run(NOTHING, actions).processes[pid];
            p.pc.Returned? ==> p.pc.answer.InConflict? || p.pc.answer.OtherError?
  {
    RunKeeps(NOTHING, actions);
    PublishedExactlyWhen(actions, pid);
    var s := Run(NOTHING, actions);
    var p := s.processes[pid];
    assert ProcessOk(s.files, p);
    if p.published {
      var d :| IsChild(s.files, p.parent, d) && Mine(d, p.stageName, p.stageKey);
      ChildIsUnique(s.files, p.parent, c, d);
    }
    if p.pc.Returned? && !p.pc.answer.OtherError? {
      var d :| IsChild(s.files, p.parent, d) && AnswerFits(p, p.pc.answer, d);
      ChildIsUnique(s.files, p.parent, c, d);
    }
  }
}
