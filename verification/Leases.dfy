/**
 One device: its owner record, heartbeat files, remote attempt directories and the lock that guards them.
 Holders run `DeviceRuntime.stage`, collectors run `device_gc`; each file write and each device command is one
 action, and a process can die between any two. Every finite sequence of actions is a run.
 */
module Leases {
  import opened Common

  type Pid = nat
  type Token = nat
  type Dir = string

  const INTERVAL_CAP := 60

  /** The owner file. `stamp` is what `stat` tells apart about one write of it. */
  datatype Record = Record(token: Token, interval: int, attempts: set<Dir>, stamp: nat, writtenAt: int)

  datatype HolderPc =
    | Acquiring(beating: bool)                     // owner file published, lock held
    | Held                                         // acquired, nothing recorded
    | Recording(dir: Dir, read: set<Dir>)          // owner read, not yet replaced
    | Recorded(dir: Dir)                           // pointer on disk; the directory may exist
    | Cleaned(dir: Dir)                            // remote removal confirmed
    | Forgetting(dir: Dir, read: set<Dir>)         // owner read, not yet replaced
    | Stopping                                     // heartbeat stopped, about to release
    | Unlinking                                    // releasing under the lock, heartbeat file gone
    | Finished
    | Dead

  datatype Holder = Holder(token: Token, interval: int, pc: HolderPc)

  datatype CollectorPc =
    | Idle
    | Scanned(candidate: Record)
    | Removing(current: Record, left: set<Dir>)
    | Dropping(current: Record)                    // every directory gone, heartbeat file gone

  datatype Collector = Collector(limit: int, grace: int, pc: CollectorPc)

  datatype Lock = Free | ByHolder(holder: Pid) | ByCollector(collector: Pid)

  datatype Device = Device(
    now: int,
    owner: Option<Record>,
    heartbeats: map<Token, int>,
    remote: set<Dir>,
    lock: Lock,
    used: set<Token>,
    holders: map<Pid, Holder>,
    collectors: map<Pid, Collector>)

  datatype Action =
    | Tick(elapsed: nat)
    | Beat(token: Token)
    // holders
    | Acquire(pid: Pid, token: Token, interval: int, stamp: nat)
    | FirstBeat(pid: Pid)
    | AcquireDone(pid: Pid)
    | AbortBeat(pid: Pid)
    | AbortOwner(pid: Pid)
    | ReadForRecord(pid: Pid, dir: Dir)
    | WriteRecord(pid: Pid, stamp: nat)
    | RemoteWork(pid: Pid)
    | RemoteRemoved(pid: Pid)
    | RemoteRemovalFailed(pid: Pid, gone: bool)
    | ReadForForget(pid: Pid)
    | WriteForget(pid: Pid, stamp: nat)
    | GiveUp(pid: Pid)                             // any exception before release
    | Release(pid: Pid)
    | ReleaseOwner(pid: Pid)
    | KillHolder(pid: Pid)
    // collectors
    | Scan(pid: Pid, limit: int, grace: int)
    | Check(pid: Pid)
    | CollectDir(pid: Pid, dir: Dir)
    | CollectDirFailed(pid: Pid, dir: Dir, gone: bool)
    | DropBeat(pid: Pid)
    | DropOwner(pid: Pid)
    | KillCollector(pid: Pid)

  function Min(a: int, b: int): int { if a < b then a else b }

  function Max(a: int, b: int): int { if a < b then b else a }

  /** A collector with limit `limit` lets a heartbeat of this interval age this long. */
  function Patience(limit: int, interval: int): int {
    if interval > 0 then Max(limit, 3 * Min(interval, INTERVAL_CAP)) else limit
  }

  /** `lease_snapshot`: heartbeat age, or the record's own age when its heartbeat file is missing. */
  predicate Stale(s: Device, r: Record, limit: int, grace: int) {
    if r.token in s.heartbeats
    then Max(0, s.now - s.heartbeats[r.token]) > Patience(limit, r.interval)
    else Max(0, s.now - r.writtenAt) > grace
  }

  predicate Owns(s: Device, h: Holder) {
    s.owner.Some? && s.owner.value.token == h.token
  }

  function Put(s: Device, p: Pid, pc: HolderPc): Device
    requires p in s.holders
  {
    s.(holders := s.holders[p := s.holders[p].(pc := pc)])
  }

  function PutC(s: Device, p: Pid, pc: CollectorPc): Device
    requires p in s.collectors
  {
    s.(collectors := s.collectors[p := s.collectors[p].(pc := pc)])
  }

  /** `_replace_owner`: under the lock, only the token is compared; the whole payload is what was read before. */
  function Replaced(s: Device, h: Holder, attempts: set<Dir>, stamp: nat): Device {
    s.(owner := Some(Record(h.token, h.interval, attempts, stamp, s.now)))
  }

  /** `acquire`, under the lock from the first write to the last. */
  function AcquireStep(s: Device, a: Action, p: Pid): Device
    requires p in s.holders
  {
    var h := s.holders[p];
    match a
    case FirstBeat(_) =>
      if h.pc == Acquiring(false) then Put(s, p, Acquiring(true)).(heartbeats := s.heartbeats[h.token := s.now]) else s
    case AcquireDone(_) =>
      if h.pc == Acquiring(true) then Put(s, p, Held).(lock := Free) else s
    case AbortBeat(_) =>
      if h.pc == Acquiring(true) then Put(s, p, Acquiring(false)).(heartbeats := s.heartbeats - {h.token}) else s
    case AbortOwner(_) =>
      if h.pc == Acquiring(false) then Put(s, p, Finished).(owner := None, lock := Free) else s
    case _ => s
  }

  /** `record_attempt_dir` and `forget_attempt_dir`: the owner is read outside the lock and replaced under it. */
  function RecordStep(s: Device, a: Action, p: Pid): Device
    requires p in s.holders
  {
    var h := s.holders[p];
    match a
    case ReadForRecord(_, dir) =>
      if h.pc != Held then s
      else if Owns(s, h) then Put(s, p, Recording(dir, s.owner.value.attempts)) else Put(s, p, Stopping)
    case WriteRecord(_, stamp) =>
      if !h.pc.Recording? || s.lock != Free then s
      else if Owns(s, h) then Put(Replaced(s, h, h.pc.read + {h.pc.dir}, stamp), p, Recorded(h.pc.dir))
      else Put(s, p, Stopping)
    case ReadForForget(_) =>
      if !h.pc.Cleaned? then s
      else if Owns(s, h) then Put(s, p, Forgetting(h.pc.dir, s.owner.value.attempts)) else Put(s, p, Stopping)
    case WriteForget(_, stamp) =>
      if !h.pc.Forgetting? || s.lock != Free then s
      else if Owns(s, h) then Put(Replaced(s, h, h.pc.read - {h.pc.dir}, stamp), p, Stopping)
      else Put(s, p, Stopping)
    case _ => s
  }

  /** Device commands: no lock is held while they run. */
  function WorkStep(s: Device, a: Action, p: Pid): Device
    requires p in s.holders
  {
    var h := s.holders[p];
    match a
    case RemoteWork(_) =>
      if h.pc.Recorded? then s.(remote := s.remote + {h.pc.dir}) else s
    case RemoteRemoved(_) =>
      if h.pc.Recorded? then Put(s, p, Cleaned(h.pc.dir)).(remote := s.remote - {h.pc.dir}) else s
    case RemoteRemovalFailed(_, gone) =>
      if h.pc.Recorded? then Put(s, p, Stopping).(remote := if gone then s.remote - {h.pc.dir} else s.remote) else s
    case GiveUp(_) =>
      if h.pc.Held? || h.pc.Recording? || h.pc.Cleaned? || h.pc.Forgetting? then Put(s, p, Stopping) else s
    case _ => s
  }

  /** `release`, and the end of a holder at any point. */
  function EndStep(s: Device, a: Action, p: Pid): Device
    requires p in s.holders
  {
    var h := s.holders[p];
    match a
    case Release(_) =>
      if h.pc != Stopping || s.lock != Free then s
      else if !Owns(s, h) then Put(s, p, Finished).(heartbeats := s.heartbeats - {h.token})
      else if s.owner.value.attempts != {} then Put(s, p, Finished)
      else Put(s, p, Unlinking).(heartbeats := s.heartbeats - {h.token}, lock := ByHolder(p))
    case ReleaseOwner(_) =>
      if h.pc == Unlinking then Put(s, p, Finished).(owner := None, lock := Free) else s
    case KillHolder(_) =>
      Put(s, p, Dead).(lock := if s.lock == ByHolder(p) then Free else s.lock)
    case _ => s
  }

  predicate Acquires(a: Action) {
    a.FirstBeat? || a.AcquireDone? || a.AbortBeat? || a.AbortOwner?
  }

  predicate Records(a: Action) {
    a.ReadForRecord? || a.WriteRecord? || a.ReadForForget? || a.WriteForget?
  }

  predicate Works(a: Action) {
    a.RemoteWork? || a.RemoteRemoved? || a.RemoteRemovalFailed? || a.GiveUp?
  }

  predicate Collects(a: Action) {
    a.Check? || a.CollectDir? || a.CollectDirFailed? || a.DropBeat? || a.DropOwner? || a.KillCollector?
  }

  predicate Opens(a: Action) {
    a.Tick? || a.Beat? || a.Acquire? || a.Scan?
  }

  function HolderStep(s: Device, a: Action, p: Pid): Device
    requires p in s.holders
  {
    if Acquires(a) then AcquireStep(s, a, p)
    else if Records(a) then RecordStep(s, a, p)
    else if Works(a) then WorkStep(s, a, p)
    else EndStep(s, a, p)
  }

  function CollectorStep(s: Device, a: Action, p: Pid): Device
    requires p in s.collectors
  {
    var g := s.collectors[p];
    match a
    case Check(_) =>
      if !g.pc.Scanned? || s.lock != Free then s
      else if s.owner == Some(g.pc.candidate) && Stale(s, g.pc.candidate, g.limit, g.grace)
      then PutC(s, p, Removing(g.pc.candidate, g.pc.candidate.attempts)).(lock := ByCollector(p))
      else PutC(s, p, Idle)
    case CollectDir(_, dir) =>
      if g.pc.Removing? && dir in g.pc.left
      then PutC(s, p, Removing(g.pc.current, g.pc.left - {dir})).(remote := s.remote - {dir}) else s
    case CollectDirFailed(_, dir, gone) =>
      if g.pc.Removing? && dir in g.pc.left
      then PutC(s, p, Idle).(lock := Free, remote := if gone then s.remote - {dir} else s.remote) else s
    case DropBeat(_) =>
      if g.pc.Removing? && g.pc.left == {}
      then PutC(s, p, Dropping(g.pc.current)).(heartbeats := s.heartbeats - {g.pc.current.token}) else s
    case DropOwner(_) =>
      if g.pc.Dropping? then PutC(s, p, Idle).(owner := None, lock := Free) else s
    case KillCollector(_) =>
      PutC(s, p, Idle).(lock := if s.lock == ByCollector(p) then Free else s.lock)
    case _ => s
  }

  function OpenStep(s: Device, a: Action): Device {
    match a
    case Tick(elapsed) => s.(now := s.now + elapsed)
    case Beat(token) => if token in s.used then s.(heartbeats := s.heartbeats[token := s.now]) else s
    case Acquire(pid, token, interval, stamp) =>
      if pid in s.holders || token in s.used || s.lock != Free || s.owner.Some? then s
      else s.(owner := Some(Record(token, interval, {}, stamp, s.now)), lock := ByHolder(pid), used := s.used + {token},
              holders := s.holders[pid := Holder(token, interval, Acquiring(false))])
    case Scan(pid, limit, grace) =>
      if limit <= 0 || grace <= 0 || (pid in s.collectors && !s.collectors[pid].pc.Idle?) then s
      else if s.owner.None? || !Stale(s, s.owner.value, limit, grace) then s
      else s.(collectors := s.collectors[pid := Collector(limit, grace, Scanned(s.owner.value))])
    case _ => s
  }

  function Step(s: Device, a: Action): Device {
    if Opens(a) then OpenStep(s, a)
    else if Collects(a) then if a.pid in s.collectors then CollectorStep(s, a, a.pid) else s
    else if a.pid in s.holders then HolderStep(s, a, a.pid) else s
  }

  function Run(s: Device, actions: seq<Action>): Device {
    if actions == [] then s else Step(Run(s, actions[..|actions| - 1]), actions[|actions| - 1])
  }

  const START := Device(0, None, map[], {}, Free, {}, map[], map[])

  // ------------------------------------------------- what every run keeps

  /** Phases in which a holder may still touch the device or its record. */
  predicate Live(h: Holder) {
    h.pc.Acquiring? || h.pc.Held? || h.pc.Recording? || h.pc.Recorded? || h.pc.Cleaned? || h.pc.Forgetting?
  }

  /** Inside a critical section of `acquire` or `release`. */
  predicate Inside(h: Holder) {
    h.pc.Acquiring? || h.pc.Unlinking?
  }

  predicate InsideC(g: Collector) {
    g.pc.Removing? || g.pc.Dropping?
  }

  /** Whoever holds the lock is in the middle of exactly the critical section it should be in. */
  predicate LockOk(s: Device) {
    && (s.lock.ByHolder? ==>
          s.lock.holder in s.holders && Inside(s.holders[s.lock.holder])
          && Owns(s, s.holders[s.lock.holder]) && s.owner.value.attempts == {})
    && (s.lock.ByCollector? ==>
          s.lock.collector in s.collectors && InsideC(s.collectors[s.lock.collector])
          && s.owner == Some(s.collectors[s.lock.collector].pc.current))
    && (forall p | p in s.holders && Inside(s.holders[p]) :: s.lock == ByHolder(p))
    && (forall p | p in s.collectors && InsideC(s.collectors[p]) :: s.lock == ByCollector(p))
  }

  predicate TokensOk(s: Device) {
    && (forall p | p in s.holders :: s.holders[p].token in s.used)
    && (forall p, q | p in s.holders && q in s.holders && p != q :: s.holders[p].token != s.holders[q].token)
    && (s.owner.Some? ==> s.owner.value.token in s.used)
  }

  /** In every run, stalled heartbeats or not: mutual exclusion on the files themselves. */
  predicate FilesOk(s: Device) {
    LockOk(s) && TokensOk(s)
  }

  /** One holder's step, seen from outside: it writes the owner file only while nobody else holds the lock. */
  predicate HolderMove(s: Device, t: Device, p: Pid) {
    && p in s.holders && p in t.holders && t.holders == s.holders[p := t.holders[p]]
    && t.holders[p].token == s.holders[p].token && t.collectors == s.collectors && t.used == s.used
    && (t.owner == s.owner || ((t.owner == None || Owns(t, t.holders[p])) && (s.lock == Free || s.lock == ByHolder(p))))
    && (t.lock == s.lock || (s.lock == Free && t.lock == ByHolder(p)) || (s.lock == ByHolder(p) && t.lock == Free))
    && (Inside(t.holders[p]) <==> t.lock == ByHolder(p))
    && (t.lock == ByHolder(p) ==> Owns(t, t.holders[p]) && t.owner.value.attempts == {})
  }

  predicate CollectorMove(s: Device, t: Device, p: Pid) {
    && p in s.collectors && p in t.collectors && t.collectors == s.collectors[p := t.collectors[p]]
    && t.holders == s.holders && t.used == s.used
    && (t.owner == s.owner || (t.owner == None && s.lock == ByCollector(p)))
    && (t.lock == s.lock || (s.lock == Free && t.lock == ByCollector(p)) || (s.lock == ByCollector(p) && t.lock == Free))
    && (InsideC(t.collectors[p]) <==> t.lock == ByCollector(p))
    && (t.lock == ByCollector(p) ==> t.owner == Some(t.collectors[p].pc.current))
  }

  lemma HolderMoveKeepsFiles(s: Device, t: Device, p: Pid)
    requires FilesOk(s) && HolderMove(s, t, p)
    ensures FilesOk(t)
  {
  }

  lemma CollectorMoveKeepsFiles(s: Device, t: Device, p: Pid)
    requires FilesOk(s) && CollectorMove(s, t, p)
    ensures FilesOk(t)
  {
  }

  lemma AcquireMoves(s: Device, a: Action, p: Pid)
    requires FilesOk(s) && p in s.holders
    ensures HolderMove(s, AcquireStep(s, a, p), p)
  {
  }

  lemma RecordMoves(s: Device, a: Action, p: Pid)
    requires FilesOk(s) && p in s.holders
    ensures HolderMove(s, RecordStep(s, a, p), p)
  {
    var t := RecordStep(s, a, p);
    assert t.lock == s.lock && t.collectors == s.collectors && t.used == s.used;
    assert t.owner == s.owner || (s.lock == Free && Owns(t, t.holders[p]));
    assert Inside(t.holders[p]) == Inside(s.holders[p]);
  }

  lemma WorkMoves(s: Device, a: Action, p: Pid)
    requires FilesOk(s) && p in s.holders
    ensures HolderMove(s, WorkStep(s, a, p), p)
  {
  }

  lemma EndMoves(s: Device, a: Action, p: Pid)
    requires FilesOk(s) && p in s.holders
    ensures HolderMove(s, EndStep(s, a, p), p)
  {
    var t := EndStep(s, a, p);
    assert t.collectors == s.collectors && t.used == s.used && t.holders[p].token == s.holders[p].token;
    assert t.owner == s.owner || (t.owner == None && s.lock == ByHolder(p));
    assert Inside(s.holders[p]) ==> s.lock == ByHolder(p);
  }

  lemma HolderMoves(s: Device, a: Action, p: Pid)
    requires FilesOk(s) && p in s.holders
    ensures HolderMove(s, HolderStep(s, a, p), p)
  {
    AcquireMoves(s, a, p);
    RecordMoves(s, a, p);
    WorkMoves(s, a, p);
    EndMoves(s, a, p);
  }

  lemma CollectorMoves(s: Device, a: Action, p: Pid)
    requires FilesOk(s) && p in s.collectors
    ensures CollectorMove(s, CollectorStep(s, a, p), p)
  {
  }

  lemma OpeningKeepsFiles(s: Device, a: Action)
    requires FilesOk(s)
    ensures FilesOk(OpenStep(s, a))
  {
  }

  lemma StepKeepsFiles(s: Device, a: Action)
    requires FilesOk(s)
    ensures FilesOk(Step(s, a))
  {
    if Opens(a) {
      OpeningKeepsFiles(s, a);
    } else if Collects(a) {
      if a.pid in s.collectors {
        CollectorMoves(s, a, a.pid);
        CollectorMoveKeepsFiles(s, CollectorStep(s, a, a.pid), a.pid);
      }
    } else if a.pid in s.holders {
      HolderMoves(s, a, a.pid);
      HolderMoveKeepsFiles(s, HolderStep(s, a, a.pid), a.pid);
    }
  }

  lemma {:induction false} RunKeepsFiles(actions: seq<Action>)
    ensures FilesOk(Run(START, actions))
  {
    if actions != [] {
      RunKeepsFiles(actions[..|actions| - 1]);
      StepKeepsFiles(Run(START, actions[..|actions| - 1]), actions[|actions| - 1]);
    }
  }

  /**
   In every run the owner file disappears or changes only at the hands of its own holder, which then had the lock
   to itself, or of a collector that had the lock and took exactly this content for its own.
   */
  lemma OwnerChangesOnlyBy(actions: seq<Action>, a: Action)
    requires var s := Run(START, actions); s.owner.Some? && Step(s, a).owner != s.owner
    ensures var s, t := Run(START, actions), Step(Run(START, actions), a);
            if t.owner.Some? then
              && (a.WriteRecord? || a.WriteForget?) && a.pid in s.holders && Owns(s, s.holders[a.pid])
              && t.owner.value.token == s.owner.value.token && s.lock == Free
            else
              || ((a.AbortOwner? || a.ReleaseOwner?) && a.pid in s.holders && Owns(s, s.holders[a.pid])
                  && s.owner.value.attempts == {} && s.lock == ByHolder(a.pid))
              || (a.DropOwner? && a.pid in s.collectors && s.collectors[a.pid].pc == Dropping(s.owner.value)
                  && s.lock == ByCollector(a.pid))
  {
    RunKeepsFiles(actions);
    var s := Run(START, actions);
    if !Opens(a) && Collects(a) {
      CollectorMoves(s, a, a.pid);
    } else if !Opens(a) {
      assert a.pid in s.holders;
      HolderChangesOnlyBy(s, a, a.pid);
    }
  }

  lemma HolderChangesOnlyBy(s: Device, a: Action, p: Pid)
    requires FilesOk(s) && p in s.holders && s.owner.Some? && HolderStep(s, a, p).owner != s.owner
    ensures var t := HolderStep(s, a, p);
            if t.owner.Some? then
              && (a.WriteRecord? || a.WriteForget?) && Owns(s, s.holders[p])
              && t.owner.value.token == s.owner.value.token && s.lock == Free
            else
              && (a.AbortOwner? || a.ReleaseOwner?) && Owns(s, s.holders[p])
              && s.owner.value.attempts == {} && s.lock == ByHolder(p)
  {
  }

  /** From then on nobody else can touch the record: it leaves only by the collector's own last step. */
  lemma RemovalIsExclusive(actions: seq<Action>, a: Action, p: Pid)
    requires p in Run(START, actions).collectors && InsideC(Run(START, actions).collectors[p])
    ensures var s, t := Run(START, actions), Step(Run(START, actions), a);
            && s.owner == Some(s.collectors[p].pc.current) && s.lock == ByCollector(p)
            && (t.owner == s.owner || (t.owner == None && a == DropOwner(p) && s.collectors[p].pc.Dropping?))
            && (t.lock == s.lock || (Collects(a) && a.pid == p))
  {
    RunKeepsFiles(actions);
    var s := Run(START, actions);
    if Opens(a) {
    } else if Collects(a) {
      if a.pid in s.collectors { CollectorMoves(s, a, a.pid); }
    } else if a.pid in s.holders {
      HolderMoves(s, a, a.pid);
    }
  }

  // ------------------------------------------------- how a record is evicted

  /** The device after the first `k` actions of the run. */
  function At(actions: seq<Action>, k: nat): Device
    requires k <= |actions|
  {
    Run(START, actions[..k])
  }

  lemma AtPrefix(actions: seq<Action>, n: nat, k: nat)
    requires k <= n <= |actions|
    ensures At(actions[..n], k) == At(actions, k)
  {
    assert actions[..n][..k] == actions[..k];
  }

  /** Action `i` is the scan in which the collector saw the record overdue. */
  predicate ScansStale(actions: seq<Action>, i: nat, p: Pid, g: Collector, r: Record) {
    i < |actions| && actions[i] == Scan(p, g.limit, g.grace)
    && At(actions, i).owner == Some(r) && Stale(At(actions, i), r, g.limit, g.grace)
  }

  /** Action `j` is the check, under a lock that was free, that found the very same record still overdue. */
  predicate ConfirmsStale(actions: seq<Action>, j: nat, p: Pid, g: Collector, r: Record) {
    j < |actions| && actions[j] == Check(p) && At(actions, j).lock == Free
    && At(actions, j).owner == Some(r) && Stale(At(actions, j), r, g.limit, g.grace)
  }

  /** After action `j` the record stayed what it was, behind the collector's lock. */
  ghost predicate HeldSince(actions: seq<Action>, j: nat, p: Pid, r: Record) {
    forall k | j < k <= |actions| :: At(actions, k).owner == Some(r) && At(actions, k).lock == ByCollector(p)
  }

  /** After action `j` the device confirmed that this directory is gone. */
  ghost predicate CollectedSince(actions: seq<Action>, j: nat, p: Pid, dir: Dir) {
    exists k | j < k < |actions| :: actions[k] == CollectDir(p, dir)
  }

  function Left(g: Collector): set<Dir> {
    if g.pc.Removing? then g.pc.left else {}
  }

  lemma OthersLeaveCollector(s: Device, a: Action, p: Pid)
    requires FilesOk(s) && p in s.collectors && !s.collectors[p].pc.Idle? && !(Collects(a) && a.pid == p)
    ensures p in Step(s, a).collectors && Step(s, a).collectors[p] == s.collectors[p]
  {
    if !Opens(a) && !Collects(a) && a.pid in s.holders {
      HolderMoves(s, a, a.pid);
    }
  }

  lemma {:induction false} ScanHistory(actions: seq<Action>, p: Pid) returns (i: nat)
    requires p in Run(START, actions).collectors && Run(START, actions).collectors[p].pc.Scanned?
    ensures var g := Run(START, actions).collectors[p]; ScansStale(actions, i, p, g, g.pc.candidate)
  {
    var n := |actions| - 1;
    var s, a := Run(START, actions[..n]), actions[n];
    RunKeepsFiles(actions[..n]);
    if p in s.collectors && s.collectors[p].pc.Scanned? {
      if !(Collects(a) && a.pid == p) { OthersLeaveCollector(s, a, p); }
      i := ScanHistory(actions[..n], p);
      AtPrefix(actions, n, i);
    } else {
      i := n;
      if !Opens(a) && !Collects(a) && a.pid in s.holders { HolderMoves(s, a, a.pid); }
    }
  }

  /** What led a collector to a removal it is in the middle of. */
  ghost predicate Justified(actions: seq<Action>, i: nat, j: nat, p: Pid, g: Collector) {
    && InsideC(g) && i < j && ScansStale(actions, i, p, g, g.pc.current) && ConfirmsStale(actions, j, p, g, g.pc.current)
    && HeldSince(actions, j, p, g.pc.current)
    && forall dir | dir in g.pc.current.attempts && dir !in Left(g) :: CollectedSince(actions, j, p, dir)
  }

  lemma ScanStays(actions: seq<Action>, n: nat, i: nat, p: Pid, was: Collector, g: Collector, r: Record)
    requires n <= |actions| && g.limit == was.limit && g.grace == was.grace
    ensures ScansStale(actions[..n], i, p, was, r) ==> ScansStale(actions, i, p, g, r)
    ensures ConfirmsStale(actions[..n], i, p, was, r) ==> ConfirmsStale(actions, i, p, g, r)
  {
    if i < n { AtPrefix(actions, n, i); }
  }

  lemma HeldGoesOn(actions: seq<Action>, j: nat, p: Pid, r: Record)
    requires actions != [] && HeldSince(actions[..|actions| - 1], j, p, r)
    requires Run(START, actions).owner == Some(r) && Run(START, actions).lock == ByCollector(p)
    ensures HeldSince(actions, j, p, r)
  {
    var n := |actions| - 1;
    forall k | j < k <= |actions| ensures At(actions, k).owner == Some(r) && At(actions, k).lock == ByCollector(p) {
      if k <= n { AtPrefix(actions, n, k); } else { assert actions[..k] == actions; }
    }
  }

  lemma CollectedGoesOn(actions: seq<Action>, j: nat, p: Pid, dir: Dir)
    requires actions != [] && j < |actions| - 1
    requires CollectedSince(actions[..|actions| - 1], j, p, dir) || actions[|actions| - 1] == CollectDir(p, dir)
    ensures CollectedSince(actions, j, p, dir)
  {
    var n := |actions| - 1;
    if CollectedSince(actions[..n], j, p, dir) {
      var k :| j < k < n && actions[..n][k] == CollectDir(p, dir);
      assert actions[k] == CollectDir(p, dir);
    }
  }

  lemma RemovalGoesOn(s: Device, a: Action, p: Pid)
    requires FilesOk(s) && p in s.collectors && InsideC(s.collectors[p])
    requires p in Step(s, a).collectors && InsideC(Step(s, a).collectors[p])
    ensures var was, g := s.collectors[p], Step(s, a).collectors[p];
            && g.limit == was.limit && g.grace == was.grace && g.pc.current == was.pc.current
            && forall dir | dir in Left(was) && dir !in Left(g) :: a == CollectDir(p, dir)
  {
    if !(Collects(a) && a.pid == p) { OthersLeaveCollector(s, a, p); }
  }

  lemma JustifiedGoesOn(actions: seq<Action>, i: nat, j: nat, p: Pid, was: Collector)
    requires actions != [] && p in Run(START, actions[..|actions| - 1]).collectors
    requires was == Run(START, actions[..|actions| - 1]).collectors[p] && Justified(actions[..|actions| - 1], i, j, p, was)
    requires p in Run(START, actions).collectors && InsideC(Run(START, actions).collectors[p])
    ensures Justified(actions, i, j, p, Run(START, actions).collectors[p])
  {
    var n := |actions| - 1;
    var g := Run(START, actions).collectors[p];
    RunKeepsFiles(actions[..n]);
    RunKeepsFiles(actions);
    RemovalGoesOn(Run(START, actions[..n]), actions[n], p);
    ScanStays(actions, n, i, p, was, g, g.pc.current);
    ScanStays(actions, n, j, p, was, g, g.pc.current);
    HeldGoesOn(actions, j, p, g.pc.current);
    forall dir | dir in g.pc.current.attempts && dir !in Left(g) ensures CollectedSince(actions, j, p, dir) {
      CollectedGoesOn(actions, j, p, dir);
    }
  }

  lemma JustifiedFromThere(actions: seq<Action>, p: Pid) returns (i: nat)
    requires actions != [] && p in Run(START, actions).collectors && InsideC(Run(START, actions).collectors[p])
    requires var before := Run(START, actions[..|actions| - 1]).collectors; !(p in before && InsideC(before[p]))
    ensures Justified(actions, i, |actions| - 1, p, Run(START, actions).collectors[p])
  {
    var n := |actions| - 1;
    var s, g := Run(START, actions[..n]), Run(START, actions).collectors[p];
    RunKeepsFiles(actions[..n]);
    RunKeepsFiles(actions);
    RemovalBegins(s, actions[n], p);
    i := ScanHistory(actions[..n], p);
    ScanStays(actions, n, i, p, s.collectors[p], g, g.pc.current);
    assert actions[..n + 1] == actions;
  }

  /** A collector that is removing a record has scanned it, confirmed it and kept it locked from then on. */
  lemma {:induction false} RemovalHistory(actions: seq<Action>, p: Pid) returns (i: nat, j: nat)
    requires p in Run(START, actions).collectors && InsideC(Run(START, actions).collectors[p])
    ensures Justified(actions, i, j, p, Run(START, actions).collectors[p])
  {
    var n := |actions| - 1;
    var before := Run(START, actions[..n]).collectors;
    if p in before && InsideC(before[p]) {
      i, j := RemovalHistory(actions[..n], p);
      JustifiedGoesOn(actions, i, j, p, before[p]);
    } else {
      i := JustifiedFromThere(actions, p);
      j := n;
    }
  }

  lemma RemovalBegins(s: Device, a: Action, p: Pid)
    requires FilesOk(s) && !(p in s.collectors && InsideC(s.collectors[p]))
    requires p in Step(s, a).collectors && InsideC(Step(s, a).collectors[p])
    ensures a == Check(p) && p in s.collectors && s.collectors[p].pc.Scanned? && s.lock == Free
    ensures var was, g := s.collectors[p], Step(s, a).collectors[p];
            && s.owner == Some(g.pc.current) && Stale(s, g.pc.current, g.limit, g.grace) && Left(g) == g.pc.current.attempts
            && was.pc.candidate == g.pc.current && g.limit == was.limit && g.grace == was.grace
  {
    if !Opens(a) && !Collects(a) && a.pid in s.holders { HolderMoves(s, a, a.pid); }
  }

  /**
   In every run, whenever a collector removes an owner record, it had scanned exactly this record, stamp and content,
   overdue; later, with the lock free, it found the same record still overdue and locked it; the record stayed
   untouched behind that lock until its removal; and the device confirmed the removal of every directory it lists.
   */
  lemma EvictionIsJustified(actions: seq<Action>, p: Pid) returns (g: Collector, i: nat, j: nat)
    requires var s := Run(START, actions);
             s.owner.Some? && p in s.collectors && Step(s, DropOwner(p)).owner != s.owner
    ensures var r := Run(START, actions).owner.value;
            && i < j && ScansStale(actions, i, p, g, r) && ConfirmsStale(actions, j, p, g, r)
            && HeldSince(actions, j, p, r) && forall dir | dir in r.attempts :: CollectedSince(actions, j, p, dir)
  {
    RunKeepsFiles(actions);
    g := Run(START, actions).collectors[p];
    i, j := RemovalHistory(actions, p);
  }

  // ------------------------------------- what runs with fresh holders keep

  /** Seconds since the last heartbeat under this token. */
  function Age(s: Device, token: Token): int
    requires token in s.heartbeats
  {
    s.now - s.heartbeats[token]
  }

  /**
   With a heartbeat file, a record is stale exactly when its age exceeds the collector's limit and, if the record
   states an interval, three times that interval or three minutes. Without one, when the record's own age exceeds the
   grace.
   */
  lemma StaleExactlyWhen(s: Device, r: Record, limit: int, grace: int)
    requires limit > 0 && grace > 0
    ensures r.token in s.heartbeats ==>
              (Stale(s, r, limit, grace) <==>
                 Age(s, r.token) > limit
                 && (r.interval > 0 ==> Age(s, r.token) > 3 * r.interval || Age(s, r.token) > 180))
    ensures r.token !in s.heartbeats ==> (Stale(s, r, limit, grace) <==> s.now - r.writtenAt > grace)
  {
  }

  /** The heartbeat is no older than the limit, or than three intervals, of which at most three minutes count. */
  predicate OnTime(s: Device, h: Holder, limit: int)
    requires h.token in s.heartbeats
  {
    Age(s, h.token) <= limit || (0 < h.interval && Age(s, h.token) <= 3 * h.interval && Age(s, h.token) <= 180)
  }

  /** Every live holder's heartbeat is on time for a collector with this limit. */
  predicate FreshAt(s: Device, limit: int) {
    forall p | p in s.holders && Live(s.holders[p]) && s.holders[p].token in s.heartbeats :: OnTime(s, s.holders[p], limit)
  }

  /** The assumption on a run: no collector checks while a live holder's heartbeat is overdue for it. */
  predicate FreshRun(actions: seq<Action>) {
    actions == [] ||
    (var before, a := actions[..|actions| - 1], actions[|actions| - 1];
     FreshRun(before) &&
     (a.Check? && a.pid in Run(START, before).collectors ==>
        FreshAt(Run(START, before), Run(START, before).collectors[a.pid].limit)))
  }

  predicate HolderOk(s: Device, h: Holder) {
    Live(h) ==>
      && Owns(s, h) && s.owner.value.interval == h.interval && !s.lock.ByCollector?
      && (h.pc != Acquiring(false) ==> h.token in s.heartbeats)
      && var listed := s.owner.value.attempts;
         match h.pc
         case Recording(_, read) => listed == {} && read == {}
         case Recorded(dir) => listed == {dir}
         case Cleaned(dir) => listed == {dir} && s.remote == {}
         case Forgetting(dir, read) => listed == {dir} && read == {dir} && s.remote == {}
         case _ => listed == {}
  }

  predicate CollectorOk(s: Device, g: Collector) {
    && g.limit > 0
    && match g.pc
       case Removing(current, left) => s.remote <= left <= current.attempts
       case Dropping(_) => s.remote == {}
       case _ => true
  }

  /** Every directory on the device is named by the owner record. */
  predicate Recoverable(s: Device) {
    s.remote <= if s.owner.Some? then s.owner.value.attempts else {}
  }

  predicate HoldersOk(s: Device) {
    forall p | p in s.holders :: HolderOk(s, s.holders[p])
  }

  predicate CollectorsOk(s: Device) {
    forall p | p in s.collectors :: CollectorOk(s, s.collectors[p])
  }

  predicate Inv(s: Device) {
    FilesOk(s) && Recoverable(s) && HoldersOk(s) && CollectorsOk(s)
  }

  /** With fresh holders, a record that is stale under the lock belongs to no live holder. */
  lemma StaleMeansNobodyLive(s: Device, g: Collector, q: Pid)
    requires Inv(s) && g.limit > 0 && FreshAt(s, g.limit) && s.lock == Free && q in s.holders
    requires s.owner.Some? && Stale(s, s.owner.value, g.limit, g.grace)
    ensures !Live(s.holders[q])
  {
    assert HolderOk(s, s.holders[q]);
  }

  /** This check would take the record from a holder that is still at work. */
  ghost predicate EvictsLive(s: Device, p: Pid) {
    && p in s.collectors && s.lock == Free && s.collectors[p].pc.Scanned?
    && s.owner == Some(s.collectors[p].pc.candidate)
    && Stale(s, s.collectors[p].pc.candidate, s.collectors[p].limit, s.collectors[p].grace)
    && exists q | q in s.holders :: Live(s.holders[q])
  }

  lemma CheckSparesHolders(s: Device, p: Pid)
    requires Inv(s) && p in s.collectors && !EvictsLive(s, p)
    ensures HoldersOk(CollectorStep(s, Check(p), p))
  {
    var t := CollectorStep(s, Check(p), p);
    forall q | q in t.holders ensures HolderOk(t, t.holders[q]) {
      assert HolderOk(s, s.holders[q]);
    }
  }

  lemma CheckSparesCollectors(s: Device, p: Pid)
    requires Inv(s) && p in s.collectors
    ensures CollectorsOk(CollectorStep(s, Check(p), p))
  {
    var t := CollectorStep(s, Check(p), p);
    forall q | q in t.collectors ensures CollectorOk(t, t.collectors[q]) {
      assert CollectorOk(s, s.collectors[q]);
    }
  }

  /** A check breaks the invariant exactly when it evicts a live holder. */
  lemma CheckBreaksExactlyWhen(s: Device, p: Pid)
    requires Inv(s) && p in s.collectors
    ensures !Inv(CollectorStep(s, Check(p), p)) <==> EvictsLive(s, p)
  {
    CheckKeepsFiles(s, p);
    CheckSparesCollectors(s, p);
    if EvictsLive(s, p) {
      var q :| q in s.holders && Live(s.holders[q]);
      assert !HolderOk(CollectorStep(s, Check(p), p), s.holders[q]);
    } else {
      CheckSparesHolders(s, p);
    }
  }

  lemma CheckKeepsFiles(s: Device, p: Pid)
    requires Inv(s) && p in s.collectors
    ensures FilesOk(CollectorStep(s, Check(p), p)) && Recoverable(CollectorStep(s, Check(p), p))
  {
    CollectorMoves(s, Check(p), p);
    CollectorMoveKeepsFiles(s, CollectorStep(s, Check(p), p), p);
  }

  lemma CollectKeeps(s: Device, a: Action, p: Pid)
    requires Inv(s) && p in s.collectors && Collects(a) && !a.Check?
    ensures Inv(CollectorStep(s, a, p))
  {
    var t := CollectorStep(s, a, p);
    CollectorMoves(s, a, p);
    CollectorMoveKeepsFiles(s, t, p);
    assert CollectorOk(s, s.collectors[p]);
    assert Recoverable(t);
    forall q | q in t.holders ensures HolderOk(t, t.holders[q]) {
      CollectingSparesHolders(s, a, p, q);
    }
    forall q | q in t.collectors ensures CollectorOk(t, t.collectors[q]) {
      assert CollectorOk(s, s.collectors[q]);
    }
  }

  lemma CollectingSparesHolders(s: Device, a: Action, p: Pid, q: Pid)
    requires Inv(s) && p in s.collectors && Collects(a) && !a.Check? && q in s.holders
    ensures HolderOk(CollectorStep(s, a, p), s.holders[q])
  {
    assert HolderOk(s, s.holders[q]);
  }

  /** What a holder's step may do to the device without disturbing anyone else. */
  predicate GentleMove(s: Device, t: Device, p: Pid) {
    && HolderMove(s, t, p)
    && (t.remote <= s.remote || (Live(s.holders[p]) && t.owner == s.owner))
    && (t.owner == s.owner || Owns(s, s.holders[p]))
    && (forall k | k in s.heartbeats && k != s.holders[p].token :: k in t.heartbeats)
    && Recoverable(t) && HolderOk(t, t.holders[p])
  }

  lemma OtherHolderStaysOk(s: Device, t: Device, p: Pid, q: Pid)
    requires Inv(s) && GentleMove(s, t, p) && q in t.holders && q != p
    ensures HolderOk(t, t.holders[q])
  {
    assert HolderOk(s, s.holders[q]) && HolderOk(s, s.holders[p]);
    assert s.holders[q].token != s.holders[p].token;
  }

  lemma CollectorStaysOk(s: Device, t: Device, p: Pid, q: Pid)
    requires Inv(s) && GentleMove(s, t, p) && q in t.collectors
    ensures CollectorOk(t, t.collectors[q])
  {
    assert CollectorOk(s, s.collectors[q]) && HolderOk(s, s.holders[p]);
  }

  lemma GentleMoveKeeps(s: Device, t: Device, p: Pid)
    requires Inv(s) && GentleMove(s, t, p)
    ensures Inv(t)
  {
    HolderMoveKeepsFiles(s, t, p);
    forall q | q in t.holders ensures HolderOk(t, t.holders[q]) {
      if q != p { OtherHolderStaysOk(s, t, p, q); }
    }
    forall q | q in t.collectors ensures CollectorOk(t, t.collectors[q]) {
      CollectorStaysOk(s, t, p, q);
    }
  }

  lemma AcquireIsGentle(s: Device, a: Action, p: Pid)
    requires Inv(s) && p in s.holders
    ensures GentleMove(s, AcquireStep(s, a, p), p)
  {
    AcquireMoves(s, a, p);
    assert HolderOk(s, s.holders[p]);
  }

  lemma RecordIsGentle(s: Device, a: Action, p: Pid)
    requires Inv(s) && p in s.holders
    ensures GentleMove(s, RecordStep(s, a, p), p)
  {
    RecordMoves(s, a, p);
    assert HolderOk(s, s.holders[p]);
  }

  lemma WorkIsGentle(s: Device, a: Action, p: Pid)
    requires Inv(s) && p in s.holders
    ensures GentleMove(s, WorkStep(s, a, p), p)
  {
    WorkMoves(s, a, p);
    assert HolderOk(s, s.holders[p]);
  }

  lemma EndIsGentle(s: Device, a: Action, p: Pid)
    requires Inv(s) && p in s.holders
    ensures GentleMove(s, EndStep(s, a, p), p)
  {
    EndMoves(s, a, p);
    assert HolderOk(s, s.holders[p]);
  }

  lemma OpeningKeeps(s: Device, a: Action)
    requires Inv(s)
    ensures Inv(OpenStep(s, a))
  {
    OpeningKeepsFiles(s, a);
    var t := OpenStep(s, a);
    forall q | q in t.holders ensures HolderOk(t, t.holders[q]) {
      if q in s.holders { assert HolderOk(s, s.holders[q]); }
    }
    forall q | q in t.collectors ensures CollectorOk(t, t.collectors[q]) {
      if q in s.collectors { assert CollectorOk(s, s.collectors[q]); }
    }
  }

  lemma HolderStepKeeps(s: Device, a: Action, p: Pid)
    requires Inv(s) && p in s.holders
    ensures Inv(HolderStep(s, a, p))
  {
    AcquireIsGentle(s, a, p);
    RecordIsGentle(s, a, p);
    WorkIsGentle(s, a, p);
    EndIsGentle(s, a, p);
    GentleMoveKeeps(s, HolderStep(s, a, p), p);
  }

  /** One step breaks the invariant exactly when it is a check that evicts a live holder. */
  lemma StepBreaksExactlyWhen(s: Device, a: Action)
    requires Inv(s)
    ensures !Inv(Step(s, a)) <==> a.Check? && EvictsLive(s, a.pid)
  {
    if Opens(a) {
      OpeningKeeps(s, a);
    } else if Collects(a) {
      if a.pid in s.collectors {
        if a.Check? { CheckBreaksExactlyWhen(s, a.pid); } else { CollectKeeps(s, a, a.pid); }
      }
    } else if a.pid in s.holders {
      HolderStepKeeps(s, a, a.pid);
    }
  }

  /** No check of the run evicts a live holder. */
  ghost predicate SparesLive(actions: seq<Action>) {
    actions == [] ||
    (var before, a := actions[..|actions| - 1], actions[|actions| - 1];
     SparesLive(before) && !(a.Check? && EvictsLive(Run(START, before), a.pid)))
  }

  ghost predicate AlwaysInv(actions: seq<Action>) {
    Inv(Run(START, actions)) && (actions == [] || AlwaysInv(actions[..|actions| - 1]))
  }

  /** The full invariant holds throughout a run exactly when none of its checks evicts a live holder. */
  lemma {:induction false} RunKeepsExactlyWhen(actions: seq<Action>)
    ensures AlwaysInv(actions) <==> SparesLive(actions)
  {
    if actions != [] {
      var before := actions[..|actions| - 1];
      RunKeepsExactlyWhen(before);
      if AlwaysInv(before) {
        AlwaysMeansNow(before);
        StepBreaksExactlyWhen(Run(START, before), actions[|actions| - 1]);
      }
    }
  }

  lemma AlwaysMeansNow(actions: seq<Action>)
    requires AlwaysInv(actions)
    ensures Inv(Run(START, actions))
  {
  }

  lemma SparingRunKeeps(actions: seq<Action>)
    requires SparesLive(actions)
    ensures Inv(Run(START, actions))
  {
    RunKeepsExactlyWhen(actions);
  }

  /** Holders whose heartbeats stay within every checking collector's patience are all spared. */
  lemma {:induction false} FreshRunSpares(actions: seq<Action>)
    requires FreshRun(actions)
    ensures SparesLive(actions)
  {
    if actions != [] {
      var before, a := actions[..|actions| - 1], actions[|actions| - 1];
      FreshRunSpares(before);
      SparingRunKeeps(before);
      var s := Run(START, before);
      if a.Check? && a.pid in s.collectors && EvictsLive(s, a.pid) {
        var q :| q in s.holders && Live(s.holders[q]);
        assert CollectorOk(s, s.collectors[a.pid]);
        StaleMeansNobodyLive(s, s.collectors[a.pid], q);
      }
    }
  }

  lemma FreshRunKeeps(actions: seq<Action>)
    requires FreshRun(actions)
    ensures Inv(Run(START, actions))
  {
    FreshRunSpares(actions);
    SparingRunKeeps(actions);
  }

  // ------------------------------------------------------- beating in time

  function Elapsed(actions: seq<Action>): nat {
    if actions == [] then 0
    else
      var a := actions[|actions| - 1];
      Elapsed(actions[..|actions| - 1]) + (if a.Tick? then a.elapsed else 0)
  }

  /** The sidecar of this token touches its heartbeat file, or `acquire` does so first. */
  predicate Beats(s: Device, a: Action, token: Token) {
    || (a == Beat(token) && token in s.used)
    || (a.FirstBeat? && a.pid in s.holders && s.holders[a.pid].token == token && s.holders[a.pid].pc == Acquiring(false))
  }

  lemma StepAges(s: Device, a: Action, token: Token)
    ensures Step(s, a).now == s.now + (if a.Tick? then a.elapsed else 0)
    ensures token in Step(s, a).heartbeats ==>
              Step(s, a).heartbeats[token] == s.now
              || (token in s.heartbeats && Step(s, a).heartbeats[token] == s.heartbeats[token])
  {
  }

  /** A heartbeat that is still there is no older than the time that has passed since a beat. */
  lemma {:induction false} AgeIsBounded(actions: seq<Action>, j: nat, token: Token)
    requires j < |actions| && Beats(At(actions, j), actions[j], token)
    ensures var t := Run(START, actions);
            && t.now == At(actions, j).now + Elapsed(actions[j + 1..])
            && (token in t.heartbeats ==> Age(t, token) <= Elapsed(actions[j + 1..]))
    decreases |actions|
  {
    var n := |actions| - 1;
    StepAges(Run(START, actions[..n]), actions[n], token);
    if j < n {
      AtPrefix(actions, n, j);
      AgeIsBounded(actions[..n], j, token);
      assert actions[j + 1..][..n - j - 1] == actions[..n][j + 1..];
    }
  }

  /** The holder has beaten within the collector's limit, or within three of its intervals or three minutes. */
  ghost predicate BeatInTime(actions: seq<Action>, h: Holder, limit: int) {
    exists j: nat :: j < |actions| && Beats(At(actions, j), actions[j], h.token)
                     && var since := Elapsed(actions[j + 1..]);
                        since <= limit || (0 < h.interval && since <= 3 * h.interval && since <= 180)
  }

  /** Before every check, every live holder has beaten in time for it. */
  ghost predicate BeatingRun(actions: seq<Action>) {
    actions == [] ||
    (var before, a := actions[..|actions| - 1], actions[|actions| - 1];
     var s := Run(START, before);
     BeatingRun(before) &&
     (a.Check? && a.pid in s.collectors ==>
        forall p | p in s.holders && Live(s.holders[p]) && s.holders[p].token in s.heartbeats ::
          BeatInTime(before, s.holders[p], s.collectors[a.pid].limit)))
  }

  /** Holders that beat in time are fresh, so none of them is evicted. */
  lemma {:induction false} BeatingRunIsFresh(actions: seq<Action>)
    requires BeatingRun(actions)
    ensures FreshRun(actions) && SparesLive(actions)
  {
    if actions != [] {
      var before, a := actions[..|actions| - 1], actions[|actions| - 1];
      var s := Run(START, before);
      BeatingRunIsFresh(before);
      if a.Check? && a.pid in s.collectors {
        forall p | p in s.holders && Live(s.holders[p]) && s.holders[p].token in s.heartbeats
          ensures OnTime(s, s.holders[p], s.collectors[a.pid].limit)
        {
          BeatIsOnTime(before, s.holders[p], s.collectors[a.pid].limit);
        }
      }
      FreshRunSpares(actions);
    }
  }

  lemma BeatIsOnTime(actions: seq<Action>, h: Holder, limit: int)
    requires h.token in Run(START, actions).heartbeats && BeatInTime(actions, h, limit)
    ensures OnTime(Run(START, actions), h, limit)
  {
    var j: nat :| j < |actions| && Beats(At(actions, j), actions[j], h.token)
                  && var since := Elapsed(actions[j + 1..]);
                     since <= limit || (0 < h.interval && since <= 3 * h.interval && since <= 180);
    AgeIsBounded(actions, j, h.token);
  }

  // --------------------------------------------------------- main results

  /** No attempt directory is ever without its recovery pointer; with no owner record there is none at all. */
  lemma NothingIsLost(actions: seq<Action>)
    requires SparesLive(actions)
    ensures var s := Run(START, actions);
            if s.owner.Some? then s.remote <= s.owner.value.attempts else s.remote == {}
  {
    SparingRunKeeps(actions);
  }

  /** At most one live holder, and the owner record is its own: a fresh holder is never evicted. */
  lemma OneLiveHolder(actions: seq<Action>, p: Pid)
    requires SparesLive(actions)
    requires p in Run(START, actions).holders && Live(Run(START, actions).holders[p])
    ensures var s := Run(START, actions);
            && Owns(s, s.holders[p])
            && forall q | q in s.holders && Live(s.holders[q]) :: q == p
  {
    SparingRunKeeps(actions);
    var s := Run(START, actions);
    forall q | q in s.holders && Live(s.holders[q]) ensures q == p {
      assert HolderOk(s, s.holders[q]) && HolderOk(s, s.holders[p]);
    }
  }

  /** A completed collection leaves no record and no directory behind. */
  lemma CollectionLeavesNothing(actions: seq<Action>, p: Pid)
    requires SparesLive(actions)
    requires p in Run(START, actions).collectors && Run(START, actions).collectors[p].pc.Dropping?
    ensures var t := Step(Run(START, actions), DropOwner(p));
            t.owner == None && t.remote == {} && t.lock == Free
  {
    SparingRunKeeps(actions);
    assert CollectorOk(Run(START, actions), Run(START, actions).collectors[p]);
  }

  // ------------------------------------------- the assumption is needed

  ghost predicate Reachable(s: Device) {
    exists actions: seq<Action> :: Run(START, actions) == s
  }

  lemma StepReaches(s: Device, a: Action)
    requires Reachable(s)
    ensures Reachable(Step(s, a))
  {
    var actions :| Run(START, actions) == s;
    assert (actions + [a])[..|actions|] == actions;
    assert Run(START, actions + [a]) == Step(s, a);
  }

  lemma Reaches(s: Device, a: Action, t: Device)
    requires Reachable(s) && Step(s, a) == t
    ensures Reachable(t)
  {
    StepReaches(s, a);
  }

  const BLANK := Record(7, 5, {}, 0, 0)
  const RECORDED := Record(7, 5, {"attempt"}, 1, 0)

  /** The device under one holder, before any collector comes by. */
  function Alone(now: int, r: Record, beats: map<Token, int>, lock: Lock, pc: HolderPc): Device {
    Device(now, Some(r), beats, {}, lock, {7}, map[0 := Holder(7, 5, pc)], map[])
  }

  lemma HolderOpens()
    ensures Reachable(Alone(0, BLANK, map[], ByHolder(0), Acquiring(false)))
  {
    assert Run(START, []) == START;
    assert OpenStep(START, Acquire(0, 7, 5, 0)) == Alone(0, BLANK, map[], ByHolder(0), Acquiring(false));
    Reaches(START, Acquire(0, 7, 5, 0), Alone(0, BLANK, map[], ByHolder(0), Acquiring(false)));
  }

  lemma HolderBeats()
    ensures Reachable(Alone(0, BLANK, map[7 := 0], ByHolder(0), Acquiring(true)))
  {
    HolderOpens();
    var s := Alone(0, BLANK, map[], ByHolder(0), Acquiring(false));
    assert AcquireStep(s, FirstBeat(0), 0) == Alone(0, BLANK, map[7 := 0], ByHolder(0), Acquiring(true));
    Reaches(s, FirstBeat(0), Alone(0, BLANK, map[7 := 0], ByHolder(0), Acquiring(true)));
  }

  lemma HolderAcquires()
    ensures Reachable(Alone(0, BLANK, map[7 := 0], Free, Held))
  {
    HolderBeats();
    var t := Alone(0, BLANK, map[7 := 0], ByHolder(0), Acquiring(true));
    assert AcquireStep(t, AcquireDone(0), 0) == Alone(0, BLANK, map[7 := 0], Free, Held);
    Reaches(t, AcquireDone(0), Alone(0, BLANK, map[7 := 0], Free, Held));
  }

  lemma HolderReads()
    ensures Reachable(Alone(0, BLANK, map[7 := 0], Free, Recording("attempt", {})))
  {
    HolderAcquires();
    var s := Alone(0, BLANK, map[7 := 0], Free, Held);
    assert RecordStep(s, ReadForRecord(0, "attempt"), 0) == Alone(0, BLANK, map[7 := 0], Free, Recording("attempt", {}));
    Reaches(s, ReadForRecord(0, "attempt"), Alone(0, BLANK, map[7 := 0], Free, Recording("attempt", {})));
  }

  lemma HolderRecords()
    ensures Reachable(Alone(0, RECORDED, map[7 := 0], Free, Recorded("attempt")))
  {
    HolderReads();
    var t := Alone(0, BLANK, map[7 := 0], Free, Recording("attempt", {}));
    assert {} + {"attempt"} == {"attempt"};
    assert RecordStep(t, WriteRecord(0, 1), 0) == Alone(0, RECORDED, map[7 := 0], Free, Recorded("attempt"));
    Reaches(t, WriteRecord(0, 1), Alone(0, RECORDED, map[7 := 0], Free, Recorded("attempt")));
  }

  const OVERDUE := Alone(1000, RECORDED, map[7 := 0], Free, Recorded("attempt"))

  lemma HolderStalls()
    ensures Reachable(OVERDUE) && Stale(OVERDUE, RECORDED, 30, 30)
  {
    HolderRecords();
    Reaches(Alone(0, RECORDED, map[7 := 0], Free, Recorded("attempt")), Tick(1000), OVERDUE);
  }

  function Collecting(pc: CollectorPc): map<Pid, Collector> {
    map[0 := Collector(30, 30, pc)]
  }

  lemma CollectorScans()
    ensures Reachable(OVERDUE.(collectors := Collecting(Scanned(RECORDED))))
  {
    HolderStalls();
    assert OpenStep(OVERDUE, Scan(0, 30, 30)) == OVERDUE.(collectors := Collecting(Scanned(RECORDED)));
    Reaches(OVERDUE, Scan(0, 30, 30), OVERDUE.(collectors := Collecting(Scanned(RECORDED))));
  }

  /** Holder 0 still works on its directory while collector 0 removes what is left of the record. */
  predicate Evicting(s: Device, r: Record, left: set<Dir>) {
    && 0 in s.holders && s.holders[0].pc == Recorded("attempt")
    && 0 in s.collectors && s.collectors[0].pc == Removing(r, left) && s.lock == ByCollector(0)
  }

  lemma StalledHolderCanBeEvicted() returns (s: Device)
    ensures Reachable(s) && Evicting(s, RECORDED, {"attempt"})
  {
    CollectorScans();
    HolderStalls();
    var before := OVERDUE.(collectors := Collecting(Scanned(RECORDED)));
    s := CollectorStep(before, Check(0), 0);
    Reaches(before, Check(0), s);
  }

  lemma CollectsUnderWorker(s: Device, r: Record)
    requires Evicting(s, r, {"attempt"})
    ensures Evicting(CollectorStep(s, CollectDir(0, "attempt"), 0), r, {})
  {
  }

  lemma WorkerPushesAgain(s: Device, r: Record)
    requires Evicting(s, r, {})
    ensures var t := WorkStep(s, RemoteWork(0), 0); Evicting(t, r, {}) && "attempt" in t.remote
  {
  }

  /**
   Without fresh heartbeats a directory can outlive its recovery pointer: a stalled holder is evicted, and pushes
   its files again after the collector removed them.
   */
  lemma StalledHolderLosesItsPointer()
    ensures exists s: Device :: Reachable(s) && s.owner == None && s.remote != {}
  {
    var s := StalledHolderCanBeEvicted();
    CollectsUnderWorker(s, RECORDED);
    var s1 := CollectorStep(s, CollectDir(0, "attempt"), 0);
    Reaches(s, CollectDir(0, "attempt"), s1);
    WorkerPushesAgain(s1, RECORDED);
    var s2 := WorkStep(s1, RemoteWork(0), 0);
    Reaches(s1, RemoteWork(0), s2);
    RecordIsDropped(s2, RECORDED);
  }

  lemma HeartbeatIsDropped(s: Device, r: Record) returns (t: Device)
    requires Reachable(s) && Evicting(s, r, {}) && "attempt" in s.remote
    ensures Reachable(t) && 0 in t.collectors && t.collectors[0].pc == Dropping(r) && "attempt" in t.remote
  {
    t := CollectorStep(s, DropBeat(0), 0);
    Reaches(s, DropBeat(0), t);
  }

  lemma RecordIsDropped(s: Device, r: Record)
    requires Reachable(s) && Evicting(s, r, {}) && "attempt" in s.remote
    ensures exists t: Device :: Reachable(t) && t.owner == None && t.remote != {}
  {
    var t := HeartbeatIsDropped(s, r);
    var u := CollectorStep(t, DropOwner(0), 0);
    Reaches(t, DropOwner(0), u);
    assert u.owner == None && "attempt" in u.remote;
  }
}
