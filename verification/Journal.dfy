/**
 The persistent job journal: event files, one state record, receipts, a heartbeat file and a cancel flag.

 The first half states each locked operation as a function on the files; class `JobJournal` performs them
 step by step. The second half (`JournalRuns`) lets any number of writers interleave them from stale
 snapshots, with a kill allowed between any two file writes.
 */
module Journal {
  import opened Common

  datatype JobState =
    | Queued | Staging | Running | Collecting | Committing
    | Succeeded | Failed | Cancelled | Orphaned
  {
    predicate Terminal() {
      this in {Succeeded, Failed, Cancelled}
    }

    predicate InFlight() {
      this in {Staging, Running, Collecting, Committing}
    }
  }

  datatype ReceiptId = ReceiptId(stageName: string, stageKey: string, attempt: nat)

  datatype Receipt = Receipt(id: ReceiptId, succeeded: bool, outputs: seq<string>)

  datatype JobStatus = JobStatus(
    state: JobState,
    seqNo: nat,
    updatedAt: int,
    currentStage: Option<string>,
    stages: seq<Receipt>,
    manifest: Option<string>,
    heartbeatAt: Option<int>,
    error: Option<string>)
  {
    /** The model validator of the status contract: an error exactly on failed jobs. */
    predicate Valid() {
      state.Failed? <==> error.Some?
    }
  }

  datatype Event = Event(number: nat, kind: string, at: int)

  /** Everything the journal directory holds. */
  datatype Files = Files(
    events: map<nat, Event>,
    status: JobStatus,
    receipts: map<ReceiptId, Receipt>,
    heartbeat: Option<int>,
    cancelRequested: bool)

  datatype JournalError = TerminalState | ConflictingReceipt | InvalidStatus | BadLimit

  /** `b` is no older than `a`; an absent heartbeat is older than any other. */
  predicate NotOlder(a: Option<int>, b: Option<int>) {
    a.None? || (b.Some? && a.value <= b.value)
  }

  // ---------------------------------------------------------------- commits

  ghost predicate IsNextSeq(events: map<nat, Event>, n: nat) {
    && 1 <= n
    && (forall k | k in events.Keys :: k < n)
    && (n == 1 || n - 1 in events.Keys)
    && (n == 1 ==> events.Keys <= {0})
  }

  predicate Refused(current: JobStatus, target: JobStatus) {
    current.state.Terminal() && target.state != current.state
  }

  /** The target with a heartbeat that won the lock in the meantime kept. */
  function KeepHeartbeat(current: JobStatus, target: JobStatus): (r: JobStatus)
    ensures NotOlder(current.heartbeatAt, r.heartbeatAt) && NotOlder(target.heartbeatAt, r.heartbeatAt)
    ensures r.heartbeatAt in {current.heartbeatAt, target.heartbeatAt}
    ensures r == target.(heartbeatAt := r.heartbeatAt)
  {
    if current.heartbeatAt.Some? &&
       (target.heartbeatAt.None? || current.heartbeatAt.value > target.heartbeatAt.value)
    then target.(heartbeatAt := current.heartbeatAt)
    else target
  }

  /** The record a commit will publish under number `n` at time `now`. */
  function Stamped(current: JobStatus, target: JobStatus, n: nat, now: int): JobStatus {
    KeepHeartbeat(current, target).(seqNo := n, updatedAt := now)
  }

  /** First write of a commit: the event file. */
  function WithEvent(f: Files, n: nat, kind: string, now: int): Files {
    f.(events := f.events[n := Event(n, kind, now)])
  }

  /** The two writes of a whole commit. */
  function Committed(f: Files, target: JobStatus, kind: string, n: nat, now: int): Files {
    WithEvent(f, n, kind, now).(status := Stamped(f.status, target, n, now))
  }

  // ------------------------------------------------- targets from snapshots

  /** The record `set_state` builds from a snapshot before it takes the lock. */
  function StateTarget(snapshot: JobStatus, state: JobState, currentStage: Option<string>,
                       error: Option<string>, manifest: Option<string>, heartbeatAt: Option<int>): JobStatus
  {
    snapshot.(
      state := state,
      currentStage := if currentStage.Some? then currentStage else snapshot.currentStage,
      manifest := if manifest.Some? then manifest else snapshot.manifest,
      heartbeatAt := if heartbeatAt.Some? then heartbeatAt else snapshot.heartbeatAt,
      error := error)
  }

  /** The record `record_receipt` builds from a snapshot. */
  function ReceiptTarget(snapshot: JobStatus, receipt: Receipt): JobStatus {
    var already := exists r | r in snapshot.stages ::
                     r.id.stageKey == receipt.id.stageKey && r.id.attempt == receipt.id.attempt;
    snapshot.(
      stages := if already then snapshot.stages else snapshot.stages + [receipt],
      currentStage := Some(receipt.id.stageName))
  }

  function Touched(f: Files, at: int): Files {
    f.(heartbeat := Some(at), status := f.status.(heartbeatAt := Some(at), updatedAt := at))
  }

  /** Newest of the heartbeat file and the status field. */
  function LastHeartbeat(f: Files): (r: Option<int>)
    ensures NotOlder(f.heartbeat, r) && NotOlder(f.status.heartbeatAt, r)
    ensures r in {f.heartbeat, f.status.heartbeatAt}
  {
    if NotOlder(f.heartbeat, f.status.heartbeatAt) then f.status.heartbeatAt else f.heartbeat
  }

  predicate HeartbeatStale(f: Files, staleAfter: int, now: int) {
    f.status.state.InFlight() &&
    var last := LastHeartbeat(f);
    now - (if last.Some? then last.value else f.status.updatedAt) >= staleAfter
  }

  // ------------------------------------------------------- event windows

  /** The events numbered above `after`, in order, up to `last`. */
  function Window(events: map<nat, Event>, after: nat, last: nat): seq<Event>
    decreases last
  {
    if last <= after then []
    else Window(events, after, last - 1) + (if last in events then [events[last]] else [])
  }

  ghost predicate SortedByNumber(es: seq<Event>) {
    forall i, j | 0 <= i < j < |es| :: es[i].number < es[j].number
  }

  /** Event files are named after the number inside them. */
  ghost predicate WellNumbered(events: map<nat, Event>) {
    forall k | k in events :: events[k].number == k
  }

  lemma {:induction false} WindowContents(events: map<nat, Event>, after: nat, last: nat)
    requires WellNumbered(events)
    ensures SortedByNumber(Window(events, after, last))
    ensures forall e :: e in Window(events, after, last) <==>
              after < e.number <= last && e.number in events && events[e.number] == e
    decreases last
  {
    if last > after {
      WindowContents(events, after, last - 1);
    }
  }

  lemma LastIsGreatest(es: seq<Event>, e: Event)
    requires SortedByNumber(es) && e in es
    ensures e.number <= es[|es| - 1].number
    ensures e.number == es[|es| - 1].number ==> e == es[|es| - 1]
    ensures e != es[|es| - 1] ==> e in es[..|es| - 1]
  {
    var i :| 0 <= i < |es| && es[i] == e;
    assert i < |es| - 1 ==> es[..|es| - 1][i] == e;
  }

  /** A sorted sequence is fixed by its elements. */
  lemma {:induction false} SortedUnique(a: seq<Event>, b: seq<Event>)
    requires SortedByNumber(a) && SortedByNumber(b)
    requires forall e :: e in a <==> e in b
    ensures a == b
  {
    assert a != [] ==> a[|a| - 1] in b;
    assert b != [] ==> b[|b| - 1] in a;
    if a != [] {
      var x, y := a[|a| - 1], b[|b| - 1];
      var a', b' := a[..|a| - 1], b[..|b| - 1];
      LastIsGreatest(b, x);
      LastIsGreatest(a, y);
      forall e ensures e in a' <==> e in b' {
        if e in a' { assert e in a; LastIsGreatest(b, e); }
        if e in b' { assert e in b; LastIsGreatest(a, e); }
      }
      SortedUnique(a', b');
      assert a == a' + [x] && b == b' + [y];
    }
  }

  /** What `events(after)` returns is the window up to any bound above every number. */
  lemma WindowIsTheAnswer(events: map<nat, Event>, after: nat, last: nat, r: seq<Event>)
    requires WellNumbered(events) && forall k | k in events :: k <= last
    requires SortedByNumber(r)
    requires forall e :: e in r <==> after < e.number && e.number in events && events[e.number] == e
    ensures r == Window(events, after, last)
  {
    WindowContents(events, after, last);
    SortedUnique(r, Window(events, after, last));
  }

  class JobJournal {
    var events: map<nat, Event>
    var status: JobStatus
    var receipts: map<ReceiptId, Receipt>
    var heartbeat: Option<int>
    var cancelFlag: bool

    ghost function Disk(): Files
      reads this
    {
      Files(events, status, receipts, heartbeat, cancelFlag)
    }

    constructor Create(now: int)
      ensures status.state == Queued && status.Valid() && status.seqNo == 1
      ensures events == map[1 := Event(1, "job_created", now)]
      ensures receipts == map[] && heartbeat == None && !cancelFlag
    {
      events := map[1 := Event(1, "job_created", now)];
      status := JobStatus(Queued, 1, now, None, [], None, None, None);
      receipts := map[];
      heartbeat := None;
      cancelFlag := false;
    }

    method NextSeq() returns (n: nat)
      ensures IsNextSeq(events, n)
    {
      n := 1;
      var rest := events.Keys;
      while rest != {}
        invariant rest <= events.Keys
        invariant 1 <= n && forall k | k in events.Keys && k !in rest :: k < n
        invariant n == 1 || n - 1 in events.Keys
        decreases rest
      {
        var k :| k in rest;
        if n <= k {
          n := k + 1;
        }
        rest := rest - {k};
      }
    }

    method Commit(target: JobStatus, kind: string, now: int) returns (r: Result<JobStatus, JournalError>)
      modifies this
      ensures Refused(old(status), target) ==> r == Err(TerminalState) && Disk() == old(Disk())
      ensures !Refused(old(status), target) ==>
                exists n :: IsNextSeq(old(events), n)
                         && Disk() == Committed(old(Disk()), target, kind, n, now)
                         && r == Ok(status)
    {
      if status.state.Terminal() && target.state != status.state {
        return Err(TerminalState);
      }
      var final := target;
      if status.heartbeatAt.Some? &&
         (final.heartbeatAt.None? || status.heartbeatAt.value > final.heartbeatAt.value)
      {
        final := final.(heartbeatAt := status.heartbeatAt);
      }
      var n := NextSeq();
      final := final.(seqNo := n, updatedAt := now);
      events := events[n := Event(n, kind, now)];
      status := final;
      r := Ok(final);
    }

    method AppendEvent(kind: string, now: int) returns (r: Result<JobStatus, JournalError>)
      modifies this
      ensures exists n :: IsNextSeq(old(events), n)
                       && Disk() == Committed(old(Disk()), old(status), kind, n, now) && r == Ok(status)
    {
      r := Commit(status, kind, now);
    }

    method SetState(state: JobState, currentStage: Option<string>, error: Option<string>,
                    manifest: Option<string>, heartbeatAt: Option<int>, now: int)
      returns (r: Result<JobStatus, JournalError>)
      modifies this
      ensures var target := StateTarget(old(status), state, currentStage, error, manifest, heartbeatAt);
              if !target.Valid() then r == Err(InvalidStatus) && Disk() == old(Disk())
              else if Refused(old(status), target) then r == Err(TerminalState) && Disk() == old(Disk())
              else exists n :: IsNextSeq(old(events), n)
                            && Disk() == Committed(old(Disk()), target, "state_changed", n, now) && r == Ok(status)
    {
      var target := StateTarget(status, state, currentStage, error, manifest, heartbeatAt);
      if !target.Valid() {
        return Err(InvalidStatus);
      }
      r := Commit(target, "state_changed", now);
    }

    method RecordReceipt(receipt: Receipt, now: int) returns (r: Result<JobStatus, JournalError>)
      modifies this
      ensures receipt.id in old(receipts) && old(receipts)[receipt.id] != receipt ==>
                r == Err(ConflictingReceipt) && Disk() == old(Disk())
      ensures !(receipt.id in old(receipts) && old(receipts)[receipt.id] != receipt) ==>
                exists n :: IsNextSeq(old(events), n) && r == Ok(status)
                         && Disk() == Committed(old(Disk()).(receipts := old(receipts)[receipt.id := receipt]),
                                                ReceiptTarget(old(status), receipt), "stage_receipt", n, now)
    {
      if receipt.id in receipts {
        if receipts[receipt.id] != receipt {
          return Err(ConflictingReceipt);
        }
        assert receipts == receipts[receipt.id := receipt];
      } else {
        receipts := receipts[receipt.id := receipt];
      }
      r := Commit(ReceiptTarget(status, receipt), "stage_receipt", now);
    }

    method TouchHeartbeat(at: int) returns (live: bool)
      modifies this
      ensures live <==> !old(status).state.Terminal()
      ensures Disk() == if live then Touched(old(Disk()), at) else old(Disk())
    {
      if status.state.Terminal() {
        return false;
      }
      heartbeat := Some(at);
      status := status.(heartbeatAt := Some(at), updatedAt := at);
      live := true;
    }

    method MarkOrphanedIfStale(staleAfter: int, now: int) returns (r: Result<JobStatus, JournalError>)
      requires status.Valid()
      modifies this
      ensures if old(status).state !in {Staging, Running, Collecting, Committing} then
                r == Ok(old(status)) && Disk() == old(Disk())
              else if staleAfter <= 0 then r == Err(BadLimit) && Disk() == old(Disk())
              else if !HeartbeatStale(old(Disk()), staleAfter, now) then r == Ok(old(status)) && Disk() == old(Disk())
              else exists n :: IsNextSeq(old(events), n) && r == Ok(status)
                            && Disk() == Committed(old(Disk()), old(status).(state := Orphaned, error := None),
                                                   "state_changed", n, now)
    {
      if !status.state.InFlight() {
        return Ok(status);
      }
      if staleAfter <= 0 {
        return Err(BadLimit);
      }
      var last := if NotOlder(heartbeat, status.heartbeatAt) then status.heartbeatAt else heartbeat;
      var at := if last.Some? then last.value else status.updatedAt;
      if now - at < staleAfter {
        return Ok(status);
      }
      assert status.(state := Orphaned, error := None)
          == StateTarget(status, Orphaned, status.currentStage, None, None, None);
      r := SetState(Orphaned, status.currentStage, None, None, None, now);
    }

    /** Reads the event files in directory order, then sorts what it kept. */
    method Events(after: nat) returns (r: seq<Event>)
      requires WellNumbered(events)
      ensures SortedByNumber(r)
      ensures forall e :: e in r <==> after < e.number && e.number in events && events[e.number] == e
    {
      r := [];
      var rest := events.Keys;
      while rest != {}
        invariant rest <= events.Keys
        invariant SortedByNumber(r)
        invariant forall e :: e in r <==>
                    after < e.number && e.number in events.Keys - rest && events[e.number] == e
        decreases rest
      {
        var k :| k in rest;
        if after < k {
          r := Insert(r, events[k]);
        }
        rest := rest - {k};
      }
    }

    method RequestCancel(now: int) returns (r: Result<JobStatus, JournalError>)
      modifies this
      ensures exists n :: IsNextSeq(old(events), n) && r == Ok(status)
                       && Disk() == Committed(old(Disk()).(cancelRequested := true), old(status),
                                              "cancel_requested", n, now)
    {
      cancelFlag := true;
      r := AppendEvent("cancel_requested", now);
    }

    method ClearCancel()
      modifies this
      ensures Disk() == old(Disk()).(cancelRequested := false)
    {
      cancelFlag := false;
    }
  }

  /** One step of the final sort. */
  method Insert(es: seq<Event>, x: Event) returns (r: seq<Event>)
    requires SortedByNumber(es)
    requires forall e | e in es :: e.number != x.number
    ensures SortedByNumber(r)
    ensures forall e :: e in r <==> e == x || e in es
  {
    var i := 0;
    while i < |es| && es[i].number < x.number
      invariant i <= |es|
      invariant forall j | 0 <= j < i :: es[j].number < x.number
    {
      i := i + 1;
    }
    assert forall j | i <= j < |es| :: x.number < es[j].number by {
      forall j | i <= j < |es| ensures x.number < es[j].number {
        assert es[i] in es;
      }
    }
    r := es[..i] + [x] + es[i..];
    assert es == es[..i] + es[i..];
  }
}
