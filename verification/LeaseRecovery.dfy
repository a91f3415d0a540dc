/**
 Recovery: whenever a holder or a collector dies, gives up or fails to remove a directory, a later collection of the
 overdue record leaves the device with no record, no directory and a free lock.
 */
module LeaseRecovery {
  import opened Common
  import opened Leases
  import opened LeaseFiles

  // ------------------------------------------------------ one collection

  function Removals(c: Pid, order: seq<Dir>): seq<Action> {
    if order == [] then [] else Removals(c, order[..|order| - 1]) + [CollectDir(c, order[|order| - 1])]
  }

  /** Everything a collector does with one record when nothing fails. */
  function Collection(c: Pid, limit: int, grace: int, order: seq<Dir>): seq<Action> {
    [Scan(c, limit, grace), Check(c)] + Removals(c, order) + [DropBeat(c), DropOwner(c)]
  }

  predicate Lists(order: seq<Dir>, dirs: set<Dir>) {
    Members(order) == dirs && forall i, j :: 0 <= i < j < |order| ==> order[i] != order[j]
  }

  lemma RunOn(s: Device, a: seq<Action>, b: seq<Action>)
    ensures Run(s, a + b) == Run(Run(s, a), b)
  {
    FoldIsRun(s, a + b);
    FoldIsRun(s, a);
    FoldIsRun(Run(s, a), b);
    FoldConcat(STEP, s, a, b);
  }

  lemma RunPair(s: Device, a: Action, b: Action)
    ensures Run(s, [a]) == Step(s, a) && Run(s, [a, b]) == Step(Step(s, a), b)
  {
    assert [a, b][..1] == [a] && [a][..0] == [];
    assert Run(s, []) == s && Run(s, [a]) == Step(s, a);
  }

  lemma {:induction false} RemovalsRun(s: Device, c: Pid, limit: int, grace: int, r: Record, order: seq<Dir>, n: nat)
    requires Lists(order, r.attempts) && n <= |order| && AtWork(s, c, limit, grace, r, r.attempts)
    ensures var t := Run(s, Removals(c, order[..n]));
            && AtWork(t, c, limit, grace, r, Members(order[n..]))
            && t.now == s.now && t.owner == s.owner && t.remote == s.remote - Members(order[..n])
  {
    if n == 0 {
      assert order[0..] == order && Members(order[..0]) == {};
    } else {
      RemovalsRun(s, c, limit, grace, r, order, n - 1);
      MembersSplit(order, n - 1);
      var t := Run(s, Removals(c, order[..n - 1]));
      assert order[..n][..n - 1] == order[..n - 1];
      CollectsOne(t, c, limit, grace, r, Members(order[n - 1..]), order[n - 1]);
      RunPair(t, CollectDir(c, order[n - 1]), CollectDir(c, order[n - 1]));
      RunOn(s, Removals(c, order[..n - 1]), [CollectDir(c, order[n - 1])]);
    }
  }

  predicate Cleared(t: Device) {
    t.owner == None && t.remote == {} && t.lock == Free
  }

  /** The collector is new, or has nothing to do. */
  predicate Unoccupied(s: Device, c: Pid) {
    c in s.collectors ==> s.collectors[c].pc.Idle?
  }

  /** An overdue record that lists every directory, behind a free lock, is cleared away. */
  lemma CollectionClears(s: Device, c: Pid, limit: int, grace: int, order: seq<Dir>)
    requires s.lock == Free && s.owner.Some? && Recoverable(s) && Unoccupied(s, c)
    requires limit > 0 && grace > 0 && Stale(s, s.owner.value, limit, grace)
    requires Lists(order, s.owner.value.attempts)
    ensures Cleared(Run(s, Collection(c, limit, grace, order)))
  {
    var r, first := s.owner.value, [Scan(c, limit, grace), Check(c)];
    var scanned := Step(s, Scan(c, limit, grace));
    RunPair(s, Scan(c, limit, grace), Check(c));
    ChecksCandidate(scanned, c, limit, grace, r);
    var checked := Run(s, first);
    RemovalsRun(checked, c, limit, grace, r, order, |order|);
    assert order[..|order|] == order && Members(order[|order|..]) == {};
    RunOn(s, first, Removals(c, order));
    var emptied := Run(s, first + Removals(c, order));
    CollectsRecord(emptied, c, limit, grace, r);
    RunPair(emptied, DropBeat(c), DropOwner(c));
    RunOn(s, first + Removals(c, order), [DropBeat(c), DropOwner(c)]);
  }

  // --------------------------------------------------------------- clocks

  /** No time stamp lies in the future. */
  predicate TimesOk(s: Device) {
    && (forall k | k in s.heartbeats :: s.heartbeats[k] <= s.now)
    && (s.owner.Some? ==> s.owner.value.writtenAt <= s.now)
  }

  lemma StepKeepsTimes(s: Device, a: Action)
    requires TimesOk(s)
    ensures TimesOk(Step(s, a))
  {
  }

  lemma {:induction false} RunKeepsTimes(actions: seq<Action>)
    ensures TimesOk(Run(START, actions))
  {
    if actions != [] {
      RunKeepsTimes(actions[..|actions| - 1]);
      StepKeepsTimes(Run(START, actions[..|actions| - 1]), actions[|actions| - 1]);
    }
  }

  /** Long enough for every heartbeat and every record to be overdue. */
  predicate Enough(elapsed: nat, limit: int, grace: int) {
    elapsed > limit > 0 && elapsed > grace > 0 && elapsed > 180
  }

  /** After a long enough time without a beat whatever record is left can be collected. */
  lemma WaitingClears(s: Device, elapsed: nat, c: Pid, limit: int, grace: int, order: seq<Dir>)
    requires s.lock == Free && s.owner.Some? && Recoverable(s) && Unoccupied(s, c) && TimesOk(s)
    requires Enough(elapsed, limit, grace) && Lists(order, s.owner.value.attempts)
    ensures Cleared(Run(s, [Tick(elapsed)] + Collection(c, limit, grace, order)))
  {
    var t := Step(s, Tick(elapsed));
    RunPair(s, Tick(elapsed), Tick(elapsed));
    StaleExactlyWhen(t, t.owner.value, limit, grace);
    CollectionClears(t, c, limit, grace, order);
    RunOn(s, [Tick(elapsed)], Collection(c, limit, grace, order));
  }

  // ------------------------------------------------------------- recovery

  lemma RunThrough(actions: seq<Action>, a: Action, more: seq<Action>)
    ensures Run(START, actions + [a] + more) == Run(Step(Run(START, actions), a), more)
  {
    RunPair(Run(START, actions), a, a);
    RunOn(START, actions, [a]);
    RunOn(START, actions + [a], more);
  }

  /** A dead process keeps no lock, and takes nothing else with it. */
  lemma DeathFreesLock(s: Device, p: Pid)
    ensures p in s.holders && s.lock in {Free, ByHolder(p)} ==>
              var t := Step(s, KillHolder(p));
              && t.lock == Free && t.owner == s.owner && t.remote == s.remote && t.collectors == s.collectors
              && t.heartbeats == s.heartbeats && t.now == s.now
    ensures p in s.collectors && s.lock in {Free, ByCollector(p)} ==>
              var t := Step(s, KillCollector(p));
              && t.lock == Free && t.owner == s.owner && t.remote == s.remote
              && t.collectors == s.collectors[p := s.collectors[p].(pc := Idle)]
              && t.heartbeats == s.heartbeats && t.now == s.now
  {
  }

  /** A holder that dies, even with the lock in hand, is recovered from. */
  lemma CrashedHolderIsCollected(actions: seq<Action>, p: Pid, elapsed: nat, c: Pid, limit: int, grace: int, order: seq<Dir>)
    requires SparesLive(actions)
    requires var s := Run(START, actions);
             && p in s.holders && Live(s.holders[p]) && s.lock in {Free, ByHolder(p)} && Unoccupied(s, c)
             && Enough(elapsed, limit, grace) && s.owner.Some? && Lists(order, s.owner.value.attempts)
    ensures Cleared(Run(START, actions + [KillHolder(p)] + ([Tick(elapsed)] + Collection(c, limit, grace, order))))
  {
    SparingRunKeeps(actions);
    RunKeepsTimes(actions);
    RunThrough(actions, KillHolder(p), [Tick(elapsed)] + Collection(c, limit, grace, order));
    DeathFreesLock(Run(START, actions), p);
    WaitingClears(Step(Run(START, actions), KillHolder(p)), elapsed, c, limit, grace, order);
  }

  /** So is a collector that dies in the middle of a removal. */
  lemma CrashedCollectorIsReplaced(actions: seq<Action>, g: Pid, elapsed: nat, c: Pid, limit: int, grace: int,
                                   order: seq<Dir>)
    requires SparesLive(actions)
    requires var s := Run(START, actions);
             && g in s.collectors && InsideC(s.collectors[g]) && (c == g || Unoccupied(s, c))
             && Enough(elapsed, limit, grace) && s.owner.Some? && Lists(order, s.owner.value.attempts)
    ensures Cleared(Run(START, actions + [KillCollector(g)] + ([Tick(elapsed)] + Collection(c, limit, grace, order))))
  {
    SparingRunKeeps(actions);
    RunKeepsTimes(actions);
    RunThrough(actions, KillCollector(g), [Tick(elapsed)] + Collection(c, limit, grace, order));
    DeathFreesLock(Run(START, actions), g);
    WaitingClears(Step(Run(START, actions), KillCollector(g)), elapsed, c, limit, grace, order);
  }

  /** A collection in which the device refuses to remove a directory can be taken up again; the directory may be gone. */
  lemma FailedCollectionIsTakenUp(actions: seq<Action>, g: Pid, dir: Dir, gone: bool, elapsed: nat, limit: int, grace: int,
                                  order: seq<Dir>)
    requires SparesLive(actions)
    requires var s := Run(START, actions);
             && g in s.collectors && s.collectors[g].pc.Removing? && dir in s.collectors[g].pc.left
             && Enough(elapsed, limit, grace) && s.owner.Some? && Lists(order, s.owner.value.attempts)
    ensures var t := Step(Run(START, actions), CollectDirFailed(g, dir, gone));
            && t.remote == (if gone then Run(START, actions).remote - {dir} else Run(START, actions).remote)
            && Cleared(Run(t, [Tick(elapsed)] + Collection(g, limit, grace, order)))
  {
    SparingRunKeeps(actions);
    RunKeepsTimes(actions);
    WaitingClears(Step(Run(START, actions), CollectDirFailed(g, dir, gone)), elapsed, g, limit, grace, order);
  }

  /** The session ends early: an exception, or a removal that was not confirmed. */
  predicate EndsEarly(h: Holder, p: Pid, a: Action) {
    || (a == GiveUp(p) && (h.pc.Held? || h.pc.Recording? || h.pc.Cleaned? || h.pc.Forgetting?))
    || (h.pc.Recorded? && (a == RemoteRemovalFailed(p, true) || a == RemoteRemovalFailed(p, false)))
  }

  /** What the early end itself takes off the device. */
  function Lost(h: Holder, p: Pid, a: Action): set<Dir> {
    if h.pc.Recorded? && a == RemoteRemovalFailed(p, true) then {h.pc.dir} else {}
  }

  function Released(s: Device, p: Pid): Device {
    Step(Step(s, Release(p)), ReleaseOwner(p))
  }

  predicate IsFinished(s: Device, p: Pid) {
    p in s.holders && s.holders[p].pc == Finished
  }

  lemma EarlyEnd(s: Device, p: Pid, a: Action)
    requires p in s.holders && EndsEarly(s.holders[p], p, a)
    ensures var t := Step(s, a);
            && t.owner == s.owner && t.lock == s.lock && t.heartbeats == s.heartbeats && t.now == s.now
            && t.collectors == s.collectors && t.remote == s.remote - Lost(s.holders[p], p, a)
            && p in t.holders && t.holders[p] == s.holders[p].(pc := Stopping)
  {
  }

  lemma ReleaseEnds(s: Device, p: Pid)
    requires p in s.holders && s.holders[p].pc == Stopping && s.lock == Free && Owns(s, s.holders[p])
    ensures var t := Released(s, p);
            && t.lock == Free && t.now == s.now && IsFinished(t, p) && t.collectors == s.collectors && t.remote == s.remote
            && (if s.owner.value.attempts == {} then t.owner == None else t.owner == s.owner && t.heartbeats == s.heartbeats)
  {
    ReleaseSteps(s, p);
  }

  /**
   A session that ends early and releases leaves either a cleared device, when its record lists nothing, or its record,
   which lists what there may be and can be collected.
   */
  lemma EarlyEndIsRecovered(actions: seq<Action>, p: Pid, a: Action, elapsed: nat, c: Pid, limit: int, grace: int,
                            order: seq<Dir>)
    requires SparesLive(actions)
    requires var s := Run(START, actions);
             && p in s.holders && EndsEarly(s.holders[p], p, a) && s.lock == Free && Unoccupied(s, c)
             && Enough(elapsed, limit, grace) && s.owner.Some? && Lists(order, s.owner.value.attempts)
    ensures var s := Run(START, actions);
            var t := Released(Step(s, a), p);
            && Step(s, a).remote == s.remote - Lost(s.holders[p], p, a) && IsFinished(t, p)
            && if s.owner.value.attempts == {} then Cleared(t)
               else t.owner == s.owner && Cleared(Run(t, [Tick(elapsed)] + Collection(c, limit, grace, order)))
  {
    SparingRunKeeps(actions);
    RunKeepsTimes(actions);
    var s := Run(START, actions);
    assert HolderOk(s, s.holders[p]);
    EarlyEnd(s, p, a);
    ReleaseEnds(Step(s, a), p);
    if s.owner.value.attempts != {} {
      WaitingClears(Released(Step(s, a), p), elapsed, c, limit, grace, order);
    }
  }
}
