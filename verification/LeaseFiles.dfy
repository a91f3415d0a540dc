/**
 `DeviceLease`, `DeviceRuntime.stage` and `device_gc` as programs over the lease files. Each method is proved to be a
 sequence of actions of the step system in Leases, so what every run keeps holds of every program built from them.
 */
module LeaseFiles {
  import opened Common
  import opened Leases

  function Members(dirs: seq<Dir>): set<Dir> {
    set d | d in dirs
  }

  lemma MembersSplit(order: seq<Dir>, i: nat)
    requires i < |order| && forall i, j :: 0 <= i < j < |order| ==> order[i] != order[j]
    ensures order[i] in Members(order) && Members(order[..i]) <= Members(order)
    ensures order[i] in Members(order[i..]) && Members(order[i..]) - {order[i]} == Members(order[i + 1..])
    ensures Members(order[..i + 1]) == Members(order[..i]) + {order[i]}
  {
    assert order[i..] == [order[i]] + order[i + 1..] && order[..i + 1] == order[..i] + [order[i]];
  }

  /** How a staging session ended. */
  datatype Outcome = Conflict | NotReady | Clean | Retained

  const STEP: (Device, Action) -> Device := (s: Device, a: Action) => Step(s, a)

  /** These actions, one after the other, lead from one state of the step system to the other. */
  ghost predicate Leads(s: Device, actions: seq<Action>, t: Device) {
    Fold(STEP, s, actions) == t
  }

  lemma LeadsOneMore(s: Device, actions: seq<Action>, t: Device, a: Action)
    requires Leads(s, actions, t)
    ensures Leads(s, actions + [a], Step(t, a))
  {
    FoldLast(STEP, s, actions, a);
  }

  lemma LeadsNowhere(s: Device)
    ensures Leads(s, [], s)
  {
  }

  /** Some sequence of actions leads there. */
  ghost predicate Follows(s: Device, t: Device) {
    exists actions :: Leads(s, actions, t)
  }

  lemma FollowsItself(s: Device)
    ensures Follows(s, s)
  {
    LeadsNowhere(s);
  }

  lemma FollowsStep(s: Device, t: Device, a: Action)
    requires Follows(s, t)
    ensures Follows(s, Step(t, a))
  {
    var actions :| Leads(s, actions, t);
    LeadsOneMore(s, actions, t, a);
  }

  lemma FollowsOn(s: Device, t: Device, u: Device)
    requires Follows(s, t) && Follows(t, u)
    ensures Follows(s, u)
  {
    var first :| Leads(s, first, t);
    var second :| Leads(t, second, u);
    FoldConcat(STEP, s, first, second);
    assert Leads(s, first + second, u);
  }

  lemma {:induction false} FoldIsRun(s: Device, actions: seq<Action>)
    ensures Fold(STEP, s, actions) == Run(s, actions)
  {
    if actions != [] { FoldIsRun(s, actions[..|actions| - 1]); }
  }

  /** Whatever the methods below are put together to, the files stay those of a run of the step system. */
  lemma ProgramsAreRuns(t: Device)
    requires Follows(START, t)
    ensures Reachable(t) && FilesOk(t)
  {
    var actions :| Leads(START, actions, t);
    FoldIsRun(START, actions);
    RunKeepsFiles(actions);
  }

  function OwnerPublished(s: Device, p: Pid, token: Token, interval: int, stamp: nat): Device {
    s.(owner := Some(Record(token, interval, {}, stamp, s.now)), lock := ByHolder(p), used := s.used + {token},
       holders := s.holders[p := Holder(token, interval, Acquiring(false))])
  }

  function Beating(s: Device, p: Pid, token: Token, interval: int, stamp: nat): Device {
    OwnerPublished(s, p, token, interval, stamp).(
      heartbeats := s.heartbeats[token := s.now], holders := s.holders[p := Holder(token, interval, Acquiring(true))])
  }

  lemma AcquireBegins(s: Device, p: Pid, token: Token, interval: int, stamp: nat)
    requires p !in s.holders && token !in s.used && s.lock == Free && s.owner == None
    ensures Leads(s, [Action.Acquire(p, token, interval, stamp), FirstBeat(p)], Beating(s, p, token, interval, stamp))
  {
    var t, u := OwnerPublished(s, p, token, interval, stamp), Beating(s, p, token, interval, stamp);
    LeadsNowhere(s);
    LeadsOneMore(s, [], s, Action.Acquire(p, token, interval, stamp));
    assert OpenStep(s, Action.Acquire(p, token, interval, stamp)) == t;
    assert [] + [Action.Acquire(p, token, interval, stamp)] == [Action.Acquire(p, token, interval, stamp)];
    LeadsOneMore(s, [Action.Acquire(p, token, interval, stamp)], t, FirstBeat(p));
    assert AcquireStep(t, FirstBeat(p), p) == u;
    assert [Action.Acquire(p, token, interval, stamp)] + [FirstBeat(p)]
        == [Action.Acquire(p, token, interval, stamp), FirstBeat(p)];
  }

  lemma AcquireSucceeds(s: Device, p: Pid, token: Token, interval: int, stamp: nat) returns (t: Device)
    requires p !in s.holders && token !in s.used && s.lock == Free && s.owner == None
    ensures Leads(s, [Action.Acquire(p, token, interval, stamp), FirstBeat(p)] + [AcquireDone(p)], t)
    ensures t == s.(owner := Some(Record(token, interval, {}, stamp, s.now)), heartbeats := s.heartbeats[token := s.now],
                    used := s.used + {token}, holders := s.holders[p := Holder(token, interval, Held)])
  {
    var u := Beating(s, p, token, interval, stamp);
    AcquireBegins(s, p, token, interval, stamp);
    LeadsOneMore(s, [Action.Acquire(p, token, interval, stamp), FirstBeat(p)], u, AcquireDone(p));
    t := AcquireStep(u, AcquireDone(p), p);
  }

  lemma AcquireAborts(s: Device, p: Pid, token: Token, interval: int, stamp: nat) returns (t: Device)
    requires p !in s.holders && token !in s.used && s.lock == Free && s.owner == None
    ensures Leads(s, [Action.Acquire(p, token, interval, stamp), FirstBeat(p)] + [AbortBeat(p)] + [AbortOwner(p)], t)
    ensures t == s.(heartbeats := s.heartbeats - {token}, used := s.used + {token},
                    holders := s.holders[p := Holder(token, interval, Finished)])
  {
    var u := Beating(s, p, token, interval, stamp);
    AcquireBegins(s, p, token, interval, stamp);
    LeadsOneMore(s, [Action.Acquire(p, token, interval, stamp), FirstBeat(p)], u, AbortBeat(p));
    var v := AcquireStep(u, AbortBeat(p), p);
    LeadsOneMore(s, [Action.Acquire(p, token, interval, stamp), FirstBeat(p)] + [AbortBeat(p)], v, AbortOwner(p));
    t := AcquireStep(v, AbortOwner(p), p);
    assert s.heartbeats[token := s.now] - {token} == s.heartbeats - {token};
  }

  /** A collector at work: its lock, its phase and what is left to remove. */
  ghost predicate AtWork(s: Device, p: Pid, limit: int, grace: int, candidate: Record, left: set<Dir>) {
    s.lock == ByCollector(p) && p in s.collectors
    && s.collectors[p] == Collector(limit, grace, Removing(candidate, left))
  }

  lemma CollectsOne(s: Device, p: Pid, limit: int, grace: int, candidate: Record, left: set<Dir>, dir: Dir)
    requires AtWork(s, p, limit, grace, candidate, left) && dir in left
    ensures var t := Step(s, CollectDir(p, dir));
            && AtWork(t, p, limit, grace, candidate, left - {dir})
            && t.now == s.now && t.owner == s.owner && t.heartbeats == s.heartbeats && t.remote == s.remote - {dir}
    ensures var t := Step(s, CollectDirFailed(p, dir, false));
            t.lock == Free && t.now == s.now && t.owner == s.owner && t.heartbeats == s.heartbeats && t.remote == s.remote
  {
  }

  lemma CollectsRecord(s: Device, p: Pid, limit: int, grace: int, candidate: Record)
    requires AtWork(s, p, limit, grace, candidate, {})
    ensures var t := Step(Step(s, DropBeat(p)), DropOwner(p));
            && t.lock == Free && t.now == s.now && t.owner == None && t.remote == s.remote
            && t.heartbeats == s.heartbeats - {candidate.token}
  {
  }

  lemma ChecksCandidate(s: Device, p: Pid, limit: int, grace: int, candidate: Record)
    requires s.lock == Free && p in s.collectors && s.collectors[p] == Collector(limit, grace, Scanned(candidate))
    ensures var t := Step(s, Check(p));
            && t.now == s.now && t.owner == s.owner && t.heartbeats == s.heartbeats && t.remote == s.remote
            && if s.owner == Some(candidate) && Stale(s, candidate, limit, grace)
               then AtWork(t, p, limit, grace, candidate, candidate.attempts) else t.lock == Free
  {
  }

  lemma RecordSteps(s: Device, p: Pid, dir: Dir, stamp: nat)
    requires p in s.holders && s.holders[p].pc == Held && s.lock == Free
    ensures var h := s.holders[p];
            var read := Step(s, ReadForRecord(p, dir));
            if Owns(s, h) then
              Step(read, WriteRecord(p, stamp))
              == s.(owner := Some(Record(h.token, h.interval, s.owner.value.attempts + {dir}, stamp, s.now)),
                    holders := s.holders[p := h.(pc := Recorded(dir))])
            else read == s.(holders := s.holders[p := h.(pc := Stopping)])
  {
  }

  lemma ForgetSteps(s: Device, p: Pid, dir: Dir, stamp: nat)
    requires p in s.holders && s.holders[p].pc == Cleaned(dir) && s.lock == Free
    ensures var h := s.holders[p];
            var read := Step(s, ReadForForget(p));
            if Owns(s, h) then
              Step(read, WriteForget(p, stamp))
              == s.(owner := Some(Record(h.token, h.interval, s.owner.value.attempts - {dir}, stamp, s.now)),
                    holders := s.holders[p := h.(pc := Stopping)])
            else read == s.(holders := s.holders[p := h.(pc := Stopping)])
  {
  }

  lemma ReleaseSteps(s: Device, p: Pid)
    requires p in s.holders && s.holders[p].pc == Stopping && s.lock == Free
    ensures var h := s.holders[p];
            var done := s.(holders := s.holders[p := h.(pc := Finished)]);
            var released := Step(s, Release(p));
            if !Owns(s, h) then released == done.(heartbeats := s.heartbeats - {h.token})
            else if s.owner.value.attempts != {} then released == done
            else Step(released, ReleaseOwner(p)) == done.(heartbeats := s.heartbeats - {h.token}, owner := None)
  {
  }

  lemma WorkSteps(s: Device, p: Pid, dir: Dir)
    requires p in s.holders && s.holders[p].pc == Recorded(dir)
    ensures Step(s, RemoteWork(p)) == s.(remote := s.remote + {dir})
    ensures Step(s, RemoteRemoved(p))
            == s.(remote := s.remote - {dir}, holders := s.holders[p := s.holders[p].(pc := Cleaned(dir))])
    ensures Step(s, RemoteRemovalFailed(p, false)) == s.(holders := s.holders[p := s.holders[p].(pc := Stopping)])
  {
  }

  class LeaseDirectory {
    var now: int
    var owner: Option<Record>
    var heartbeats: map<Token, int>
    var remote: set<Dir>
    /** The state of the step system these files belong to. */
    ghost var model: Device

    ghost predicate Valid()
      reads this
    {
      now == model.now && owner == model.owner && heartbeats == model.heartbeats && remote == model.remote
    }

    /** A holder of this token is in this phase, and nobody holds the lock. */
    ghost predicate Phase(p: Pid, token: Token, interval: int, pc: HolderPc)
      reads this
    {
      model.lock == Free && p in model.holders && model.holders[p] == Holder(token, interval, pc)
    }

    constructor ()
      ensures Valid() && model == START
    {
      now, owner, heartbeats, remote, model := 0, None, map[], {}, START;
    }

    ghost method Take(a: Action, start: Device)
      requires Follows(start, model)
      modifies this`model
      ensures model == Step(old(model), a) && Follows(start, model)
    {
      FollowsStep(start, model, a);
      model := Step(model, a);
    }

    /** `acquire`: `ready` says whether the heartbeat sidecar reported in before its deadline. */
    method Acquire(p: Pid, token: Token, interval: int, stamp: nat, ready: bool) returns (ok: bool)
      requires Valid() && model.lock == Free && p !in model.holders && token !in model.used
      modifies this
      ensures Valid() && now == old(now) && remote == old(remote) && model.lock == Free
      ensures ok == (old(owner).None? && ready)
      ensures ok ==> owner == Some(Record(token, interval, {}, stamp, now)) && heartbeats == old(heartbeats)[token := now]
      ensures ok ==> Phase(p, token, interval, Held)
      ensures !ok ==> owner == old(owner) && heartbeats.Keys - {token} == old(heartbeats).Keys - {token}
      ensures old(owner).Some? ==> model == old(model)
      ensures Follows(old(model), model)
    {
      LeadsNowhere(model);
      if owner.Some? { return false; }
      owner := Some(Record(token, interval, {}, stamp, now));
      heartbeats := heartbeats[token := now];
      if !ready {
        heartbeats := heartbeats - {token};
        owner := None;
        model := AcquireAborts(model, p, token, interval, stamp);
        return false;
      }
      model := AcquireSucceeds(model, p, token, interval, stamp);
      ok := true;
    }

    /** `record_attempt_dir`: read the owner, add the directory, replace the record if it is still ours. */
    method RecordAttempt(p: Pid, token: Token, interval: int, dir: Dir, stamp: nat) returns (ok: bool)
      requires Valid() && Phase(p, token, interval, Held)
      modifies this
      ensures Valid() && Follows(old(model), model)
      ensures now == old(now) && remote == old(remote) && heartbeats == old(heartbeats)
      ensures ok == (old(owner).Some? && old(owner).value.token == token)
      ensures owner == if ok then Some(Record(token, interval, old(owner).value.attempts + {dir}, stamp, now)) else old(owner)
      ensures Phase(p, token, interval, if ok then Recorded(dir) else Stopping)
    {
      FollowsItself(model);
      var payload := owner;
      RecordSteps(model, p, dir, stamp);
      Take(ReadForRecord(p, dir), old(model));
      if payload.None? || payload.value.token != token { return false; }
      owner := Some(Record(token, interval, payload.value.attempts + {dir}, stamp, now));
      Take(WriteRecord(p, stamp), old(model));
      ok := true;
    }

    /** `forget_attempt_dir`. */
    method ForgetAttempt(p: Pid, token: Token, interval: int, dir: Dir, stamp: nat) returns (ok: bool)
      requires Valid() && Phase(p, token, interval, Cleaned(dir))
      modifies this
      ensures Valid() && Follows(old(model), model)
      ensures now == old(now) && remote == old(remote) && heartbeats == old(heartbeats)
      ensures ok == (old(owner).Some? && old(owner).value.token == token)
      ensures owner == if ok then Some(Record(token, interval, old(owner).value.attempts - {dir}, stamp, now)) else old(owner)
      ensures Phase(p, token, interval, Stopping)
    {
      FollowsItself(model);
      var payload := owner;
      ForgetSteps(model, p, dir, stamp);
      Take(ReadForForget(p), old(model));
      if payload.None? || payload.value.token != token { return false; }
      owner := Some(Record(token, interval, payload.value.attempts - {dir}, stamp, now));
      Take(WriteForget(p, stamp), old(model));
      ok := true;
    }

    /** `release`: only an empty record of this token is removed, heartbeat file first. */
    method ReleaseLease(p: Pid, token: Token, interval: int)
      requires Valid() && Phase(p, token, interval, Stopping)
      modifies this
      ensures Valid() && Follows(old(model), model) && now == old(now) && remote == old(remote)
      ensures var ours := old(owner).Some? && old(owner).value.token == token;
              && owner == (if ours && old(owner).value.attempts == {} then None else old(owner))
              && heartbeats == (if ours && old(owner).value.attempts != {} then old(heartbeats) else old(heartbeats) - {token})
      ensures Phase(p, token, interval, Finished)
    {
      FollowsItself(model);
      var ours := owner.Some? && owner.value.token == token;
      var retained := ours && owner.value.attempts != {};
      ReleaseSteps(model, p);
      Take(Release(p), old(model));
      if !retained { heartbeats := heartbeats - {token}; }
      if ours && !retained {
        owner := None;
        Take(ReleaseOwner(p), old(model));
      }
    }

    /** `stage_attempt` with its exact cleanup in the `finally`. */
    method StageAttempt(p: Pid, token: Token, interval: int, dir: Dir, pushed: bool, removed: bool)
      requires Valid() && Phase(p, token, interval, Recorded(dir))
      modifies this
      ensures Valid() && Follows(old(model), model) && now == old(now) && owner == old(owner) && heartbeats == old(heartbeats)
      ensures remote == if removed then old(remote) - {dir} else if pushed then old(remote) + {dir} else old(remote)
      ensures Phase(p, token, interval, if removed then Cleaned(dir) else Stopping)
    {
      FollowsItself(model);
      if pushed {
        WorkSteps(model, p, dir);
        remote := remote + {dir};
        Take(RemoteWork(p), old(model));
      }
      WorkSteps(model, p, dir);
      if removed {
        remote := remote - {dir};
        Take(RemoteRemoved(p), old(model));
      } else {
        Take(RemoteRemovalFailed(p, false), old(model));
      }
    }

    /**
     `stage`, undisturbed: acquire, record, push, clean, forget, release. `ready` and `removed` say whether the
     sidecar reported in and whether the remote removal was confirmed; `pushed` whether the directory came to exist.
     */
    method Stage(p: Pid, token: Token, interval: int, dir: Dir, stamps: (nat, nat, nat),
                 ready: bool, pushed: bool, removed: bool) returns (outcome: Outcome)
      requires Valid() && model.lock == Free && p !in model.holders && token !in model.used
      modifies this
      ensures Valid() && Follows(old(model), model) && now == old(now) && model.lock == Free
      ensures outcome == if old(owner).Some? then Conflict else if !ready then NotReady
                         else if removed then Clean else Retained
      ensures outcome.Conflict? || outcome.NotReady? ==> owner == old(owner) && remote == old(remote)
      ensures outcome.Clean? ==> owner == None && remote == old(remote) - {dir} && token !in heartbeats
      ensures outcome.Retained? ==>
                && owner == Some(Record(token, interval, {dir}, stamps.1, now)) && token in heartbeats
                && remote == if pushed then old(remote) + {dir} else old(remote)
    {
      FollowsItself(model);
      var ok := Acquire(p, token, interval, stamps.0, ready);
      if !ok { return if owner.Some? then Conflict else NotReady; }
      ghost var acquired := model;
      ok := RecordAttempt(p, token, interval, dir, stamps.1);
      FollowsOn(old(model), acquired, model);
      ghost var recorded := model;
      assert {} + {dir} == {dir} && {dir} - {dir} == {};
      StageAttempt(p, token, interval, dir, pushed, removed);
      FollowsOn(old(model), recorded, model);
      ghost var worked := model;
      if removed {
        ok := ForgetAttempt(p, token, interval, dir, stamps.2);
        FollowsOn(old(model), worked, model);
      }
      ghost var forgotten := model;
      ReleaseLease(p, token, interval);
      FollowsOn(old(model), forgotten, model);
      outcome := if removed then Clean else Retained;
    }

    /**
     `device_gc` for one candidate the scan returned. `order` lists the recorded directories; `failing` are those
     whose remote removal fails, which ends the collection with the record still in place.
     */
    method Collect(p: Pid, limit: int, grace: int, candidate: Record, order: seq<Dir>, failing: set<Dir>)
      returns (collected: bool)
      requires Valid() && model.lock == Free
      requires p in model.collectors && model.collectors[p] == Collector(limit, grace, Scanned(candidate))
      requires Members(order) == candidate.attempts
      requires forall i, j :: 0 <= i < j < |order| ==> order[i] != order[j]
      modifies this
      ensures Valid() && Follows(old(model), model) && now == old(now) && model.lock == Free
      ensures collected == (old(owner) == Some(candidate) && old(Stale(model, candidate, limit, grace))
                            && candidate.attempts !! failing)
      ensures collected ==> owner == None && remote == old(remote) - candidate.attempts
                            && heartbeats == old(heartbeats) - {candidate.token}
      ensures !collected ==> owner == old(owner) && heartbeats == old(heartbeats)
                             && old(remote) - candidate.attempts <= remote <= old(remote)
                             && old(remote) * failing <= remote
    {
      FollowsItself(model);
      var beats := candidate.token in heartbeats;
      var age := Max(0, now - if beats then heartbeats[candidate.token] else candidate.writtenAt);
      var stale := age > if beats then Patience(limit, candidate.interval) else grace;
      ChecksCandidate(model, p, limit, grace, candidate);
      Take(Check(p), old(model));
      if owner != Some(candidate) || !stale { return false; }
      ghost var checked := model;
      collected := RemoveAll(p, limit, grace, candidate, order, failing);
      FollowsOn(old(model), checked, model);
    }

    /** The loop over one record's directories, under the lock, and then the record itself. */
    method RemoveAll(p: Pid, limit: int, grace: int, candidate: Record, order: seq<Dir>, failing: set<Dir>)
      returns (collected: bool)
      requires Valid() && AtWork(model, p, limit, grace, candidate, candidate.attempts) && owner == Some(candidate)
      requires Members(order) == candidate.attempts
      requires forall i, j :: 0 <= i < j < |order| ==> order[i] != order[j]
      modifies this
      ensures Valid() && Follows(old(model), model) && now == old(now) && model.lock == Free
      ensures collected == (candidate.attempts !! failing)
      ensures collected ==> owner == None && remote == old(remote) - candidate.attempts
                            && heartbeats == old(heartbeats) - {candidate.token}
      ensures !collected ==> owner == old(owner) && heartbeats == old(heartbeats)
                             && old(remote) - candidate.attempts <= remote <= old(remote)
                             && old(remote) * failing <= remote
    {
      FollowsItself(model);
      var i := 0;
      assert order[0..] == order;
      while i < |order|
        invariant 0 <= i <= |order| && Valid() && Follows(old(model), model)
        invariant now == old(now) && owner == old(owner) && heartbeats == old(heartbeats)
        invariant remote == old(remote) - Members(order[..i]) && Members(order[..i]) !! failing
        invariant AtWork(model, p, limit, grace, candidate, Members(order[i..]))
      {
        MembersSplit(order, i);
        CollectsOne(model, p, limit, grace, candidate, Members(order[i..]), order[i]);
        if order[i] in failing {
          Take(CollectDirFailed(p, order[i], false), old(model));
          return false;
        }
        remote := remote - {order[i]};
        Take(CollectDir(p, order[i]), old(model));
        i := i + 1;
      }
      assert order[..i] == order && Members(order[i..]) == {};
      CollectsRecord(model, p, limit, grace, candidate);
      heartbeats := heartbeats - {candidate.token};
      owner := None;
      Take(DropBeat(p), old(model));
      Take(DropOwner(p), old(model));
      collected := true;
    }
  }
}
