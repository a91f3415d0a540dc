/** `_has_verified_ancestor_build_receipt`: whether this job's history holds a verified build under the current key. */
module Ancestry {
  import opened Common

  type JobId = string

  datatype Receipt = Receipt(stageName: string, stageKey: string, verified: bool)

  /** A journal: the job it was derived from, and its receipts. */
  datatype Job = Job(parent: Option<JobId>, receipts: seq<Receipt>)

  /** A verified receipt of the build under this key. */
  predicate Built(job: Job, key: string) {
    Receipt("build", key, true) in job.receipts
  }

  /** The parent, if its journal still exists. */
  function ParentOf(jobs: map<JobId, Job>, id: JobId): (parent: Option<JobId>)
    requires id in jobs
    ensures parent.Some? ==> parent.value in jobs
  {
    var parent := jobs[id].parent;
    if parent.Some? && parent.value in jobs then parent else None
  }

  /** `target` is `id` or one of its ancestors, `n` generations back; only jobs whose journals exist count. */
  predicate Descends(jobs: map<JobId, Job>, id: JobId, target: JobId, n: nat)
    requires id in jobs
    decreases n
  {
    if n == 0 then id == target
    else jobs[id].parent.Some? && jobs[id].parent.value in jobs && Descends(jobs, jobs[id].parent.value, target, n - 1)
  }

  predicate IsStart(self: JobId, reuseFrom: Option<JobId>, id: JobId) {
    id == self || reuseFrom == Some(id)
  }

  /** The job, the job it reuses from, and all their ancestors. */
  ghost predicate InHistory(jobs: map<JobId, Job>, self: JobId, reuseFrom: Option<JobId>, target: JobId) {
    exists start, n: nat :: start in jobs && IsStart(self, reuseFrom, start) && Descends(jobs, start, target, n)
  }

  lemma {:induction false} DescendsFurther(jobs: map<JobId, Job>, id: JobId, target: JobId, n: nat)
    requires id in jobs && Descends(jobs, id, target, n)
    ensures target in jobs
    ensures ParentOf(jobs, target).Some? ==> Descends(jobs, id, ParentOf(jobs, target).value, n + 1)
    decreases n
  {
    if n > 0 { DescendsFurther(jobs, ParentOf(jobs, id).value, target, n - 1); }
  }

  lemma ParentInHistory(jobs: map<JobId, Job>, self: JobId, reuseFrom: Option<JobId>, id: JobId)
    requires id in jobs && InHistory(jobs, self, reuseFrom, id) && ParentOf(jobs, id).Some?
    ensures InHistory(jobs, self, reuseFrom, ParentOf(jobs, id).value)
  {
    var start, n: nat :| start in jobs && IsStart(self, reuseFrom, start) && Descends(jobs, start, id, n);
    DescendsFurther(jobs, start, id, n);
  }

  /** Every parent of a visited job is visited or waiting. */
  predicate Closed(jobs: map<JobId, Job>, visited: set<JobId>, waiting: seq<JobId>) {
    forall id | id in visited ::
      id in jobs && (ParentOf(jobs, id).Some? ==> ParentOf(jobs, id).value in visited || ParentOf(jobs, id).value in waiting)
  }

  lemma {:induction false} HistoryIsVisited(jobs: map<JobId, Job>, visited: set<JobId>, start: JobId, target: JobId,
                                            n: nat)
    requires start in visited && Closed(jobs, visited, []) && Descends(jobs, start, target, n)
    ensures target in visited
    decreases n
  {
    if n > 0 { HistoryIsVisited(jobs, visited, ParentOf(jobs, start).value, target, n - 1); }
  }

  /** True exactly when some job of the history built under this key, however the parent links run. */
  method HasVerifiedAncestorBuild(jobs: map<JobId, Job>, self: JobId, reuseFrom: Option<JobId>,
                                  key: string) returns (found: bool)
    requires self in jobs && (reuseFrom.Some? ==> reuseFrom.value in jobs)
    ensures found <==> exists id :: id in jobs && InHistory(jobs, self, reuseFrom, id) && Built(jobs[id], key)
  {
    assert Descends(jobs, self, self, 0);
    var candidates := [self];
    if reuseFrom.Some? {
      assert Descends(jobs, reuseFrom.value, reuseFrom.value, 0);
      candidates := candidates + [reuseFrom.value];
    }
    if ParentOf(jobs, self).Some? {
      ParentInHistory(jobs, self, reuseFrom, self);
      candidates := candidates + [ParentOf(jobs, self).value];
    }
    var visited: set<JobId> := {};
    while candidates != []
      invariant forall id | id in candidates :: id in jobs && InHistory(jobs, self, reuseFrom, id)
      invariant forall id | id in visited :: id in jobs && !Built(jobs[id], key)
      invariant Closed(jobs, visited, candidates)
      invariant forall id | IsStart(self, reuseFrom, id) :: id in visited || id in candidates
      decreases jobs.Keys - visited, |candidates|
    {
      var candidate := candidates[0];
      ghost var before := candidates;
      candidates := candidates[1..];
      assert before == [candidate] + candidates;
      if candidate in visited {
        continue;
      }
      visited := visited + {candidate};
      if Built(jobs[candidate], key) {
        return true;
      }
      var ancestor := ParentOf(jobs, candidate);
      if ancestor.Some? && ancestor.value !in visited {
        ParentInHistory(jobs, self, reuseFrom, candidate);
        candidates := candidates + [ancestor.value];
      }
    }
    forall id | id in jobs && InHistory(jobs, self, reuseFrom, id) ensures !Built(jobs[id], key) {
      var start, n: nat :| start in jobs && IsStart(self, reuseFrom, start) && Descends(jobs, start, id, n);
      HistoryIsVisited(jobs, visited, start, id, n);
    }
    found := false;
  }
}
