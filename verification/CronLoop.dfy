/** The service's critical sections as the source writes them: loops that update the stored jobs in place. */
module CronLoop {
  import opened Text
  import opened Cron

  class CronService {
    var jobs: seq<Job>
    var disk: seq<Job>
    var running: bool
    const tick: Tick

    function Value(): Service
      reads this
    {
      Service(jobs, disk, running)
    }

    /** A service over the jobs found in the file. */
    constructor (stored: seq<Job>, tick: Tick)
      ensures Value() == Service(stored, stored, false) && this.tick == tick
    {
      this.jobs, this.disk, this.running, this.tick := stored, stored, false, tick;
    }

    method SaveStore(saved: bool)
      modifies this`disk
      ensures Value() == Store(old(Value()), jobs, saved)
    {
      if saved {
        disk := jobs;
      }
    }

    /** Jobs taken over must not be found due again before they have been rescheduled. */
    method ClearPlanned(dueMap: set<string>)
      modifies this`jobs
      ensures jobs == ClearNext(old(jobs), dueMap)
    {
      ghost var before := jobs;
      for i := 0 to |jobs|
        invariant |jobs| == |before|
        invariant jobs[..i] == ClearNext(before, dueMap)[..i] && jobs[i..] == before[i..]
      {
        if jobs[i].id in dueMap {
          jobs := jobs[i := jobs[i].(next := None)];
        }
      }
    }

    /** Takes over the due jobs; their planned run is cleared before the lock is released. */
    method CheckJobs(now: int, saved: bool) returns (due: seq<string>)
      modifies this
      ensures due == Collected(old(Value()), now)
      ensures Value() == AfterCollect(old(Value()), now, saved)
    {
      due := [];
      if !running {
        return;
      }
      for i := 0 to |jobs|
        invariant due == DueIds(jobs[..i], now)
      {
        assert jobs[..i + 1][..i] == jobs[..i];
        var job := jobs[i];
        if job.enabled && job.next.Some? && job.next.value <= now {
          due := due + [job.id];
        }
      }
      assert jobs[..|jobs|] == jobs;
      var dueMap := set id <- due;
      ClearPlanned(dueMap);
      SaveStore(saved);
    }

    method RecomputeNextRuns(now: int)
      modifies this`jobs
      ensures jobs == Recompute(old(jobs), now, tick)
    {
      ghost var before := jobs;
      for i := 0 to |jobs|
        invariant |jobs| == |before|
        invariant jobs[..i] == Recompute(before, now, tick)[..i] && jobs[i..] == before[i..]
      {
        if jobs[i].enabled {
          jobs := jobs[i := jobs[i].(next := ComputeNextRun(jobs[i].schedule, now, tick))];
        }
      }
    }

    method LoadStore(readable: bool)
      modifies this`jobs
      ensures Value() == Loaded(old(Value()), readable)
    {
      jobs := [];
      if readable {
        jobs := disk;
      }
    }

    method Start(now: int, readable: bool, saved: bool) returns (ok: bool)
      modifies this
      ensures Value() == Started(old(Value()), now, tick, readable, saved)
      ensures ok == running == (old(running) || (readable && saved))
    {
      if running {
        return true;
      }
      LoadStore(readable);
      if !readable {
        return false;
      }
      RecomputeNextRuns(now);
      SaveStore(saved);
      if !saved {
        return false;
      }
      running := true;
      return true;
    }

    method Stop()
      modifies this`running
      ensures Value() == Stopped(old(Value()))
    {
      running := false;
    }

    method AddJob(id: string, schedule: Schedule, now: int, saved: bool) returns (ok: bool)
      modifies this
      ensures Value() == Added(old(Value()), id, schedule, now, tick, saved) && ok == saved
    {
      var deleteAfterRun := schedule.kind == "at";
      var next := ComputeNextRun(schedule, now, tick);
      jobs := jobs + [Job(id, true, schedule, next, None, Never, now, now, deleteAfterRun)];
      SaveStore(saved);
      ok := saved;
    }

    method RemoveJob(id: string, saved: bool) returns (removed: bool)
      modifies this
      ensures Value() == Removed(old(Value()), id, saved)
      ensures removed <==> exists j <- old(jobs) :: j.id == id
    {
      var kept := [];
      for i := 0 to |jobs|
        invariant kept == Without(jobs[..i], id) && |kept| <= i
        invariant |kept| == i <==> forall j <- jobs[..i] :: j.id != id
      {
        assert jobs[..i + 1] == jobs[..i] + [jobs[i]];
        if jobs[i].id != id {
          kept := kept + [jobs[i]];
        }
      }
      assert jobs[..|jobs|] == jobs;
      var before := |jobs|;
      jobs := kept;
      removed := |jobs| < before;
      if removed {
        SaveStore(saved);
      }
    }

    /** The index of the job with the given id, or the number of jobs. */
    method FindJob(id: string) returns (i: nat)
      ensures i == Find(jobs, id)
    {
      for k := 0 to |jobs|
        invariant Find(jobs, id) == k + Find(jobs[k..], id)
      {
        if jobs[k].id == id {
          return k;
        }
        assert jobs[k..][1..] == jobs[k + 1..];
      }
      return |jobs|;
    }

    method EnableJob(id: string, enabled: bool, now: int, saved: bool) returns (found: bool)
      modifies this
      ensures Value() == Enabled(old(Value()), id, enabled, now, tick, saved)
      ensures found <==> exists j <- old(jobs) :: j.id == id
    {
      FindFirst(jobs, id);
      var i := FindJob(id);
      if i == |jobs| {
        return false;
      }
      assert jobs[i] in old(jobs);
      var job := jobs[i].(enabled := enabled, updated := now);
      if enabled {
        job := job.(next := ComputeNextRun(job.schedule, now, tick));
      } else {
        job := job.(next := None);
      }
      jobs := jobs[i := job];
      SaveStore(saved);
      return true;
    }

    /** Removes the job at index `i`, whose new state was noted before. */
    method RemoveFinished(i: nat, job: Job, removalSaved: bool, saved: bool)
      requires i < |jobs| && jobs[i].id == job.id
      modifies this
      ensures Value() == Store(old(Value()), Without(old(jobs), job.id), saved || removalSaved)
    {
      RemovedFinished(Value(), i, job, removalSaved);
      jobs := jobs[i := job];
      var removed := RemoveJob(job.id, removalSaved);
      SaveStore(saved);
    }

    /**
     * The update at the end of `executeJobByID`, after the handler of the job started at `started` returned.
     * Removing a job saves the store once more, and one of the two saves is enough.
     */
    method FinishJob(id: string, started: int, now: int, outcome: Status, removalSaved: bool, saved: bool)
      modifies this
      ensures Value() == Finished(old(Value()), id, started, now, outcome, tick,
                                  saved || (removalSaved && Drops(old(Value()), id)))
    {
      var i := FindJob(id);
      if i == |jobs| {
        return;
      }
      var job := jobs[i].(last := Some(started), updated := now, status := outcome);
      if job.schedule.kind == "at" {
        if job.deleteAfterRun {
          RemoveFinished(i, job, removalSaved, saved);
          return;
        }
        job := job.(enabled := false, next := None);
      } else {
        job := job.(next := ComputeNextRun(job.schedule, now, tick));
      }
      jobs := jobs[i := job];
      SaveStore(saved);
    }
  }

  lemma {:induction false} WithoutUpdated(jobs: seq<Job>, i: nat, job: Job, id: string)
    requires i < |jobs| && jobs[i].id == job.id == id
    ensures Without(jobs[i := job], id) == Without(jobs, id)
  {
    var updated := jobs[i := job];
    var n := |jobs| - 1;
    if i < n {
      WithoutUpdated(jobs[..n], i, job, id);
      assert updated[..n] == jobs[..n][i := job];
    } else {
      assert updated[..n] == jobs[..n];
    }
  }

  lemma RemovedFinished(s: Service, i: nat, job: Job, saved: bool)
    requires i < |s.jobs| && s.jobs[i].id == job.id
    ensures Removed(s.(jobs := s.jobs[i := job]), job.id, saved) == Store(s, Without(s.jobs, job.id), saved)
  {
    WithoutUpdated(s.jobs, i, job, job.id);
    WithoutShorter(s.jobs, i);
  }
}
