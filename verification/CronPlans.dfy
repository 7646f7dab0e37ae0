/**
 * What plans the next run of a job and what leaves a job without one. A planned job that is left alone is
 * dispatched in time; one without a planned run is not dispatched at all.
 */
module CronPlans {
  import opened Text
  import opened Cron
  import opened CronRuns
  import opened CronProgress

  // ----- planning a job

  /** Steps that plan a job with the given schedule afresh: adding, switching on, the end of a run, and a start. */
  ghost predicate Replans(s: System, step: Step, id: string, schedule: Schedule)
    requires CanStep(s, step)
  {
    match step
    case AddJob(added, its, _, _) => s.service.running && added == id && its == schedule
    case EnableJob(other, on, _, _) =>
      s.service.running && other == id && on && exists j <- s.service.jobs :: j.id == id && j.schedule == schedule
    case End(w, _, _, _) =>
      && s.service.running && s.workers[w].current.value.id == id && schedule.kind != "at"
      && exists j <- s.service.jobs :: j.id == id && j.schedule == schedule && j.enabled
    case Start(_, readable, saved) =>
      && !s.service.running && readable && saved
      && exists j <- s.service.disk :: j.id == id && j.schedule == schedule && j.enabled
    case _ => false
  }

  /** The job at `k` has just been planned by its schedule. */
  ghost predicate PlannedNow(s: Service, k: int, id: string, schedule: Schedule, now: int, tick: Tick) {
    && s.running && 0 <= k < |s.jobs| && s.jobs[k].id == id && s.jobs[k].enabled
    && s.jobs[k].next == ComputeNextRun(schedule, now, tick)
  }

  lemma FirstWithId(jobs: seq<Job>, k: nat)
    requires UniqueIds(jobs) && k < |jobs|
    ensures Find(jobs, jobs[k].id) == k
  {
    FindFirst(jobs, jobs[k].id);
  }

  lemma ReplannedNow(s: System, step: Step, id: string, schedule: Schedule, tick: Tick) returns (k: int)
    requires Inv(s) && CanStep(s, step) && Replans(s, step, id, schedule)
    ensures PlannedNow(Do(s, step, tick).service, k, id, schedule, step.now, tick)
    ensures Do(s, step, tick).dispatched == s.dispatched
  {
    if step.AddJob? {
      k := |s.service.jobs|;
    } else if step.Start? {
      k :| 0 <= k < |s.service.disk| && s.service.disk[k].id == id && s.service.disk[k].schedule == schedule
           && s.service.disk[k].enabled;
    } else {
      k :| 0 <= k < |s.service.jobs| && s.service.jobs[k].id == id && s.service.jobs[k].schedule == schedule
           && (step.End? ==> s.service.jobs[k].enabled);
      FirstWithId(s.service.jobs, k);
    }
  }

  /** In a running service the job is off, or has no planned run, or is not there. */
  ghost predicate Dormant(s: Service, id: string) {
    s.running && forall j <- s.jobs | j.id == id :: !j.enabled || j.next == None
  }

  lemma PlannedAwaits(s: Service, k: nat, id: string, schedule: Schedule, now: int, tick: Tick)
    requires UniqueIds(s.jobs) && PlannedNow(s, k, id, schedule, now, tick)
    ensures forall t | RunsNext(schedule, now, tick, t) :: Awaits(s, id, t)
    ensures (forall t :: !RunsNext(schedule, now, tick, t)) ==> Dormant(s, id)
  {
    var next := ComputeNextRun(schedule, now, tick);
    forall t | RunsNext(schedule, now, tick, t)
      ensures Awaits(s, id, t)
    {
      ComputesNextRun(schedule, now, tick, t);
      assert s.jobs[k] in s.jobs;
    }
    if next.Some? {
      ComputesNextRun(schedule, now, tick, next.value);
    }
  }

  lemma ReplannedAwaits(s: System, step: Step, id: string, schedule: Schedule, tick: Tick)
    requires Inv(s) && TicksAhead(tick) && CanStep(s, step) && Replans(s, step, id, schedule)
    ensures var r := Do(s, step, tick);
            && Inv(r) && id in r.born && r.dispatched == s.dispatched
            && (forall t | RunsNext(schedule, step.now, tick, t) :: Awaits(r.service, id, t))
            && ((forall t :: !RunsNext(schedule, step.now, tick, t)) ==> Dormant(r.service, id))
  {
    StepKeepsInv(s, step, tick);
    var k := ReplannedNow(s, step, id, schedule, tick);
    PlannedAwaits(Do(s, step, tick).service, k, id, schedule, step.now, tick);
    assert Do(s, step, tick).service.jobs[k] in Do(s, step, tick).service.jobs;
  }

  /**
   * A job that was added, switched on, run or found in the file at a start, and is then left alone, is
   * next dispatched by the first check at or after the time its schedule asks for.
   */
  lemma ReplannedIsDispatched(s: System, step: Step, steps: seq<Step>, id: string, schedule: Schedule, t: int,
                              tick: Tick)
    requires Inv(s) && TicksAhead(tick) && CanStep(s, step) && Replans(s, step, id, schedule)
    requires RunsNext(schedule, step.now, tick, t)
    requires CanRun(Do(s, step, tick), steps, tick) && Undisturbed(Do(s, step, tick), steps, id, t, tick)
    ensures var before := TimesOf(s.dispatched, id);
            var after := TimesOf(Run(Do(s, step, tick), steps, tick).dispatched, id);
            match FirstCheck(steps, t)
            case Some(time) => before + [time] <= after
            case None => after == before
  {
    ReplannedAwaits(s, step, id, schedule, tick);
    NextDispatch(Do(s, step, tick), steps, id, t, tick);
  }

  /** So a cron job runs at the first check at or after the next tick of its expression. */
  lemma CronJobIsDispatched(s: System, step: Step, steps: seq<Step>, id: string, schedule: Schedule, t: int,
                            tick: Tick)
    requires Inv(s) && TicksAhead(tick) && CanStep(s, step) && Replans(s, step, id, schedule)
    requires schedule.kind == "cron" && schedule.expr != "" && tick(schedule.expr, step.now) == Some(t)
    requires CanRun(Do(s, step, tick), steps, tick) && Undisturbed(Do(s, step, tick), steps, id, t, tick)
    ensures var before := TimesOf(s.dispatched, id);
            var after := TimesOf(Run(Do(s, step, tick), steps, tick).dispatched, id);
            match FirstCheck(steps, t)
            case Some(time) => before + [time] <= after
            case None => after == before
  {
    ReplannedIsDispatched(s, step, steps, id, schedule, t, tick);
  }

  // ----- jobs without a planned run

  /** No step touches the job's plan. */
  ghost predicate LeftAlone(s: System, steps: seq<Step>, id: string, tick: Tick)
    requires CanRun(s, steps, tick)
    decreases |steps|
  {
    steps == [] || (LeavesAlone(s, steps[0], id) && LeftAlone(Do(s, steps[0], tick), steps[1..], id, tick))
  }

  lemma DormantCollect(s: System, step: Step, id: string, tick: Tick)
    requires Dormant(s.service, id) && CanStep(s, step) && step.Collect?
    ensures var r := Do(s, step, tick);
            Dormant(r.service, id) && TimesOf(r.dispatched, id) == TimesOf(s.dispatched, id)
  {
    var ids := DueIds(s.service.jobs, step.now);
    DueIdsShape(s.service.jobs, step.now);
    TimesOfConcat(s.dispatched, Events(ids, step.now), id);
    assert id !in ids;
    NotDispatched(Events(ids, step.now), id);
    forall j <- Do(s, step, tick).service.jobs | j.id == id
      ensures !j.enabled || j.next == None
    {
      var k :| 0 <= k < |s.service.jobs| && j == ClearNext(s.service.jobs, set i <- ids)[k];
      assert s.service.jobs[k] in s.service.jobs;
    }
  }

  lemma DormantUpdate(s: Service, i: nat, j: Job, id: string, saved: bool)
    requires Dormant(s, id) && i < |s.jobs| && j.id != id
    ensures Dormant(Store(s, s.jobs[i := j], saved), id)
  {
    forall k <- s.jobs[i := j] | k.id == id
      ensures !k.enabled || k.next == None
    {
      assert k in s.jobs;
    }
  }

  lemma DormantWithout(s: Service, other: string, id: string, saved: bool)
    requires Dormant(s, id)
    ensures var jobs := Without(s.jobs, other); Dormant(Store(s, jobs, saved), id) && Dormant(s.(jobs := jobs), id)
  {
    WithoutKeeps(s.jobs, other);
  }

  lemma DormantStep(s: System, step: Step, id: string, tick: Tick)
    requires Dormant(s.service, id) && id in s.born && CanStep(s, step) && LeavesAlone(s, step, id)
    ensures var r := Do(s, step, tick);
            && Dormant(r.service, id) && id in r.born
            && TimesOf(r.dispatched, id) == TimesOf(s.dispatched, id)
  {
    match step
    case EnableJob(other, on, now, saved) =>
      var i := Find(s.service.jobs, other);
      if i < |s.service.jobs| {
        DormantUpdate(s.service, i, Switched(s.service.jobs[i], on, now, tick), id, saved);
      }
    case Collect(_, _, _) => DormantCollect(s, step, id, tick);
    case RemoveJob(other, saved) => DormantWithout(s.service, other, id, saved);
    case End(w, now, outcome, saved) =>
      var e := s.workers[w].current.value;
      var i := Find(s.service.jobs, e.id);
      DormantWithout(s.service, e.id, id, saved);
      if i < |s.service.jobs| {
        DormantUpdate(s.service, i, Ran(s.service.jobs[i], e.time, now, outcome, tick), id, saved);
      }
    case _ =>
  }

  lemma {:induction false} StaysDormant(s: System, steps: seq<Step>, id: string, tick: Tick)
    requires Dormant(s.service, id) && id in s.born && CanRun(s, steps, tick) && LeftAlone(s, steps, id, tick)
    ensures TimesOf(Run(s, steps, tick).dispatched, id) == TimesOf(s.dispatched, id)
    decreases |steps|
  {
    if steps != [] {
      DormantStep(s, steps[0], id, tick);
      StaysDormant(Do(s, steps[0], tick), steps[1..], id, tick);
    }
  }

  /** A job whose schedule asks for no further run is not dispatched, as long as it is left alone. */
  lemma UnplannedIsNotDispatched(s: System, step: Step, steps: seq<Step>, id: string, schedule: Schedule, tick: Tick)
    requires Inv(s) && TicksAhead(tick) && CanStep(s, step) && Replans(s, step, id, schedule)
    requires forall t :: !RunsNext(schedule, step.now, tick, t)
    requires CanRun(Do(s, step, tick), steps, tick) && LeftAlone(Do(s, step, tick), steps, id, tick)
    ensures TimesOf(Run(Do(s, step, tick), steps, tick).dispatched, id) == TimesOf(s.dispatched, id)
  {
    ReplannedAwaits(s, step, id, schedule, tick);
    StaysDormant(Do(s, step, tick), steps, id, tick);
  }

  /** So a cron job without an expression, or with one that has no next tick, is not dispatched. */
  lemma TicklessIsNotDispatched(s: System, step: Step, steps: seq<Step>, id: string, schedule: Schedule, tick: Tick)
    requires Inv(s) && TicksAhead(tick) && CanStep(s, step) && Replans(s, step, id, schedule)
    requires schedule.kind == "cron" && (schedule.expr == "" || tick(schedule.expr, step.now) == None)
    requires CanRun(Do(s, step, tick), steps, tick) && LeftAlone(Do(s, step, tick), steps, id, tick)
    ensures TimesOf(Run(Do(s, step, tick), steps, tick).dispatched, id) == TimesOf(s.dispatched, id)
  {
    UnplannedIsNotDispatched(s, step, steps, id, schedule, tick);
  }

  /** Steps that take a job's plan away: switching off, removing, the end of an "at" job's run, losing the file. */
  ghost predicate Silences(s: System, step: Step, id: string)
    requires CanStep(s, step)
  {
    match step
    case EnableJob(other, on, _, _) => other == id && !on
    case RemoveJob(other, _) => other == id
    case End(w, _, _, _) =>
      s.workers[w].current.value.id == id && forall j <- s.service.jobs | j.id == id :: j.schedule.kind == "at"
    case Load(readable) => !readable
    case _ => false
  }

  lemma SilencedDormant(s: System, step: Step, id: string, tick: Tick)
    requires Inv(s) && s.service.running && CanStep(s, step) && Silences(s, step, id)
    ensures Dormant(Do(s, step, tick).service, id) && Do(s, step, tick).dispatched == s.dispatched
  {
    FindFirst(s.service.jobs, id);
    WithoutKeeps(s.service.jobs, id);
    var i := Find(s.service.jobs, id);
    if i < |s.service.jobs| && !step.RemoveJob? && !step.Load? {
      assert s.service.jobs[i] in s.service.jobs;
      forall j <- Do(s, step, tick).service.jobs | j.id == id
        ensures !j.enabled || j.next == None
      {
        var k :| 0 <= k < |Do(s, step, tick).service.jobs| && Do(s, step, tick).service.jobs[k] == j;
      }
    }
  }

  /** A job that was switched off, removed, or had its one run is not dispatched, as long as it is left alone. */
  lemma SilencedIsNotDispatched(s: System, step: Step, steps: seq<Step>, id: string, tick: Tick)
    requires Inv(s) && s.service.running && id in s.born && CanStep(s, step) && Silences(s, step, id)
    requires CanRun(Do(s, step, tick), steps, tick) && LeftAlone(Do(s, step, tick), steps, id, tick)
    ensures TimesOf(Run(Do(s, step, tick), steps, tick).dispatched, id) == TimesOf(s.dispatched, id)
  {
    SilencedDormant(s, step, id, tick);
    StaysDormant(Do(s, step, tick), steps, id, tick);
  }

  // ----- what the calls leave in the store

  lemma WithoutLast(front: seq<Job>, last: Job, id: string)
    ensures Without(front + [last], id) == if last.id != id then Without(front, id) + [last] else Without(front, id)
  {
    assert (front + [last])[..|front|] == front;
  }

  lemma {:induction false} WithoutNone(jobs: seq<Job>, id: string)
    requires forall j <- jobs :: j.id != id
    ensures Without(jobs, id) == jobs
  {
    if jobs != [] {
      var front, last := jobs[..|jobs| - 1], jobs[|jobs| - 1];
      assert jobs == front + [last];
      WithoutNone(front, id);
      WithoutLast(front, last, id);
    }
  }

  lemma {:induction false} WithoutAround(a: seq<Job>, j: Job, b: seq<Job>)
    requires (forall k <- a :: k.id != j.id) && forall k <- b :: k.id != j.id
    ensures Without(a + [j] + b, j.id) == a + b
    decreases |b|
  {
    if b == [] {
      WithoutNone(a, j.id);
      WithoutLast(a, j, j.id);
      assert a + [j] + [] == a + [j] && a + [] == a;
    } else {
      var front, last := b[..|b| - 1], b[|b| - 1];
      assert last in b && b == front + [last];
      WithoutAround(a, j, front);
      WithoutLast(a + [j] + front, last, j.id);
      assert a + [j] + b == a + [j] + front + [last];
      assert a + b == a + front + [last];
    }
  }

  /** Removing takes out the job with the id; the others stay in their order. */
  lemma WithoutShape(jobs: seq<Job>, i: nat)
    requires UniqueIds(jobs) && i < |jobs|
    ensures Without(jobs, jobs[i].id) == jobs[..i] + jobs[i + 1..]
  {
    WithoutAround(jobs[..i], jobs[i], jobs[i + 1..]);
    assert jobs == jobs[..i] + [jobs[i]] + jobs[i + 1..];
  }

  /** A new job is on, has not run, and is to be deleted after its run if it is an "at" job. */
  lemma AddedShape(s: Service, id: string, schedule: Schedule, now: int, tick: Tick, saved: bool)
    ensures var r := Added(s, id, schedule, now, tick, saved);
            && |r.jobs| == |s.jobs| + 1 && r.running == s.running && r.disk == (if saved then r.jobs else s.disk)
            && var j := r.jobs[|s.jobs|];
               && r.jobs == s.jobs + [Job(id, true, schedule, j.next, None, Never, now, now, schedule.kind == "at")]
               && forall t :: j.next == Some(t) <==> RunsNext(schedule, now, tick, t)
  {
    forall t
      ensures ComputeNextRun(schedule, now, tick) == Some(t) <==> RunsNext(schedule, now, tick, t)
    {
      ComputesNextRun(schedule, now, tick, t);
    }
  }

  /** Switching a job changes whether it is on, when it was updated, and its planned run. */
  lemma EnabledShape(s: Service, i: nat, on: bool, now: int, tick: Tick, saved: bool)
    requires UniqueIds(s.jobs) && i < |s.jobs|
    ensures var r := Enabled(s, s.jobs[i].id, on, now, tick, saved);
            && |r.jobs| == |s.jobs| && r.running == s.running && r.disk == (if saved then r.jobs else s.disk)
            && var next := r.jobs[i].next;
               && r.jobs == s.jobs[i := s.jobs[i].(enabled := on, updated := now, next := next)]
               && forall t :: next == Some(t) <==> on && RunsNext(s.jobs[i].schedule, now, tick, t)
  {
    FirstWithId(s.jobs, i);
    forall t
      ensures ComputeNextRun(s.jobs[i].schedule, now, tick) == Some(t) <==> RunsNext(s.jobs[i].schedule, now, tick, t)
    {
      ComputesNextRun(s.jobs[i].schedule, now, tick, t);
    }
  }

  /** When a run has ended, an "at" job is removed if it is marked for that; any other job keeps the outcome. */
  lemma FinishedShape(s: Service, i: nat, started: int, now: int, outcome: Status, tick: Tick, saved: bool)
    requires UniqueIds(s.jobs) && i < |s.jobs|
    ensures var j, r := s.jobs[i], Finished(s, s.jobs[i].id, started, now, outcome, tick, saved);
            && r.running == s.running && r.disk == (if saved then r.jobs else s.disk)
            && if j.schedule.kind == "at" && j.deleteAfterRun then r.jobs == s.jobs[..i] + s.jobs[i + 1..]
               else
                 && |r.jobs| == |s.jobs|
                 && var on, next := r.jobs[i].enabled, r.jobs[i].next;
                    && r.jobs == s.jobs[i := j.(last := Some(started), status := outcome, updated := now,
                                                enabled := on, next := next)]
                    && (on <==> j.enabled && j.schedule.kind != "at")
                    && forall t :: next == Some(t) <==> j.schedule.kind != "at" && RunsNext(j.schedule, now, tick, t)
  {
    FirstWithId(s.jobs, i);
    WithoutShape(s.jobs, i);
    forall t
      ensures ComputeNextRun(s.jobs[i].schedule, now, tick) == Some(t) <==> RunsNext(s.jobs[i].schedule, now, tick, t)
    {
      ComputesNextRun(s.jobs[i].schedule, now, tick, t);
    }
  }

  /** A start takes the jobs from the file and plans those that are on; it runs only if reading and saving succeed. */
  lemma StartedShape(s: Service, now: int, tick: Tick, readable: bool, saved: bool)
    requires !s.running
    ensures var r := Started(s, now, tick, readable, saved);
            && (r.running <==> readable && saved) && (!readable ==> r.jobs == [])
            && r.disk == (if readable && saved then r.jobs else s.disk)
            && (readable ==>
                  && |r.jobs| == |s.disk|
                  && forall i | 0 <= i < |s.disk| ::
                    && r.jobs[i] == s.disk[i].(next := r.jobs[i].next)
                    && if s.disk[i].enabled then
                         forall t :: r.jobs[i].next == Some(t) <==> RunsNext(s.disk[i].schedule, now, tick, t)
                       else r.jobs[i] == s.disk[i])
  {
    forall i, t | readable && 0 <= i < |s.disk| && s.disk[i].enabled
      ensures ComputeNextRun(s.disk[i].schedule, now, tick) == Some(t) <==> RunsNext(s.disk[i].schedule, now, tick, t)
    {
      ComputesNextRun(s.disk[i].schedule, now, tick, t);
    }
  }

  /** Calls for a job that is not there change nothing, and write no file. */
  lemma UnknownJob(s: Service, id: string, on: bool, started: int, now: int, outcome: Status, tick: Tick, saved: bool)
    requires forall j <- s.jobs :: j.id != id
    ensures Removed(s, id, saved) == Enabled(s, id, on, now, tick, saved) == s
    ensures Finished(s, id, started, now, outcome, tick, saved) == s
  {
    WithoutNone(s.jobs, id);
    assert Find(s.jobs, id) == |s.jobs|;
  }

  /** A job's last run is when its handler was called, not when it returned. */
  lemma EndShape(s: System, end: Step, tick: Tick, i: nat)
    requires Inv(s) && CanStep(s, end) && end.End? && i < |s.service.jobs|
    requires s.service.jobs[i].id == s.workers[end.w].current.value.id
    requires s.service.jobs[i].schedule.kind == "at" ==> !s.service.jobs[i].deleteAfterRun
    ensures var jobs := Do(s, end, tick).service.jobs;
            && |jobs| == |s.service.jobs| && jobs[i].status == end.outcome
            && jobs[i].last == Some(s.workers[end.w].current.value.time)
  {
    FinishedShape(s.service, i, s.workers[end.w].current.value.time, end.now, end.outcome, tick, end.saved);
  }

  /** What a goroutine runs has been begun. */
  ghost predicate RunningIsBegun(s: System) {
    forall w <- s.workers | w.current.Some? :: w.current.value in s.begun
  }

  lemma StepKeepsRunning(s: System, step: Step, tick: Tick)
    requires RunningIsBegun(s) && CanStep(s, step)
    ensures RunningIsBegun(Do(s, step, tick))
  {
    var t := Do(s, step, tick);
    forall i | 0 <= i < |t.workers| && t.workers[i].current.Some?
      ensures t.workers[i].current.value in t.begun
    {
      if i < |s.workers| && t.workers[i].current == s.workers[i].current {
        assert s.workers[i] in s.workers;
      }
    }
  }

  // ----- the file

  /** If the step reads the file, it can be read. */
  predicate Reads(step: Step) {
    match step
    case Load(readable) => readable
    case Start(_, readable, _) => readable
    case _ => true
  }

  lemma StepInFile(s: System, step: Step, tick: Tick)
    requires CanStep(s, step) && Saves(step) && Reads(step) && s.service.disk == s.service.jobs
    ensures Do(s, step, tick).service.disk == Do(s, step, tick).service.jobs
  {
    if step.RemoveJob? {
      WithoutAll(s.service.jobs, step.id);
    }
  }

  /** If removing leaves as many jobs as before, there was none with the id. */
  lemma WithoutAll(jobs: seq<Job>, id: string)
    ensures |Without(jobs, id)| <= |jobs|
    ensures |Without(jobs, id)| == |jobs| ==> Without(jobs, id) == jobs
  {
    if i :| 0 <= i < |jobs| && jobs[i].id == id {
      WithoutShorter(jobs, i);
    } else {
      WithoutNone(jobs, id);
    }
  }

  /** When no reading and no save fails, the file always holds the jobs, so that none is lost in a restart. */
  lemma {:induction false} JobsInFile(s: System, steps: seq<Step>, tick: Tick)
    requires CanRun(s, steps, tick) && s.service.disk == s.service.jobs
    requires forall step <- steps :: Saves(step) && Reads(step)
    ensures Run(s, steps, tick).service.disk == Run(s, steps, tick).service.jobs
    decreases |steps|
  {
    if steps != [] {
      assert steps[0] in steps;
      StepInFile(s, steps[0], tick);
      JobsInFile(Do(s, steps[0], tick), steps[1..], tick);
    }
  }
}
