/**
 * Planned runs are not lost: a job that is left alone is dispatched by the first check at or after its
 * planned time, and by none before.
 */
module CronProgress {
  import opened Text
  import opened Cron
  import opened CronRuns

  ghost predicate Awaits(s: Service, id: string, t: int) {
    s.running && exists j :: j in s.jobs && j.id == id && j.enabled && j.next == Some(t)
  }

  /** Steps that leave the plan of a job as it is: calls for other jobs, and reading a file that is up to date. */
  predicate LeavesAlone(s: System, step: Step, id: string)
    requires CanStep(s, step)
  {
    match step
    case EnableJob(other, _, _, _) => other != id
    case RemoveJob(other, _) => other != id
    case End(w, _, _, _) => s.workers[w].current.value.id != id
    case Stop => false
    case Load(readable) => readable && s.service.disk == s.service.jobs
    case _ => true
  }

  predicate IsCheck(step: Step, t: int) {
    step.Collect? && t <= step.now
  }

  /** The time of the first check at or after `t`. */
  function FirstCheck(steps: seq<Step>, t: int): Option<int> {
    if steps == [] then None
    else if IsCheck(steps[0], t) then Some(steps[0].now)
    else FirstCheck(steps[1..], t)
  }

  /** The job is left alone up to that check; afterwards anything may happen to it. */
  ghost predicate Undisturbed(s: System, steps: seq<Step>, id: string, t: int, tick: Tick)
    requires CanRun(s, steps, tick)
    decreases |steps|
  {
    steps == [] ||
    (LeavesAlone(s, steps[0], id) &&
     (IsCheck(steps[0], t) || Undisturbed(Do(s, steps[0], tick), steps[1..], id, t, tick)))
  }

  /** The times at which a job was dispatched. */
  function TimesOf(events: seq<Event>, id: string): seq<int> {
    if events == [] then []
    else
      var last := events[|events| - 1];
      TimesOf(events[..|events| - 1], id) + if last.id == id then [last.time] else []
  }

  lemma {:induction false} TimesOfConcat(a: seq<Event>, b: seq<Event>, id: string)
    ensures TimesOf(a + b, id) == TimesOf(a, id) + TimesOf(b, id)
    decreases |b|
  {
    if b == [] {
      assert a + b == a;
    } else {
      var front := b[..|b| - 1];
      TimesOfConcat(a, front, id);
      assert (a + b)[..|a + b| - 1] == a + front;
    }
  }

  lemma {:induction false} TimesOfEvents(ids: seq<string>, now: int, id: string)
    requires forall i, k | 0 <= i < k < |ids| :: ids[i] != ids[k]
    ensures TimesOf(Events(ids, now), id) == if id in ids then [now] else []
  {
    if ids != [] {
      var front, last := ids[..|ids| - 1], ids[|ids| - 1];
      TimesOfEvents(front, now, id);
      assert Events(ids, now) == Events(front, now) + Events([last], now);
      TimesOfConcat(Events(front, now), Events([last], now), id);
      assert last !in front;
      assert id in ids <==> id in front || id == last;
    }
  }

  lemma CheckDispatches(s: Service, id: string, t: int, now: int)
    requires UniqueIds(s.jobs) && Awaits(s, id, t)
    ensures id in DueIds(s.jobs, now) <==> t <= now
  {
    DueIdsShape(s.jobs, now);
    var j :| j in s.jobs && j.id == id && j.enabled && j.next == Some(t);
    if t <= now {
      assert IsDue(j, now);
    }
  }

  lemma ClearedKeepsPlan(s: Service, id: string, t: int, ids: set<string>, saved: bool)
    requires Awaits(s, id, t) && id !in ids
    ensures Awaits(Store(s, ClearNext(s.jobs, ids), saved), id, t)
  {
    var k :| 0 <= k < |s.jobs| && s.jobs[k].id == id && s.jobs[k].enabled && s.jobs[k].next == Some(t);
    assert ClearNext(s.jobs, ids)[k] == s.jobs[k];
  }

  /** A check dispatches a waiting job exactly once if its time has come, and otherwise leaves it waiting. */
  lemma CollectStep(s: System, step: Step, id: string, t: int, tick: Tick)
    requires Inv(s) && Awaits(s.service, id, t) && step.Collect? && CanStep(s, step)
    ensures var r := Do(s, step, tick);
            if t <= step.now then TimesOf(r.dispatched, id) == TimesOf(s.dispatched, id) + [step.now]
            else TimesOf(r.dispatched, id) == TimesOf(s.dispatched, id) && Awaits(r.service, id, t)
  {
    var ids := DueIds(s.service.jobs, step.now);
    CheckDispatches(s.service, id, t, step.now);
    DueIdsShape(s.service.jobs, step.now);
    TimesOfEvents(ids, step.now, id);
    TimesOfConcat(s.dispatched, Events(ids, step.now), id);
    if step.now < t {
      ClearedKeepsPlan(s.service, id, t, (set i <- ids), step.saved);
    }
  }

  lemma UpdateKeepsPlan(s: Service, i: nat, j: Job, id: string, t: int, saved: bool)
    requires Awaits(s, id, t) && i < |s.jobs| && s.jobs[i].id != id
    ensures Awaits(Store(s, s.jobs[i := j], saved), id, t)
  {
    var k :| 0 <= k < |s.jobs| && s.jobs[k].id == id && s.jobs[k].enabled && s.jobs[k].next == Some(t);
    assert s.jobs[i := j][k] == s.jobs[k];
  }

  lemma WithoutKeepsPlan(s: Service, jobs: seq<Job>, other: string, id: string, t: int, saved: bool)
    requires Awaits(s, id, t) && other != id && jobs == Without(s.jobs, other)
    ensures Awaits(Store(s, jobs, saved), id, t) && Awaits(s.(jobs := jobs), id, t)
  {
    WithoutKeeps(s.jobs, other);
  }

  /** Every other step that leaves the job alone leaves its plan as it is. */
  lemma OtherStep(s: System, step: Step, id: string, t: int, tick: Tick)
    requires Inv(s) && Awaits(s.service, id, t) && CanStep(s, step) && !step.Collect? && LeavesAlone(s, step, id)
    ensures var r := Do(s, step, tick); r.dispatched == s.dispatched && Awaits(r.service, id, t)
  {
    match step
    case EnableJob(other, on, now, saved) =>
      var i := Find(s.service.jobs, other);
      if i < |s.service.jobs| {
        UpdateKeepsPlan(s.service, i, Switched(s.service.jobs[i], on, now, tick), id, t, saved);
      }
    case RemoveJob(other, saved) =>
      WithoutKeepsPlan(s.service, Without(s.service.jobs, other), other, id, t, saved);
    case End(w, now, outcome, saved) =>
      var job := s.workers[w].current.value;
      var i := Find(s.service.jobs, job.id);
      if i < |s.service.jobs| {
        WithoutKeepsPlan(s.service, Without(s.service.jobs, job.id), job.id, id, t, saved);
        UpdateKeepsPlan(s.service, i, Ran(s.service.jobs[i], job.time, now, outcome, tick), id, t, saved);
      }
    case _ =>
  }

  /** What has been dispatched stays in the history. */
  lemma {:induction false} DispatchedStays(s: System, steps: seq<Step>, id: string, tick: Tick)
    requires CanRun(s, steps, tick)
    ensures TimesOf(s.dispatched, id) <= TimesOf(Run(s, steps, tick).dispatched, id)
    decreases |steps|
  {
    if steps != [] {
      var r := Do(s, steps[0], tick);
      if steps[0].Collect? {
        TimesOfConcat(s.dispatched, Events(Collected(s.service, steps[0].now), steps[0].now), id);
      }
      DispatchedStays(r, steps[1..], id, tick);
    }
  }

  /**
   * A job that is left alone is next dispatched by the first check at or after its planned time. If there
   * is none, it has not been dispatched and is still waiting.
   */
  lemma {:induction false} NextDispatch(s: System, steps: seq<Step>, id: string, t: int, tick: Tick)
    requires Inv(s) && TicksAhead(tick) && Awaits(s.service, id, t) && CanRun(s, steps, tick)
    requires Undisturbed(s, steps, id, t, tick)
    ensures var before, after := TimesOf(s.dispatched, id), TimesOf(Run(s, steps, tick).dispatched, id);
            match FirstCheck(steps, t)
            case Some(time) => before + [time] <= after
            case None => after == before && Awaits(Run(s, steps, tick).service, id, t)
    decreases |steps|
  {
    if steps != [] {
      var r := Do(s, steps[0], tick);
      assert LoadsSafely(s, steps[0], s.dispatched);
      StepKeepsInv(s, steps[0], tick);
      if steps[0].Collect? {
        CollectStep(s, steps[0], id, t, tick);
      } else {
        OtherStep(s, steps[0], id, t, tick);
      }
      if IsCheck(steps[0], t) {
        DispatchedStays(r, steps[1..], id, tick);
      } else {
        NextDispatch(r, steps[1..], id, t, tick);
      }
    }
  }

  // ----- jobs added to a running service

  lemma {:induction false} NotDispatched(events: seq<Event>, id: string)
    requires forall e <- events :: e.id != id
    ensures TimesOf(events, id) == []
  {
    if events != [] {
      NotDispatched(events[..|events| - 1], id);
    }
  }

  /** Adding a job to a running service makes it wait for its first run. */
  lemma AddedAwaits(s: System, step: Step, tick: Tick)
    requires Inv(s) && s.service.running && step.AddJob? && CanStep(s, step) && TicksAhead(tick)
    ensures var next, r := ComputeNextRun(step.schedule, step.now, tick), Do(s, step, tick);
            Inv(r) && TimesOf(r.dispatched, step.id) == [] && r.born[step.id] == step.schedule
            && (next.Some? ==> Awaits(r.service, step.id, next.value))
  {
    StepKeepsInv(s, step, tick);
    NotDispatched(s.dispatched, step.id);
    var jobs := Do(s, step, tick).service.jobs;
    assert jobs[|s.service.jobs|] == NewJob(step.id, step.schedule, step.now, tick);
  }

  predicate IsEvery(schedule: Schedule) {
    schedule.kind == "every" && schedule.everyMS.Some? && schedule.everyMS.value > 0
  }

  /** An "every" job that is left alone runs first at the first check an interval after it was added. */
  lemma EveryJobStarts(s: System, add: Step, steps: seq<Step>, tick: Tick)
    requires Inv(s) && s.service.running && TicksAhead(tick)
    requires add.AddJob? && IsEvery(add.schedule)
    requires CanStep(s, add) && CanRun(Do(s, add, tick), steps, tick)
    requires Undisturbed(Do(s, add, tick), steps, add.id, add.now + add.schedule.everyMS.value, tick)
    ensures var times := TimesOf(Run(Do(s, add, tick), steps, tick).dispatched, add.id);
            match FirstCheck(steps, add.now + add.schedule.everyMS.value)
            case Some(time) => times != [] && times[0] == time
            case None => times == []
  {
    AddedAwaits(s, add, tick);
    NextDispatch(Do(s, add, tick), steps, add.id, add.now + add.schedule.everyMS.value, tick);
  }

  // ----- jobs that go on

  lemma UpdatedAwaits(s: Service, i: nat, j: Job, saved: bool)
    requires s.running && i < |s.jobs| && j.enabled && j.next.Some?
    ensures Awaits(Store(s, s.jobs[i := j], saved), j.id, j.next.value)
  {
    assert s.jobs[i := j][i] == j;
  }

  /** When its handler has returned, an enabled "every" job waits for one more interval. */
  lemma EndAwaits(s: System, end: Step, tick: Tick, i: nat)
    requires Inv(s) && s.service.running && end.End? && CanStep(s, end) && i < |s.service.jobs|
    requires s.service.jobs[i].id == s.workers[end.w].current.value.id
    requires s.service.jobs[i].enabled && IsEvery(s.service.jobs[i].schedule)
    ensures var j := s.service.jobs[i];
            Awaits(Do(s, end, tick).service, j.id, end.now + j.schedule.everyMS.value)
  {
    var e := s.workers[end.w].current.value;
    FindFirst(s.service.jobs, e.id);
    assert Find(s.service.jobs, e.id) == i;
    UpdatedAwaits(s.service, i, Ran(s.service.jobs[i], e.time, end.now, end.outcome, tick), end.saved);
  }

  /**
   * An "every" job that is left alone after its handler returned is next dispatched by the first check an
   * interval later, and so goes on as long as it is left alone.
   */
  lemma EveryJobGoesOn(s: System, end: Step, steps: seq<Step>, tick: Tick, i: nat)
    requires Inv(s) && s.service.running && TicksAhead(tick) && end.End? && CanStep(s, end) && i < |s.service.jobs|
    requires s.service.jobs[i].id == s.workers[end.w].current.value.id
    requires s.service.jobs[i].enabled && IsEvery(s.service.jobs[i].schedule)
    requires CanRun(Do(s, end, tick), steps, tick)
    requires var j := s.service.jobs[i];
             Undisturbed(Do(s, end, tick), steps, j.id, end.now + j.schedule.everyMS.value, tick)
    ensures var j := s.service.jobs[i];
            var before := TimesOf(s.dispatched, j.id);
            var after := TimesOf(Run(Do(s, end, tick), steps, tick).dispatched, j.id);
            match FirstCheck(steps, end.now + j.schedule.everyMS.value)
            case Some(time) => before + [time] <= after
            case None => after == before
  {
    var j := s.service.jobs[i];
    StepKeepsInv(s, end, tick);
    EndAwaits(s, end, tick, i);
    NextDispatch(Do(s, end, tick), steps, j.id, end.now + j.schedule.everyMS.value, tick);
  }

  lemma {:induction false} OnceAtMost(events: seq<Event>, born: map<string, Schedule>, id: string)
    requires Separated(events, born) && id in born && born[id].kind == "at"
    ensures |TimesOf(events, id)| <= 1
    ensures TimesOf(events, id) == [] <==> forall e <- events :: e.id != id
  {
    if events != [] {
      var front, last := events[..|events| - 1], events[|events| - 1];
      assert events == front + [last];
      OnceAtMost(front, born, id);
    }
  }

  lemma {:induction false} BornStays(s: System, steps: seq<Step>, id: string, tick: Tick)
    requires CanRun(s, steps, tick) && id in s.born
    ensures id in Run(s, steps, tick).born && Run(s, steps, tick).born[id] == s.born[id]
    decreases |steps|
  {
    if steps != [] {
      BornStays(Do(s, steps[0], tick), steps[1..], id, tick);
    }
  }

  /**
   * An "at" job added for a later time, and left alone until then, is dispatched exactly once: by the
   * first check at or after that time, whatever happens afterwards.
   */
  lemma AtJobDispatchedOnce(s: System, add: Step, steps: seq<Step>, tick: Tick)
    requires Inv(s) && s.service.running && TicksAhead(tick)
    requires add.AddJob? && add.schedule.kind == "at" && add.schedule.atMS.Some? && add.now < add.schedule.atMS.value
    requires CanStep(s, add) && CanRun(Do(s, add, tick), steps, tick)
    requires SafeRun(Do(s, add, tick), steps, tick)
    requires Undisturbed(Do(s, add, tick), steps, add.id, add.schedule.atMS.value, tick)
    ensures TimesOf(Run(Do(s, add, tick), steps, tick).dispatched, add.id) ==
            match FirstCheck(steps, add.schedule.atMS.value)
            case Some(time) => [time]
            case None => []
  {
    var r := Do(s, add, tick);
    AddedAwaits(s, add, tick);
    NextDispatch(r, steps, add.id, add.schedule.atMS.value, tick);
    RunKeepsInv(r, steps, tick);
    BornStays(r, steps, add.id, tick);
    OnceAtMost(Run(r, steps, tick).dispatched, Run(r, steps, tick).born, add.id);
  }
}
