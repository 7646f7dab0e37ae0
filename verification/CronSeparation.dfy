/**
 * How far apart the handler calls of one job are. Between its dispatch and its call a job waits in its
 * goroutine's queue, and a restart can leave several goroutines with batches of their own.
 */
module CronSeparation {
  import opened Text
  import opened Cron
  import opened CronRuns

  ghost predicate SeparatedFor(events: seq<Event>, born: map<string, Schedule>, x: string) {
    forall i, k | 0 <= i < k < |events| && events[i].id == events[k].id == x ::
      x in born && Apart(born[x], events[i].time, events[k].time)
  }

  ghost predicate HistoryFor(events: seq<Event>, born: map<string, Schedule>, clock: int, x: string) {
    forall e <- events | e.id == x :: x in born && e.time <= clock && Spent(born[x], e.time)
  }

  /** All past events of the job allow one more at `now`. */
  ghost predicate Ready(events: seq<Event>, born: map<string, Schedule>, now: int, x: string) {
    x in born && Spent(born[x], now) && forall e <- events | e.id == x :: Apart(born[x], e.time, now)
  }

  predicate Runs(w: Worker, x: string) {
    w.current.Some? && w.current.value.id == x
  }

  /** A batch names a job once, and not while the goroutine already runs it. */
  ghost predicate OnceInBatch(w: Worker, x: string) {
    && (forall i, k | 0 <= i < k < |w.queue| :: !(w.queue[i] == w.queue[k] == x))
    && (x in w.queue ==> !Runs(w, x))
  }

  /** At most one goroutine has the job in its queue, and it may call the handler at any time. */
  ghost predicate SlotInv(s: System, x: string) {
    && Inv(s) && HistoryFor(s.begun, s.born, s.clock, x) && SeparatedFor(s.begun, s.born, x)
    && (forall w <- s.workers :: OnceInBatch(w, x))
    && (forall v, w | 0 <= v < w < |s.workers| :: x !in s.workers[v].queue || x !in s.workers[w].queue)
    && (forall w <- s.workers :: x in w.queue ==> Ready(s.begun, s.born, s.clock, x))
  }

  /** No goroutine has the job in its queue, and its past handler calls are far enough away. */
  ghost predicate Clear(s: System, now: int, x: string)
    requires x in s.born
  {
    (forall w <- s.workers :: x !in w.queue) && forall e <- s.begun | e.id == x :: Apart(s.born[x], e.time, now)
  }

  /** When the job is collected, the way is clear. */
  ghost predicate CollectsClear(s: System, step: Step, x: string) {
    step.Collect? && x in Collected(s.service, step.now) ==> x in s.born && Clear(s, step.now, x)
  }

  // ----- every step keeps the slot

  lemma ReadyLater(events: seq<Event>, born: map<string, Schedule>, now: int, later: int, x: string)
    requires Ready(events, born, now, x) && now <= later
    ensures Ready(events, born, later, x)
  {
    forall e <- events | e.id == x
      ensures Apart(born[x], e.time, later)
    {
      ApartLater(born[x], e.time, now, later);
    }
  }

  lemma ReadyAppend(events: seq<Event>, e: Event, born: map<string, Schedule>, clock: int, x: string)
    requires HistoryFor(events, born, clock, x) && SeparatedFor(events, born, x) && clock <= e.time
    requires e.id == x ==> Ready(events, born, e.time, x)
    ensures HistoryFor(events + [e], born, e.time, x) && SeparatedFor(events + [e], born, x)
  {
    var longer := events + [e];
    forall i, k | 0 <= i < k < |longer| && longer[i].id == longer[k].id == x
      ensures x in born && Apart(born[x], longer[i].time, longer[k].time)
    {
      assert longer[i] in events;
    }
  }

  /** The parts of the invariant about what was begun, when nothing is. */
  lemma BegunLater(s: System, t: System, x: string)
    requires SlotInv(s, x) && t.begun == s.begun && s.clock <= t.clock
    requires forall id | id in s.born :: id in t.born && t.born[id] == s.born[id]
    ensures HistoryFor(t.begun, t.born, t.clock, x) && SeparatedFor(t.begun, t.born, x)
    ensures Ready(s.begun, s.born, s.clock, x) ==> Ready(t.begun, t.born, t.clock, x)
  {
    if Ready(s.begun, s.born, s.clock, x) {
      ReadyLater(s.begun, s.born, s.clock, t.clock, x);
    }
  }

  /** Steps that change no queue. */
  lemma QuietKeepsSlot(s: System, step: Step, tick: Tick, x: string)
    requires SlotInv(s, x) && CanStep(s, step) && TicksAhead(tick) && LoadsSafely(s, step, s.dispatched)
    requires !step.Collect? && !step.Begin?
    ensures SlotInv(Do(s, step, tick), x)
  {
    var t := Do(s, step, tick);
    StepKeepsInv(s, step, tick);
    BegunLater(s, t, x);
    forall i | 0 <= i < |t.workers|
      ensures OnceInBatch(t.workers[i], x)
      ensures x in t.workers[i].queue ==> i < |s.workers| && x in s.workers[i].queue
    {
      assert i < |s.workers| ==> s.workers[i] in s.workers && OnceInBatch(s.workers[i], x);
    }
  }

  /** A batch is collected by an idle goroutine: its queue is the due jobs, each of them once. */
  lemma CollectKeepsSlot(s: System, step: Step, tick: Tick, x: string)
    requires SlotInv(s, x) && CanStep(s, step) && TicksAhead(tick) && step.Collect? && CollectsClear(s, step, x)
    ensures SlotInv(Do(s, step, tick), x)
  {
    var t := Do(s, step, tick);
    StepKeepsInv(s, step, tick);
    BegunLater(s, t, x);
    var ids := Collected(s.service, step.now);
    DueIdsShape(s.service.jobs, step.now);
    if x in ids {
      CollectedReady(s, step.now, x);
    }
    forall i | 0 <= i < |t.workers|
      ensures OnceInBatch(t.workers[i], x)
      ensures x in t.workers[i].queue ==> if i == step.w then x in ids else x in s.workers[i].queue
    {
      assert s.workers[i] in s.workers && OnceInBatch(s.workers[i], x);
    }
  }

  lemma CollectedReady(s: System, now: int, x: string)
    requires Inv(s) && x in Collected(s.service, now) && x in s.born && Clear(s, now, x)
    ensures Ready(s.begun, s.born, now, x)
  {
    DueIdsShape(s.service.jobs, now);
    var j :| j in s.service.jobs && j.id == x && IsDue(j, now);
    assert Fits(j);
  }

  lemma BeginKeepsSlot(s: System, step: Step, tick: Tick, x: string)
    requires SlotInv(s, x) && CanStep(s, step) && TicksAhead(tick) && step.Begin?
    ensures SlotInv(Do(s, step, tick), x)
  {
    var t := Do(s, step, tick);
    StepKeepsInv(s, step, tick);
    BegunLater(s, t.(begun := s.begun), x);
    var queue := s.workers[step.w].queue;
    var e := Event(queue[0], step.now);
    assert s.workers[step.w] in s.workers && OnceInBatch(s.workers[step.w], x);
    assert queue[0] in queue;
    if t.begun == s.begun + [e] {
      ReadyAppend(s.begun, e, s.born, s.clock, x);
    }
    forall i | 0 <= i < |t.workers|
      ensures OnceInBatch(t.workers[i], x)
      ensures x in t.workers[i].queue ==> x in s.workers[i].queue && !(i == step.w && queue[0] == x)
    {
      assert s.workers[i] in s.workers && OnceInBatch(s.workers[i], x);
    }
    if queue[0] != x {
      assert forall e' <- t.begun | e'.id == x :: e' in s.begun;
    }
  }

  lemma StepKeepsSlot(s: System, step: Step, tick: Tick, x: string)
    requires SlotInv(s, x) && CanStep(s, step) && TicksAhead(tick)
    requires LoadsSafely(s, step, s.dispatched) && CollectsClear(s, step, x)
    ensures SlotInv(Do(s, step, tick), x)
  {
    match step
    case Collect(_, _, _) => CollectKeepsSlot(s, step, tick, x);
    case Begin(_, _) => BeginKeepsSlot(s, step, tick, x);
    case _ => QuietKeepsSlot(s, step, tick, x);
  }

  ghost predicate ClearRun(s: System, steps: seq<Step>, tick: Tick, x: string)
    requires CanRun(s, steps, tick)
    decreases |steps|
  {
    steps == [] ||
    (LoadsSafely(s, steps[0], s.dispatched) && CollectsClear(s, steps[0], x)
     && ClearRun(Do(s, steps[0], tick), steps[1..], tick, x))
  }

  lemma {:induction false} ClearRunKeepsSlot(s: System, steps: seq<Step>, tick: Tick, x: string)
    requires SlotInv(s, x) && TicksAhead(tick) && CanRun(s, steps, tick) && ClearRun(s, steps, tick, x)
    ensures SlotInv(Run(s, steps, tick), x)
    decreases |steps|
  {
    if steps != [] {
      StepKeepsSlot(s, steps[0], tick, x);
      ClearRunKeepsSlot(Do(s, steps[0], tick), steps[1..], tick, x);
    }
  }

  // ----- exclusive batches

  ghost predicate RunsSomewhere(s: System, x: string) {
    exists w <- s.workers :: Runs(w, x)
  }

  /** While no goroutine runs the job, it is planned against its past handler calls. */
  ghost predicate PlanInv(s: System, x: string) {
    s.service.running && !RunsSomewhere(s, x) ==>
      forall j <- s.service.jobs | j.id == x :: Planned(j, s.begun, s.clock)
  }

  /**
   * The job is not collected while another goroutine still has it in its queue or runs it, and reading the
   * file does not bring back an old plan.
   */
  ghost predicate Exclusive(s: System, step: Step, x: string) {
    && (step.Collect? && x in Collected(s.service, step.now) ==> forall w <- s.workers :: x !in w.queue && !Runs(w, x))
    && LoadsSafely(s, step, s.dispatched)
    && (step.Load? && step.readable && s.service.running ==>
          forall j <- s.service.disk | j.id == x :: Planned(j, s.begun, s.clock))
  }

  lemma ExclusiveIsClear(s: System, step: Step, x: string)
    requires SlotInv(s, x) && PlanInv(s, x) && CanStep(s, step) && Exclusive(s, step, x)
    ensures CollectsClear(s, step, x)
  {
    if step.Collect? && x in Collected(s.service, step.now) {
      DueIdsShape(s.service.jobs, step.now);
      var j :| j in s.service.jobs && j.id == x && IsDue(j, step.now);
      DueApart(j, s.begun, s.clock, step.now);
    }
  }

  /** Jobs that are kept, or planned against the past handler calls, with the clock moved on. */
  lemma PlanKept(s: System, t: System, x: string)
    requires PlanInv(s, x) && s.clock <= t.clock && t.begun == s.begun
    requires t.service.running && !RunsSomewhere(t, x) ==> s.service.running && !RunsSomewhere(s, x)
    requires t.service.running && !RunsSomewhere(t, x) ==> forall j <- t.service.jobs | j.id == x ::
               j in s.service.jobs || Planned(j, t.begun, t.clock)
    ensures PlanInv(t, x)
  {
    if t.service.running && !RunsSomewhere(t, x) {
      forall j <- t.service.jobs | j.id == x
        ensures Planned(j, t.begun, t.clock)
      {
        if j in s.service.jobs {
          PlannedLater(j, s.begun, s.clock, t.clock);
        }
      }
    }
  }

  lemma FreshFor(s: System, j: Job, now: int, tick: Tick)
    requires HistoryFor(s.begun, s.born, s.clock, j.id) && s.clock <= now && TicksAhead(tick)
    requires j.id in s.born && j.schedule == s.born[j.id] && j.next == ComputeNextRun(j.schedule, now, tick)
    ensures Planned(j, s.begun, now)
  {
    PlannedFresh(j, s.begun, now, tick);
  }

  lemma QuietKeepsPlan(s: System, step: Step, tick: Tick, x: string)
    requires SlotInv(s, x) && PlanInv(s, x) && CanStep(s, step) && TicksAhead(tick) && Exclusive(s, step, x)
    requires step.AddJob? || step.RemoveJob? || step.EnableJob? || step.Stop? || step.Load?
    ensures PlanInv(Do(s, step, tick), x)
  {
    var t := Do(s, step, tick);
    assert RunsSomewhere(t, x) <==> RunsSomewhere(s, x);
    match step
    case AddJob(id, schedule, now, _) =>
      if id == x {
        PlannedFresh(NewJob(id, schedule, now, tick), s.begun, now, tick);
      }
      PlanKept(s, t, x);
    case RemoveJob(id, _) =>
      WithoutKeeps(s.service.jobs, id);
      PlanKept(s, t, x);
    case EnableJob(id, on, now, _) =>
      var i := Find(s.service.jobs, id);
      if i < |s.service.jobs| && on && id == x {
        assert s.service.jobs[i] in s.service.jobs;
        FreshFor(s, Switched(s.service.jobs[i], on, now, tick), now, tick);
      }
      PlanKept(s, t, x);
    case Load(_) =>
    case Stop =>
  }

  lemma StartKeepsPlan(s: System, step: Step, tick: Tick, x: string)
    requires SlotInv(s, x) && PlanInv(s, x) && CanStep(s, step) && TicksAhead(tick) && step.Start?
    ensures PlanInv(Do(s, step, tick), x)
  {
    var t := Do(s, step, tick);
    assert RunsSomewhere(s, x) ==> RunsSomewhere(t, x) by {
      assert forall w <- s.workers :: w in t.workers;
    }
    if s.service.running {
      PlanKept(s, t, x);
    } else if t.service.running {
      forall i | 0 <= i < |t.service.jobs| && t.service.jobs[i].id == x
        ensures Planned(t.service.jobs[i], t.begun, t.clock)
      {
        assert s.service.disk[i] in s.service.disk;
        if t.service.jobs[i].enabled {
          FreshFor(s, t.service.jobs[i], step.now, tick);
        }
      }
    }
  }

  lemma CollectKeepsPlan(s: System, step: Step, tick: Tick, x: string)
    requires SlotInv(s, x) && PlanInv(s, x) && CanStep(s, step) && step.Collect?
    ensures PlanInv(Do(s, step, tick), x)
  {
    var t := Do(s, step, tick);
    assert RunsSomewhere(s, x) ==> RunsSomewhere(t, x) by {
      forall i | 0 <= i < |s.workers| && Runs(s.workers[i], x)
        ensures t.workers[i] in t.workers && Runs(t.workers[i], x)
      {
      }
    }
    if s.service.running {
      forall i | 0 <= i < |t.service.jobs| && t.service.jobs[i].id == x
        ensures t.service.jobs[i] in s.service.jobs || Planned(t.service.jobs[i], t.begun, t.clock)
      {
        assert s.service.jobs[i] in s.service.jobs;
      }
    }
    PlanKept(s, t, x);
  }

  lemma BeginKeepsPlan(s: System, step: Step, tick: Tick, x: string)
    requires SlotInv(s, x) && PlanInv(s, x) && CanStep(s, step) && step.Begin?
    ensures PlanInv(Do(s, step, tick), x)
  {
    var t := Do(s, step, tick);
    var id := s.workers[step.w].queue[0];
    FindFirst(s.service.jobs, id);
    assert t.workers[step.w] in t.workers;
    assert RunsSomewhere(s, x) ==> RunsSomewhere(t, x) by {
      forall i | 0 <= i < |s.workers| && Runs(s.workers[i], x)
        ensures t.workers[i] in t.workers && Runs(t.workers[i], x)
      {
      }
    }
    if id != x {
      var quiet := t.(begun := s.begun);
      PlanKept(s, quiet, x);
      assert forall e <- t.begun | e.id == x :: e in s.begun;
    }
  }

  lemma EndKeepsPlan(s: System, step: Step, tick: Tick, x: string)
    requires SlotInv(s, x) && PlanInv(s, x) && CanStep(s, step) && TicksAhead(tick) && step.End?
    ensures PlanInv(Do(s, step, tick), x)
  {
    var t := Do(s, step, tick);
    var e := s.workers[step.w].current.value;
    WithoutKeeps(s.service.jobs, e.id);
    FindFirst(s.service.jobs, e.id);
    var i := Find(s.service.jobs, e.id);
    if e.id == x {
      forall j <- t.service.jobs | j.id == x
        ensures Planned(j, t.begun, t.clock)
      {
        assert i < |s.service.jobs| && s.service.jobs[i] in s.service.jobs;
        assert j == Ran(s.service.jobs[i], e.time, step.now, step.outcome, tick);
        if j.schedule.kind != "at" {
          FreshFor(s, j, step.now, tick);
        }
      }
    } else {
      assert RunsSomewhere(s, x) ==> RunsSomewhere(t, x) by {
        forall k | 0 <= k < |s.workers| && Runs(s.workers[k], x)
          ensures t.workers[k] in t.workers && Runs(t.workers[k], x)
        {
        }
      }
      PlanKept(s, t, x);
    }
  }

  lemma StepKeepsPlan(s: System, step: Step, tick: Tick, x: string)
    requires SlotInv(s, x) && PlanInv(s, x) && CanStep(s, step) && TicksAhead(tick) && Exclusive(s, step, x)
    ensures PlanInv(Do(s, step, tick), x)
  {
    match step
    case Start(_, _, _) => StartKeepsPlan(s, step, tick, x);
    case Collect(_, _, _) => CollectKeepsPlan(s, step, tick, x);
    case Begin(_, _) => BeginKeepsPlan(s, step, tick, x);
    case End(_, _, _, _) => EndKeepsPlan(s, step, tick, x);
    case _ => QuietKeepsPlan(s, step, tick, x);
  }

  ghost predicate ExclusiveRun(s: System, steps: seq<Step>, tick: Tick, x: string)
    requires CanRun(s, steps, tick)
    decreases |steps|
  {
    steps == [] || (Exclusive(s, steps[0], x) && ExclusiveRun(Do(s, steps[0], tick), steps[1..], tick, x))
  }

  /** Exclusive batches always find the way clear. */
  lemma {:induction false} ExclusiveRunIsClear(s: System, steps: seq<Step>, tick: Tick, x: string)
    requires SlotInv(s, x) && PlanInv(s, x) && TicksAhead(tick) && CanRun(s, steps, tick)
    requires ExclusiveRun(s, steps, tick, x)
    ensures ClearRun(s, steps, tick, x)
    decreases |steps|
  {
    if steps != [] {
      ExclusiveIsClear(s, steps[0], x);
      StepKeepsSlot(s, steps[0], tick, x);
      StepKeepsPlan(s, steps[0], tick, x);
      ExclusiveRunIsClear(Do(s, steps[0], tick), steps[1..], tick, x);
    }
  }

  /**
   * If a job is never collected while another goroutine still has it in its queue or runs it, its handler
   * calls are as far apart as its dispatches.
   */
  lemma BeginsSeparated(s: System, steps: seq<Step>, tick: Tick, x: string)
    requires Init(s) && TicksAhead(tick) && CanRun(s, steps, tick) && ExclusiveRun(s, steps, tick, x)
    ensures var end := Run(s, steps, tick); SeparatedFor(end.begun, end.born, x)
  {
    ExclusiveRunIsClear(s, steps, tick, x);
    ClearRunKeepsSlot(s, steps, tick, x);
  }

  // ----- a collection that is not clear

  lemma FinishedKeeps(s: Service, id: string, started: int, now: int, tick: Tick, x: string)
    requires Find(s.jobs, x) < |s.jobs| && id != x
    ensures var t := Finished(s, id, started, now, Ok, tick, true); Find(t.jobs, x) < |t.jobs|
  {
    var t := Finished(s, id, started, now, Ok, tick, true);
    var k := Find(s.jobs, x);
    WithoutKeeps(s.jobs, id);
    assert s.jobs[k] in s.jobs;
    assert (|t.jobs| == |s.jobs| && t.jobs[k] == s.jobs[k]) || s.jobs[k] in t.jobs;
    FoundIfIn(t.jobs, s.jobs[k]);
  }

  lemma FoundIfIn(jobs: seq<Job>, j: Job)
    requires j in jobs
    ensures Find(jobs, j.id) < |jobs|
  {
    FindFirst(jobs, j.id);
  }

  /** The goroutine has reached the job and calls its handler at once; only handlers were called and ended. */
  ghost predicate Reached(s: System, t: System, w: nat, x: string) {
    && t.clock == s.clock && t.born == s.born && |t.workers| == |s.workers|
    && (forall v | 0 <= v < |s.workers| && v != w :: t.workers[v] == s.workers[v])
    && Find(t.service.jobs, x) < |t.service.jobs|
    && |s.begun| < |t.begun| && s.begun <= t.begun && t.begun[|t.begun| - 1] == Event(x, s.clock)
  }

  /** Only handlers are called and end. */
  predicate OnlyWork(steps: seq<Step>) {
    forall step <- steps :: step.Begin? || step.End?
  }

  lemma {:induction false} WorkIsClear(s: System, steps: seq<Step>, tick: Tick, x: string)
    requires CanRun(s, steps, tick) && OnlyWork(steps)
    ensures ClearRun(s, steps, tick, x)
    decreases |steps|
  {
    if steps != [] {
      assert steps[0] in steps;
      WorkIsClear(Do(s, steps[0], tick), steps[1..], tick, x);
    }
  }

  lemma RunOne(s: System, step: Step, rest: seq<Step>, tick: Tick)
    requires CanStep(s, step) && CanRun(Do(s, step, tick), rest, tick)
    ensures CanRun(s, [step] + rest, tick) && Run(s, [step] + rest, tick) == Run(Do(s, step, tick), rest, tick)
  {
    assert ([step] + rest)[1..] == rest;
  }

  /** A step of goroutine `w` alone, which calls a handler or ends one, and keeps the job. */
  ghost predicate Worked(s: System, t: System, w: nat, x: string) {
    && t.clock == s.clock && t.born == s.born && s.begun <= t.begun && |t.workers| == |s.workers|
    && (forall v | 0 <= v < |s.workers| && v != w :: t.workers[v] == s.workers[v])
    && Find(t.service.jobs, x) < |t.service.jobs|
  }

  /** The goroutine still has to get to the job. */
  ghost predicate Queued(s: System, w: nat, x: string) {
    && w < |s.workers| && x in s.workers[w].queue && !Runs(s.workers[w], x)
    && Find(s.service.jobs, x) < |s.service.jobs|
  }

  function Left(w: Worker): nat {
    2 * |w.queue| + if w.current.Some? then 1 else 0
  }

  /** A goroutine's next step towards a job in its queue: the end of a handler, or the call of one. */
  lemma NextWork(s: System, w: nat, tick: Tick, x: string) returns (step: Step, t: System)
    requires Queued(s, w, x)
    ensures (step.Begin? || step.End?) && CanStep(s, step) && t == Do(s, step, tick) && Worked(s, t, w, x)
    ensures t.begun == s.begun + [Event(x, s.clock)] || (Queued(t, w, x) && Left(t.workers[w]) < Left(s.workers[w]))
  {
    var worker := s.workers[w];
    if worker.current.Some? {
      step := End(w, s.clock, Ok, true);
      FinishedKeeps(s.service, worker.current.value.id, worker.current.value.time, s.clock, tick, x);
    } else {
      step := Begin(w, s.clock);
    }
    t := Do(s, step, tick);
  }

  lemma ReachedFrom(s: System, t: System, end: System, w: nat, x: string)
    requires Worked(s, t, w, x) && Reached(t, end, w, x)
    ensures Reached(s, end, w, x)
  {
  }

  /** A goroutine with the job in its queue can get to it without the clock moving. */
  lemma {:induction false} Reach(s: System, w: nat, tick: Tick, x: string) returns (steps: seq<Step>, end: System)
    requires Queued(s, w, x)
    ensures OnlyWork(steps) && CanRun(s, steps, tick) && end == Run(s, steps, tick) && Reached(s, end, w, x)
    decreases Left(s.workers[w])
  {
    var step, t := NextWork(s, w, tick, x);
    var more;
    if Queued(t, w, x) && Left(t.workers[w]) < Left(s.workers[w]) {
      more, end := Reach(t, w, tick, x);
      ReachedFrom(s, t, end, w, x);
    } else {
      more, end := [], t;
    }
    RunOne(s, step, more, tick);
    steps := [step] + more;
  }

  lemma NotApartAtOnce(s: Schedule, t: int)
    ensures !Apart(s, t, t)
  {
  }

  /** Two goroutines with the job in their queues can call its handler at the same time. */
  lemma {:induction false} TwiceAtOnce(s: System, v: nat, w: nat, tick: Tick, x: string)
    returns (steps: seq<Step>, end: System)
    requires v != w && Queued(s, v, x) && Queued(s, w, x)
    ensures OnlyWork(steps) && CanRun(s, steps, tick) && end == Run(s, steps, tick)
    ensures !SeparatedFor(end.begun, end.born, x)
    decreases Left(s.workers[v])
  {
    var step, t := NextWork(s, v, tick, x);
    var more;
    if Queued(t, v, x) && Left(t.workers[v]) < Left(s.workers[v]) {
      more, end := TwiceAtOnce(t, v, w, tick, x);
    } else {
      more, end := Reach(t, w, tick, x);
      TwiceBegun(t.begun, end.begun, end.born, s.clock, x);
    }
    RunOne(s, step, more, tick);
    steps := [step] + more;
  }

  lemma TwiceBegun(a: seq<Event>, b: seq<Event>, born: map<string, Schedule>, clock: int, x: string)
    requires a != [] && a <= b && |a| < |b| && a[|a| - 1] == b[|b| - 1] == Event(x, clock)
    ensures !SeparatedFor(b, born, x)
  {
    var i, k := |a| - 1, |b| - 1;
    assert b[i] == b[k] == Event(x, clock);
    if x in born {
      NotApartAtOnce(born[x], clock);
    }
  }

  /** A goroutine with the job in its queue can call its handler too early after a past call. */
  lemma TooEarly(s: System, w: nat, e: Event, tick: Tick, x: string) returns (steps: seq<Step>, end: System)
    requires Queued(s, w, x) && x in s.born
    requires e in s.begun && e.id == x && !Apart(s.born[x], e.time, s.clock)
    ensures OnlyWork(steps) && CanRun(s, steps, tick) && end == Run(s, steps, tick)
    ensures !SeparatedFor(end.begun, end.born, x)
  {
    steps, end := Reach(s, w, tick, x);
    var i :| 0 <= i < |s.begun| && s.begun[i] == e;
    assert end.begun[i] == e && end.begun[|end.begun| - 1] == Event(x, s.clock);
  }

  lemma ClearedFound(jobs: seq<Job>, ids: set<string>, x: string)
    requires exists j :: j in jobs && j.id == x
    ensures Find(ClearNext(jobs, ids), x) < |jobs|
  {
    var k :| 0 <= k < |jobs| && jobs[k].id == x;
    FoundIfIn(ClearNext(jobs, ids), ClearNext(jobs, ids)[k]);
  }

  /** After a collection that is not clear, handler calls can come too close. */
  lemma UnclearCollides(s: System, step: Step, tick: Tick, x: string) returns (steps: seq<Step>)
    requires SlotInv(s, x) && CanStep(s, step) && step.Collect? && x in Collected(s.service, step.now) && x in s.born
    requires !Clear(s, step.now, x)
    ensures var t := Do(s, step, tick);
            && CanRun(t, steps, tick) && OnlyWork(steps)
            && !SeparatedFor(Run(t, steps, tick).begun, Run(t, steps, tick).born, x)
  {
    var t := Do(s, step, tick);
    DueIdsShape(s.service.jobs, step.now);
    ClearedFound(s.service.jobs, (set id <- Collected(s.service, step.now)), x);
    assert t.workers[step.w] == Worker(Collected(s.service, step.now), None);
    var end;
    if v :| 0 <= v < |s.workers| && x in s.workers[v].queue {
      assert OnceInBatch(s.workers[v], x);
      steps, end := TwiceAtOnce(t, v, step.w, tick, x);
    } else {
      var e :| e in s.begun && e.id == x && !Apart(s.born[x], e.time, step.now);
      steps, end := TooEarly(t, step.w, e, tick, x);
    }
  }

  /**
   * Collecting a job is safe for its handler calls in every continuation exactly when no goroutine has it in
   * its queue and its past calls are far enough away.
   */
  lemma CollectSafeIff(s: System, step: Step, tick: Tick, x: string)
    requires SlotInv(s, x) && TicksAhead(tick) && CanStep(s, step) && x in s.born
    requires step.Collect? && x in Collected(s.service, step.now)
    ensures Clear(s, step.now, x) <==>
            var t := Do(s, step, tick);
            forall steps | CanRun(t, steps, tick) && ClearRun(t, steps, tick, x) ::
              SeparatedFor(Run(t, steps, tick).begun, Run(t, steps, tick).born, x)
  {
    var t := Do(s, step, tick);
    if Clear(s, step.now, x) {
      CollectKeepsSlot(s, step, tick, x);
      forall steps | CanRun(t, steps, tick) && ClearRun(t, steps, tick, x)
        ensures SeparatedFor(Run(t, steps, tick).begun, Run(t, steps, tick).born, x)
      {
        ClearRunKeepsSlot(t, steps, tick, x);
      }
    } else {
      var steps := UnclearCollides(s, step, tick, x);
      WorkIsClear(t, steps, tick, x);
    }
  }
}
