/**
 * Whole runs of the scheduler: any interleaving of the user's calls with any number of scheduler
 * goroutines. A job is dispatched when `checkJobs` takes it over, and begun when its handler is called.
 */
module CronRuns {
  import opened Text
  import opened Cron

  datatype Event = Event(id: string, time: int)

  /** A scheduler goroutine: the ids it has taken over and not begun, and the job whose handler is running. */
  datatype Worker = Worker(queue: seq<string>, current: Option<Event>)

  /**
   * `born` holds the schedule every id was created with; ids are never used again. `dispatched` and
   * `begun` are the histories.
   */
  datatype System = System(
    service: Service, workers: seq<Worker>, clock: int,
    born: map<string, Schedule>, dispatched: seq<Event>, begun: seq<Event>)

  datatype Step =
    | AddJob(id: string, schedule: Schedule, now: int, saved: bool)
    | RemoveJob(id: string, saved: bool)
    | EnableJob(id: string, on: bool, now: int, saved: bool)
    | Start(now: int, readable: bool, saved: bool)
    | Stop
    | Load(readable: bool)
    | Collect(w: nat, now: int, saved: bool)
    | Begin(w: nat, now: int)
    | End(w: nat, now: int, outcome: Status, saved: bool)

  predicate Idle(w: Worker) {
    w.queue == [] && w.current == None
  }

  /** The clock never goes back, ids are fresh, and each goroutine runs one batch at a time. */
  predicate CanStep(s: System, step: Step) {
    match step
    case AddJob(id, _, now, _) => s.clock <= now && id !in s.born
    case RemoveJob(_, _) => true
    case EnableJob(_, _, now, _) => s.clock <= now
    case Start(now, _, _) => s.clock <= now
    case Stop => true
    case Load(_) => true
    case Collect(w, now, _) => s.clock <= now && w < |s.workers| && Idle(s.workers[w])
    case Begin(w, now) =>
      s.clock <= now && w < |s.workers| && s.workers[w].current == None && s.workers[w].queue != []
    case End(w, now, _, _) => s.clock <= now && w < |s.workers| && s.workers[w].current.Some?
  }

  function Events(ids: seq<string>, now: int): seq<Event> {
    seq(|ids|, i requires 0 <= i < |ids| => Event(ids[i], now))
  }

  function Do(s: System, step: Step, tick: Tick): System
    requires CanStep(s, step)
  {
    match step
    case AddJob(id, schedule, now, saved) =>
      s.(service := Added(s.service, id, schedule, now, tick, saved), clock := now, born := s.born[id := schedule])
    case RemoveJob(id, saved) => s.(service := Removed(s.service, id, saved))
    case EnableJob(id, on, now, saved) => s.(service := Enabled(s.service, id, on, now, tick, saved), clock := now)
    case Start(now, readable, saved) =>
      var service := Started(s.service, now, tick, readable, saved);
      s.(service := service, clock := now,
         workers := s.workers + if service.running && !s.service.running then [Worker([], None)] else [])
    case Stop => s.(service := Stopped(s.service))
    case Load(readable) => s.(service := Loaded(s.service, readable))
    case Collect(w, now, saved) =>
      var ids := Collected(s.service, now);
      s.(service := AfterCollect(s.service, now, saved), clock := now,
         workers := s.workers[w := Worker(ids, None)],
         dispatched := s.dispatched + Events(ids, now))
    case Begin(w, now) =>
      var id, rest := s.workers[w].queue[0], s.workers[w].queue[1..];
      if Find(s.service.jobs, id) == |s.service.jobs| then
        s.(clock := now, workers := s.workers[w := Worker(rest, None)])
      else
        s.(clock := now, workers := s.workers[w := Worker(rest, Some(Event(id, now)))],
           begun := s.begun + [Event(id, now)])
    case End(w, now, outcome, saved) =>
      var job := s.workers[w].current.value;
      s.(service := Finished(s.service, job.id, job.time, now, outcome, tick, saved), clock := now,
         workers := s.workers[w := s.workers[w].(current := None)])
  }

  // ----- histories

  /** How far apart the schedule lets two dispatches of one job be; an "at" job has only one. */
  predicate Apart(s: Schedule, earlier: int, later: int) {
    if s.kind == "at" then false
    else if s.kind == "every" then s.everyMS.Some? && s.everyMS.value > 0 && earlier + s.everyMS.value <= later
    else earlier < later
  }

  ghost predicate Separated(events: seq<Event>, born: map<string, Schedule>) {
    forall i, k | 0 <= i < k < |events| && events[i].id == events[k].id && events[i].id in born ::
      Apart(born[events[i].id], events[i].time, events[k].time)
  }

  /** An "at" job that was dispatched at `t` was due by then. */
  predicate Spent(s: Schedule, t: int) {
    s.kind == "at" ==> s.atMS.Some? && s.atMS.value <= t
  }

  ghost predicate History(events: seq<Event>, born: map<string, Schedule>, clock: int) {
    forall e <- events :: e.id in born && e.time <= clock && Spent(born[e.id], e.time)
  }

  // ----- invariant

  ghost predicate UniqueIds(jobs: seq<Job>) {
    forall i, k | 0 <= i < k < |jobs| :: jobs[i].id != jobs[k].id
  }

  /** Every job still has the schedule it was created with. */
  ghost predicate Registered(jobs: seq<Job>, born: map<string, Schedule>) {
    UniqueIds(jobs) && forall j <- jobs :: j.id in born && j.schedule == born[j.id]
  }

  /** The planned run of an enabled "at" job is at its own time. */
  predicate Fits(j: Job) {
    j.enabled && j.next.Some? && j.schedule.kind == "at" ==> j.schedule.atMS == j.next
  }

  /** At the earliest time an enabled job can be dispatched, it keeps its distance from every past event. */
  ghost predicate Planned(j: Job, events: seq<Event>, clock: int) {
    j.enabled && j.next.Some? ==>
      forall e <- events | e.id == j.id :: Apart(j.schedule, e.time, Max(j.next.value, clock))
  }

  ghost predicate Inv(s: System) {
    && Registered(s.service.jobs, s.born) && Registered(s.service.disk, s.born)
    && History(s.dispatched, s.born, s.clock)
    && (s.service.running ==>
          && (forall j <- s.service.jobs :: Fits(j) && Planned(j, s.dispatched, s.clock))
          && (forall j <- s.service.disk :: Fits(j)))
    && Separated(s.dispatched, s.born)
  }

  /** A stopped service over any stored jobs with distinct ids; nothing has been dispatched. */
  ghost predicate Init(s: System) {
    && s.service.disk == s.service.jobs && !s.service.running
    && Registered(s.service.jobs, s.born)
    && s.workers == [] && s.dispatched == [] && s.begun == []
  }

  /** A run computed afresh after the last dispatch keeps its distance from every dispatch. */
  lemma FreshPlan(s: Schedule, earlier: int, now: int, tick: Tick)
    requires TicksAhead(tick) && earlier <= now && Spent(s, earlier)
    ensures ComputeNextRun(s, now, tick).Some? ==> Apart(s, earlier, ComputeNextRun(s, now, tick).value)
  {
  }

  lemma PlannedFresh(j: Job, events: seq<Event>, now: int, tick: Tick)
    requires TicksAhead(tick) && j.next == ComputeNextRun(j.schedule, now, tick)
    requires forall e <- events | e.id == j.id :: e.time <= now && Spent(j.schedule, e.time)
    ensures Fits(j) && Planned(j, events, now)
  {
    forall e <- events | e.id == j.id
      ensures j.next.Some? ==> Apart(j.schedule, e.time, Max(j.next.value, now))
    {
      FreshPlan(j.schedule, e.time, now, tick);
    }
  }

  lemma ApartLater(s: Schedule, earlier: int, later: int, still: int)
    requires Apart(s, earlier, later) && later <= still
    ensures Apart(s, earlier, still)
  {
  }

  lemma PlannedLater(j: Job, events: seq<Event>, clock: int, later: int)
    requires Planned(j, events, clock) && clock <= later
    ensures Planned(j, events, later)
  {
    forall e <- events | e.id == j.id && j.enabled && j.next.Some?
      ensures Apart(j.schedule, e.time, Max(j.next.value, later))
    {
      ApartLater(j.schedule, e.time, Max(j.next.value, clock), Max(j.next.value, later));
    }
  }

  lemma AllPlannedLater(jobs: seq<Job>, events: seq<Event>, clock: int, later: int)
    requires (forall j <- jobs :: Planned(j, events, clock)) && clock <= later
    ensures forall j <- jobs :: Planned(j, events, later)
  {
    forall j <- jobs
      ensures Planned(j, events, later)
    {
      PlannedLater(j, events, clock, later);
    }
  }

  lemma {:induction false} WithoutKeeps(jobs: seq<Job>, id: string)
    ensures forall j :: j in Without(jobs, id) <==> j in jobs && j.id != id
    ensures UniqueIds(jobs) ==> UniqueIds(Without(jobs, id))
  {
    if jobs != [] {
      var front, last := jobs[..|jobs| - 1], jobs[|jobs| - 1];
      assert jobs == front + [last];
      WithoutKeeps(front, id);
      var r := Without(front, id);
      assert UniqueIds(jobs) ==> forall k | 0 <= k < |r| :: r[k] in front && r[k].id != last.id;
    }
  }

  lemma {:induction false} DueIdsShape(jobs: seq<Job>, now: int)
    ensures forall id :: id in DueIds(jobs, now) <==> exists j :: j in jobs && j.id == id && IsDue(j, now)
    ensures UniqueIds(jobs) ==>
      forall i, k | 0 <= i < k < |DueIds(jobs, now)| :: DueIds(jobs, now)[i] != DueIds(jobs, now)[k]
  {
    if jobs != [] {
      var front, last := jobs[..|jobs| - 1], jobs[|jobs| - 1];
      assert jobs == front + [last];
      DueIdsShape(front, now);
      var r := DueIds(front, now);
      forall k | 0 <= k < |r| && UniqueIds(jobs)
        ensures r[k] != last.id
      {
        assert r[k] in r;
        var j :| j in front && j.id == r[k] && IsDue(j, now);
      }
    }
  }

  lemma UpdateKeepsRegistered(jobs: seq<Job>, i: nat, j: Job, born: map<string, Schedule>)
    requires Registered(jobs, born) && i < |jobs| && j.id == jobs[i].id && j.schedule == jobs[i].schedule
    ensures Registered(jobs[i := j], born)
  {
  }

  lemma RegisteredMono(jobs: seq<Job>, born: map<string, Schedule>, id: string, schedule: Schedule)
    requires Registered(jobs, born) && id !in born
    ensures Registered(jobs, born[id := schedule])
  {
  }

  /** Dispatching the due jobs keeps the history separated. */
  lemma DispatchSeparated(s: System, now: int)
    requires Inv(s) && s.service.running && s.clock <= now
    ensures var events := s.dispatched + Events(DueIds(s.service.jobs, now), now);
            Separated(events, s.born) && History(events, s.born, now)
  {
    var ids := DueIds(s.service.jobs, now);
    DueIdsShape(s.service.jobs, now);
    var events := s.dispatched + Events(ids, now);
    forall k | |s.dispatched| <= k < |events|
      ensures events[k].id in s.born && Spent(s.born[events[k].id], now)
      ensures forall i | 0 <= i < k && events[i].id == events[k].id ::
                Apart(s.born[events[i].id], events[i].time, events[k].time)
    {
      assert events[k].id == ids[k - |s.dispatched|] && events[k].id in ids;
      var j :| j in s.service.jobs && j.id == events[k].id && IsDue(j, now);
      DueApart(j, s.dispatched, s.clock, now);
    }
  }

  /** A job that is due keeps its distance from what it was planned against. */
  lemma DueApart(j: Job, events: seq<Event>, clock: int, now: int)
    requires Planned(j, events, clock) && IsDue(j, now) && clock <= now
    ensures forall e <- events | e.id == j.id :: Apart(j.schedule, e.time, now)
  {
    forall e <- events | e.id == j.id
      ensures Apart(j.schedule, e.time, now)
    {
      ApartLater(j.schedule, e.time, Max(j.next.value, clock), now);
    }
  }

  lemma ClearedPlanned(jobs: seq<Job>, ids: seq<string>, events: seq<Event>, clock: int, now: int)
    requires (forall j <- jobs :: Fits(j) && Planned(j, events, clock)) && clock <= now
    ensures forall j <- ClearNext(jobs, set id <- ids) :: Fits(j) && Planned(j, events + Events(ids, now), now)
  {
    var cleared, later := ClearNext(jobs, set id <- ids), events + Events(ids, now);
    AllPlannedLater(jobs, events, clock, now);
    forall i | 0 <= i < |cleared|
      ensures Fits(cleared[i]) && Planned(cleared[i], later, now)
    {
      assert jobs[i] in jobs;
      if jobs[i].id !in ids {
        assert forall e <- later | e.id == jobs[i].id :: e in events;
      }
    }
  }

  lemma ClearedRegistered(jobs: seq<Job>, ids: set<string>, born: map<string, Schedule>)
    requires Registered(jobs, born)
    ensures Registered(ClearNext(jobs, ids), born)
  {
    var cleared := ClearNext(jobs, ids);
    forall i | 0 <= i < |cleared|
      ensures cleared[i].id in born && cleared[i].schedule == born[cleared[i].id]
    {
      assert jobs[i] in jobs;
    }
  }

  lemma CollectKeepsInv(s: System, step: Step, tick: Tick)
    requires Inv(s) && step.Collect? && CanStep(s, step)
    ensures Inv(Do(s, step, tick))
  {
    if s.service.running {
      var ids := DueIds(s.service.jobs, step.now);
      DispatchSeparated(s, step.now);
      ClearedPlanned(s.service.jobs, ids, s.dispatched, s.clock, step.now);
      ClearedRegistered(s.service.jobs, (set id <- ids), s.born);
    }
  }

  lemma AddKeepsInv(s: System, step: Step, tick: Tick)
    requires Inv(s) && step.AddJob? && CanStep(s, step) && TicksAhead(tick)
    ensures Inv(Do(s, step, tick))
  {
    var born := s.born[step.id := step.schedule];
    RegisteredMono(s.service.jobs, s.born, step.id, step.schedule);
    RegisteredMono(s.service.disk, s.born, step.id, step.schedule);
    assert History(s.dispatched, born, step.now);
    if s.service.running {
      AllPlannedLater(s.service.jobs, s.dispatched, s.clock, step.now);
    }
    PlannedFresh(NewJob(step.id, step.schedule, step.now, tick), s.dispatched, step.now, tick);
  }

  /** Only the clock moves. */
  lemma LaterKeepsInv(s: System, now: int)
    requires Inv(s) && s.clock <= now
    ensures Inv(s.(clock := now))
  {
    if s.service.running {
      AllPlannedLater(s.service.jobs, s.dispatched, s.clock, now);
    }
  }

  /** Replacing one job by an updated one that is properly planned. */
  lemma UpdateKeepsInv(s: System, i: nat, j: Job, now: int, saved: bool)
    requires Inv(s) && i < |s.service.jobs| && s.clock <= now
    requires j.id == s.service.jobs[i].id && j.schedule == s.service.jobs[i].schedule
    requires Fits(j) && Planned(j, s.dispatched, now)
    ensures Inv(s.(service := Store(s.service, s.service.jobs[i := j], saved), clock := now))
  {
    if s.service.running {
      AllPlannedLater(s.service.jobs, s.dispatched, s.clock, now);
    }
    UpdateKeepsRegistered(s.service.jobs, i, j, s.born);
  }

  lemma EnableKeepsInv(s: System, step: Step, tick: Tick)
    requires Inv(s) && step.EnableJob? && CanStep(s, step) && TicksAhead(tick)
    ensures Inv(Do(s, step, tick))
  {
    var i := Find(s.service.jobs, step.id);
    if i == |s.service.jobs| {
      LaterKeepsInv(s, step.now);
    } else {
      var j := Switched(s.service.jobs[i], step.on, step.now, tick);
      assert s.service.jobs[i] in s.service.jobs;
      if step.on {
        PlannedFresh(j, s.dispatched, step.now, tick);
      }
      UpdateKeepsInv(s, i, j, step.now, step.saved);
    }
  }

  lemma EndKeepsInv(s: System, step: Step, tick: Tick)
    requires Inv(s) && step.End? && CanStep(s, step) && TicksAhead(tick)
    ensures Inv(Do(s, step, tick))
  {
    var e := s.workers[step.w].current.value;
    var i := Find(s.service.jobs, e.id);
    if i == |s.service.jobs| {
      LaterKeepsInv(s, step.now);
    } else {
      var j := Ran(s.service.jobs[i], e.time, step.now, step.outcome, tick);
      assert s.service.jobs[i] in s.service.jobs;
      if s.service.jobs[i].schedule.kind == "at" && s.service.jobs[i].deleteAfterRun {
        WithoutKeeps(s.service.jobs, e.id);
        LaterKeepsInv(s, step.now);
      } else {
        if j.schedule.kind != "at" {
          PlannedFresh(j, s.dispatched, step.now, tick);
        }
        UpdateKeepsInv(s, i, j, step.now, step.saved);
      }
    }
  }

  lemma StartKeepsInv(s: System, step: Step, tick: Tick)
    requires Inv(s) && step.Start? && CanStep(s, step) && TicksAhead(tick)
    ensures Inv(Do(s, step, tick))
  {
    LaterKeepsInv(s, step.now);
    var jobs := Recompute(s.service.disk, step.now, tick);
    forall i | 0 <= i < |jobs|
      ensures jobs[i].id in s.born && jobs[i].schedule == s.born[jobs[i].id]
      ensures Fits(jobs[i]) && Planned(jobs[i], s.dispatched, step.now)
    {
      assert s.service.disk[i] in s.service.disk;
      if jobs[i].enabled {
        PlannedFresh(jobs[i], s.dispatched, step.now, tick);
      }
    }
  }

  /** Reading the file while the service runs does no harm if every job in it is planned against the history. */
  ghost predicate LoadsSafely(s: System, step: Step, events: seq<Event>) {
    step.Load? && step.readable && s.service.running ==> forall j <- s.service.disk :: Planned(j, events, s.clock)
  }

  /** Every step keeps the invariant, whether or not its save succeeds. */
  lemma StepKeepsInv(s: System, step: Step, tick: Tick)
    requires Inv(s) && CanStep(s, step) && TicksAhead(tick) && LoadsSafely(s, step, s.dispatched)
    ensures Inv(Do(s, step, tick))
  {
    match step
    case Collect(_, _, _) => CollectKeepsInv(s, step, tick);
    case AddJob(_, _, _, _) => AddKeepsInv(s, step, tick);
    case EnableJob(_, _, _, _) => EnableKeepsInv(s, step, tick);
    case End(_, _, _, _) => EndKeepsInv(s, step, tick);
    case Start(_, _, _) => StartKeepsInv(s, step, tick);
    case Begin(_, now) => LaterKeepsInv(s, now);
    case RemoveJob(id, _) => WithoutKeeps(s.service.jobs, id);
    case _ =>
  }

  // ----- runs

  ghost predicate CanRun(s: System, steps: seq<Step>, tick: Tick)
    decreases |steps|
  {
    steps == [] || (CanStep(s, steps[0]) && CanRun(Do(s, steps[0], tick), steps[1..], tick))
  }

  ghost function Run(s: System, steps: seq<Step>, tick: Tick): System
    requires CanRun(s, steps, tick)
    decreases |steps|
  {
    if steps == [] then s else Run(Do(s, steps[0], tick), steps[1..], tick)
  }

  /** Every reading of the file while the service runs is safe for the dispatches. */
  ghost predicate SafeRun(s: System, steps: seq<Step>, tick: Tick)
    requires CanRun(s, steps, tick)
    decreases |steps|
  {
    steps == [] ||
    (LoadsSafely(s, steps[0], s.dispatched) && SafeRun(Do(s, steps[0], tick), steps[1..], tick))
  }

  lemma {:induction false} RunKeepsInv(s: System, steps: seq<Step>, tick: Tick)
    requires Inv(s) && TicksAhead(tick) && CanRun(s, steps, tick) && SafeRun(s, steps, tick)
    ensures Inv(Run(s, steps, tick))
    decreases |steps|
  {
    if steps != [] {
      StepKeepsInv(s, steps[0], tick);
      RunKeepsInv(Do(s, steps[0], tick), steps[1..], tick);
    }
  }

  /**
   * In every run, an "at" job is dispatched at most once, two dispatches of an "every" job are at
   * least its interval apart, and those of a cron job are at different times.
   */
  lemma DispatchesSeparated(s: System, steps: seq<Step>, tick: Tick)
    requires Init(s) && TicksAhead(tick) && CanRun(s, steps, tick) && SafeRun(s, steps, tick)
    ensures var end := Run(s, steps, tick);
            forall i, k | 0 <= i < k < |end.dispatched| && end.dispatched[i].id == end.dispatched[k].id ::
              var e := end.dispatched[i];
              e.id in end.born && Apart(end.born[e.id], e.time, end.dispatched[k].time)
  {
    RunKeepsInv(s, steps, tick);
  }

  // ----- when reading the file is safe

  lemma CheckOnce(s: System, step: Step, tick: Tick)
    requires step.Collect? && CanStep(s, step)
    ensures CanRun(s, [step], tick) && SafeRun(s, [step], tick) && Run(s, [step], tick) == Do(s, step, tick)
  {
    assert [step][1..] == [];
    assert CanRun(Do(s, step, tick), [], tick);
  }

  /** A job that is planned too early is dispatched too early by the next check. */
  lemma EarlyDispatch(s: System, w: nat, j: Job, e: Event, tick: Tick) returns (step: Step)
    requires s.service.running && w < |s.workers| && Idle(s.workers[w])
    requires j in s.service.jobs && j.enabled && j.next.Some? && j.id in s.born && s.born[j.id] == j.schedule
    requires e in s.dispatched && e.id == j.id && !Apart(j.schedule, e.time, Max(j.next.value, s.clock))
    ensures step.Collect? && CanStep(s, step) && Do(s, step, tick).born == s.born
    ensures !Separated(Do(s, step, tick).dispatched, s.born)
  {
    var now := Max(j.next.value, s.clock);
    step := Collect(w, now, true);
    var ids := Collected(s.service, now);
    DueIdsShape(s.service.jobs, now);
    assert IsDue(j, now) && j.id in ids;
    var k :| 0 <= k < |ids| && ids[k] == j.id;
    var i :| 0 <= i < |s.dispatched| && s.dispatched[i] == e;
    var events := s.dispatched + Events(ids, now);
    assert events[i] == e && events[|s.dispatched| + k] == Event(j.id, now);
  }

  /**
   * Reading the file while the service runs is safe for every continuation exactly when each enabled job in
   * it, dispatched as soon as possible, would keep its distance from the past.
   */
  lemma LoadSafeIff(s: System, w: nat, tick: Tick)
    requires Inv(s) && s.service.running && TicksAhead(tick) && w < |s.workers| && Idle(s.workers[w])
    ensures LoadsSafely(s, Load(true), s.dispatched) <==>
            var t := Do(s, Load(true), tick);
            forall steps | CanRun(t, steps, tick) && SafeRun(t, steps, tick) ::
              Separated(Run(t, steps, tick).dispatched, Run(t, steps, tick).born)
  {
    var t := Do(s, Load(true), tick);
    if LoadsSafely(s, Load(true), s.dispatched) {
      StepKeepsInv(s, Load(true), tick);
      forall steps | CanRun(t, steps, tick) && SafeRun(t, steps, tick)
        ensures Separated(Run(t, steps, tick).dispatched, Run(t, steps, tick).born)
      {
        RunKeepsInv(t, steps, tick);
      }
    } else {
      var j :| j in s.service.disk && !Planned(j, s.dispatched, s.clock);
      var e :| e in s.dispatched && e.id == j.id && !Apart(j.schedule, e.time, Max(j.next.value, s.clock));
      var step := EarlyDispatch(t, w, j, e, tick);
      CheckOnce(t, step, tick);
      assert !Separated(Run(t, [step], tick).dispatched, Run(t, [step], tick).born);
    }
  }

  // ----- runs without failing saves

  /** If the step saves the store, saving succeeds. */
  predicate Saves(step: Step) {
    match step
    case AddJob(_, _, _, saved) => saved
    case RemoveJob(_, saved) => saved
    case EnableJob(_, _, _, saved) => saved
    case Start(_, _, saved) => saved
    case Collect(_, _, saved) => saved
    case End(_, _, _, saved) => saved
    case _ => true
  }

  /** Reading the file would be safe now. */
  ghost predicate DiskPlanned(s: System) {
    s.service.running ==> forall j <- s.service.disk :: Planned(j, s.dispatched, s.clock)
  }

  /** A step that changes the jobs in memory writes them to the file; any other leaves the file planned. */
  lemma SavedStepKeeps(s: System, step: Step, tick: Tick)
    requires Inv(s) && DiskPlanned(s) && CanStep(s, step) && TicksAhead(tick) && Saves(step)
    ensures LoadsSafely(s, step, s.dispatched) && Inv(Do(s, step, tick)) && DiskPlanned(Do(s, step, tick))
  {
    StepKeepsInv(s, step, tick);
    var t := Do(s, step, tick);
    if s.service.running && t.service.disk == s.service.disk && t.dispatched == s.dispatched {
      AllPlannedLater(s.service.disk, s.dispatched, s.clock, t.clock);
    }
  }

  /** When no save fails, every reading of the file is safe. */
  lemma {:induction false} SavedRunIsSafe(s: System, steps: seq<Step>, tick: Tick)
    requires Inv(s) && DiskPlanned(s) && TicksAhead(tick) && CanRun(s, steps, tick)
    requires forall step <- steps :: Saves(step)
    ensures SafeRun(s, steps, tick)
    decreases |steps|
  {
    if steps != [] {
      assert steps[0] in steps;
      SavedStepKeeps(s, steps[0], tick);
      SavedRunIsSafe(Do(s, steps[0], tick), steps[1..], tick);
    }
  }

  /** When no save fails, dispatches are separated in every run, whatever is loaded. */
  lemma SavedDispatchesSeparated(s: System, steps: seq<Step>, tick: Tick)
    requires Init(s) && TicksAhead(tick) && CanRun(s, steps, tick)
    requires forall step <- steps :: Saves(step)
    ensures var end := Run(s, steps, tick); Separated(end.dispatched, end.born) && SafeRun(s, steps, tick)
  {
    SavedRunIsSafe(s, steps, tick);
    RunKeepsInv(s, steps, tick);
  }
}
