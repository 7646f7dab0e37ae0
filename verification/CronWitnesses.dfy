/**
 * Runs that show what the hypotheses on overlapping batches and on reading the file are for. Times are in
 * milliseconds; every goroutine checks once a second, counted from its start.
 */
module CronWitnesses {
  import opened Text
  import opened Cron
  import opened CronRuns
  import opened CronSeparation

  const NOTHING := System(Service([], [], false), [], 0, map[], [], [])
  const IDLE := Worker([], None)

  lemma DueOne(job: Job, now: int)
    ensures DueIds([job], now) == if IsDue(job, now) then [job.id] else []
  {
    assert [job][..0] == [];
  }

  lemma DueTwo(a: Job, b: Job, now: int)
    ensures DueIds([a, b], now) ==
            (if IsDue(a, now) then [a.id] else []) + if IsDue(b, now) then [b.id] else []
  {
    assert [a, b][..1] == [a];
    DueOne(a, now);
  }

  function Checked(j: Job, now: int): Job {
    if IsDue(j, now) then j.(next := None) else j
  }

  /** A check of two jobs. */
  lemma CheckTwo(s: System, w: nat, now: int, a: Job, b: Job, tick: Tick)
    requires s.service == Service([a, b], [a, b], true) && a.id != b.id && CanStep(s, Collect(w, now, true))
    ensures var jobs, ids := [Checked(a, now), Checked(b, now)], DueIds([a, b], now);
            Do(s, Collect(w, now, true), tick) ==
            s.(service := Service(jobs, jobs, true), clock := now, workers := s.workers[w := Worker(ids, None)],
               dispatched := s.dispatched + Events(ids, now))
  {
    var ids := DueIds([a, b], now);
    DueTwo(a, b, now);
    assert ClearNext([a, b], set id <- ids) == [Checked(a, now), Checked(b, now)];
  }

  /** A check of one job. */
  lemma CheckOne(s: System, w: nat, now: int, a: Job, saved: bool, tick: Tick)
    requires s.service.jobs == [a] && s.service.running && CanStep(s, Collect(w, now, saved)) && IsDue(a, now)
    ensures Do(s, Collect(w, now, saved), tick) ==
            s.(service := Store(s.service, [a.(next := None)], saved), clock := now,
               workers := s.workers[w := Worker([a.id], None)], dispatched := s.dispatched + [Event(a.id, now)])
  {
    DueOne(a, now);
    assert ClearNext([a], set id <- [a.id]) == [a.(next := None)];
    assert Events([a.id], now) == [Event(a.id, now)];
  }

  // ----- overlapping batches

  const AT_TWO := Schedule("at", Some(2000), None, "")
  const EVERY_TWO := Schedule("every", None, Some(2000), "")
  const BOTH := map["a" := AT_TWO, "b" := EVERY_TWO]
  const JOB_A := Job("a", true, AT_TWO, Some(2000), None, Never, 0, 0, true)
  const JOB_B := Job("b", true, EVERY_TWO, Some(2000), None, Never, 0, 0, false)

  function Both(a: Option<int>, b: Option<int>): Service {
    var jobs := [JOB_A.(next := a), JOB_B.(next := b)];
    Service(jobs, jobs, true)
  }

  /** Two jobs are planned for second 2, and the service is running. */
  const PLANNED := System(Both(Some(2000), Some(2000)), [IDLE], 0, BOTH, [], [])

  /** At second 2 a goroutine took over both jobs and called the handler of the first, which takes long. */
  const DISPATCHED := [Event("a", 2000), Event("b", 2000)]
  const BEGUN := [Event("a", 2000)]
  const SLOW := Worker(["b"], Some(Event("a", 2000)))
  const TAKEN := System(Both(None, None), [SLOW], 2000, BOTH, DISPATCHED, BEGUN)

  /** At 2500 the service was restarted; the second job is planned again. */
  const RESTARTED := System(Both(None, Some(4500)), [SLOW, IDLE], 2500, BOTH, DISPATCHED, BEGUN)

  lemma ReachPlanned(more: seq<Step>, tick: Tick) returns (steps: seq<Step>)
    requires CanRun(PLANNED, more, tick)
    ensures Init(NOTHING) && CanRun(NOTHING, steps, tick) && Run(NOTHING, steps, tick) == Run(PLANNED, more, tick)
  {
    var add1, add2, start := AddJob("a", AT_TWO, 0, true), AddJob("b", EVERY_TWO, 0, true), Start(0, true, true);
    var s1 := Do(NOTHING, add1, tick);
    assert s1.service.jobs == [JOB_A];
    var s2 := Do(s1, add2, tick);
    assert s2.service.jobs == [JOB_A, JOB_B];
    assert Do(s2, start, tick) == PLANNED;
    RunOne(s2, start, more, tick);
    RunOne(s1, add2, [start] + more, tick);
    RunOne(NOTHING, add1, [add2] + ([start] + more), tick);
    steps := [add1] + ([add2] + ([start] + more));
  }

  const QUEUED := System(Both(None, None), [Worker(["a", "b"], None)], 2000, BOTH, DISPATCHED, [])

  lemma CheckPlanned(tick: Tick)
    ensures CanStep(PLANNED, Collect(0, 1000, true))
    ensures Do(PLANNED, Collect(0, 1000, true), tick) == PLANNED.(clock := 1000)
    ensures Do(PLANNED.(clock := 1000), Collect(0, 2000, true), tick) == QUEUED
  {
    DueTwo(JOB_A, JOB_B, 1000);
    CheckTwo(PLANNED, 0, 1000, JOB_A, JOB_B, tick);
    assert [IDLE][0 := Worker([], None)] == [IDLE] && Events([], 1000) == [];
    DueTwo(JOB_A, JOB_B, 2000);
    CheckTwo(PLANNED.(clock := 1000), 0, 2000, JOB_A, JOB_B, tick);
    assert ["a"] + ["b"] == ["a", "b"];
    assert [] + Events(["a", "b"], 2000) == DISPATCHED;
    assert [IDLE][0 := Worker(["a", "b"], None)] == [Worker(["a", "b"], None)];
  }

  lemma PlannedToTaken(more: seq<Step>, tick: Tick) returns (steps: seq<Step>)
    requires CanRun(TAKEN, more, tick)
    ensures CanRun(PLANNED, steps, tick) && Run(PLANNED, steps, tick) == Run(TAKEN, more, tick)
  {
    var idle, check, begin := Collect(0, 1000, true), Collect(0, 2000, true), Begin(0, 2000);
    CheckPlanned(tick);
    assert ["a", "b"][1..] == ["b"];
    assert Do(QUEUED, begin, tick) == TAKEN;
    RunOne(QUEUED, begin, more, tick);
    RunOne(PLANNED.(clock := 1000), check, [begin] + more, tick);
    RunOne(PLANNED, idle, [check] + ([begin] + more), tick);
    steps := [idle] + ([check] + ([begin] + more));
  }

  lemma TakenToRestarted(more: seq<Step>, tick: Tick) returns (steps: seq<Step>)
    requires CanRun(RESTARTED, more, tick)
    ensures CanRun(TAKEN, steps, tick) && Run(TAKEN, steps, tick) == Run(RESTARTED, more, tick)
  {
    var start := Start(2500, true, true);
    var s1 := Do(TAKEN, Stop, tick);
    assert Do(s1, start, tick) == RESTARTED;
    RunOne(s1, start, more, tick);
    RunOne(TAKEN, Stop, [start] + more, tick);
    steps := [Stop] + ([start] + more);
  }

  /** The new goroutine has called the second job's handler at 4500, while the slow handler still runs. */
  const AGAIN := [Event("a", 2000), Event("b", 2000), Event("b", 4500)]
  const CALLED := System(
    Both(None, None), [SLOW, Worker([], Some(Event("b", 4500)))], 4500, BOTH, AGAIN,
    [Event("a", 2000), Event("b", 4500)])

  const REQUEUED := System(Both(None, None), [SLOW, Worker(["b"], None)], 4500, BOTH, AGAIN, BEGUN)

  lemma CheckRestarted(tick: Tick)
    ensures CanStep(RESTARTED, Collect(1, 3500, true))
    ensures Do(RESTARTED, Collect(1, 3500, true), tick) == RESTARTED.(clock := 3500)
    ensures Do(RESTARTED.(clock := 3500), Collect(1, 4500, true), tick) == REQUEUED
  {
    var a, b := JOB_A.(next := None), JOB_B.(next := Some(4500));
    DueTwo(a, b, 3500);
    CheckTwo(RESTARTED, 1, 3500, a, b, tick);
    assert [SLOW, IDLE][1 := Worker([], None)] == [SLOW, IDLE] && DISPATCHED + Events([], 3500) == DISPATCHED;
    DueTwo(a, b, 4500);
    CheckTwo(RESTARTED.(clock := 3500), 1, 4500, a, b, tick);
    assert [] + ["b"] == ["b"];
    assert DISPATCHED + Events(["b"], 4500) == AGAIN;
    assert [SLOW, IDLE][1 := Worker(["b"], None)] == [SLOW, Worker(["b"], None)];
  }

  lemma CallAgain(tick: Tick)
    ensures CanStep(REQUEUED, Begin(1, 4500)) && Do(REQUEUED, Begin(1, 4500), tick) == CALLED
  {
    var called := Worker([], Some(Event("b", 4500)));
    assert ["b"][1..] == [];
    assert [SLOW, Worker(["b"], None)][1 := called] == [SLOW, called];
    FoundIfIn(REQUEUED.service.jobs, REQUEUED.service.jobs[1]);
    assert BEGUN + [Event("b", 4500)] == [Event("a", 2000), Event("b", 4500)];
  }

  lemma RestartedToCalled(more: seq<Step>, tick: Tick) returns (steps: seq<Step>)
    requires CanRun(CALLED, more, tick)
    ensures CanRun(RESTARTED, steps, tick) && Run(RESTARTED, steps, tick) == Run(CALLED, more, tick)
  {
    var idle, check, begin := Collect(1, 3500, true), Collect(1, 4500, true), Begin(1, 4500);
    CheckRestarted(tick);
    CallAgain(tick);
    RunOne(REQUEUED, begin, more, tick);
    RunOne(RESTARTED.(clock := 3500), check, [begin] + more, tick);
    RunOne(RESTARTED, idle, [check] + ([begin] + more), tick);
    steps := [idle] + ([check] + ([begin] + more));
  }

  /** At 4800 the slow handler ends, and its goroutine goes on to the second job. */
  lemma CalledCollides(tick: Tick) returns (steps: seq<Step>)
    ensures CanRun(CALLED, steps, tick)
    ensures Run(CALLED, steps, tick).begun == CALLED.begun + [Event("b", 4800)]
    ensures Run(CALLED, steps, tick).born == BOTH
  {
    var end, late := End(0, 4800, Ok, true), Begin(0, 4800);
    FinishedKeeps(CALLED.service, "a", 2000, 4800, tick, "b");
    var s1 := Do(CALLED, end, tick);
    assert s1.workers[0] == Worker(["b"], None);
    var s2 := Do(s1, late, tick);
    assert CanRun(s2, [], tick);
    RunOne(s1, late, [], tick);
    RunOne(CALLED, end, [late] + [], tick);
    steps := [end] + ([late] + []);
  }

  /**
   * With overlapping batches the handler calls of a 2-second job can be 300 ms apart: a job ahead of it in
   * the first goroutine's batch takes long, and meanwhile the service is restarted.
   */
  lemma OverlappingBatchesCollide(tick: Tick) returns (steps: seq<Step>)
    ensures Init(NOTHING) && CanRun(NOTHING, steps, tick)
    ensures var end := Run(NOTHING, steps, tick);
            && end.begun == [Event("a", 2000), Event("b", 4500), Event("b", 4800)]
            && end.born == BOTH && !SeparatedFor(end.begun, end.born, "b")
  {
    steps := CalledCollides(tick);
    steps := RestartedToCalled(steps, tick);
    steps := TakenToRestarted(steps, tick);
    steps := PlannedToTaken(steps, tick);
    steps := ReachPlanned(steps, tick);
    var begun := Run(NOTHING, steps, tick).begun;
    assert begun[1] == Event("b", 4500) && begun[2] == Event("b", 4800);
  }

  // ----- reading a stale file

  const AT_ONE := Schedule("at", Some(1000), None, "")
  const ONE := map["a" := AT_ONE]
  const JOB := Job("a", true, AT_ONE, Some(1000), None, Never, 0, 0, true)

  /** The job was dispatched at second 1 and has finished, but neither change could be saved. */
  const STALE := System(Service([], [JOB], true), [IDLE], 1500, ONE, [Event("a", 1000)], [Event("a", 1000)])

  /** The job is planned and the service runs. */
  const WAITING := System(Service([JOB], [JOB], true), [IDLE], 0, ONE, [], [])

  lemma WaitingToStale(more: seq<Step>, tick: Tick) returns (steps: seq<Step>)
    requires CanRun(STALE, more, tick)
    ensures CanRun(WAITING, steps, tick) && Run(WAITING, steps, tick) == Run(STALE, more, tick)
  {
    var check, begin, end := Collect(0, 1000, false), Begin(0, 1000), End(0, 1500, Ok, false);
    CheckOne(WAITING, 0, 1000, JOB, false, tick);
    var s3 := Do(WAITING, check, tick);
    assert s3.service == Service([JOB.(next := None)], [JOB], true) && s3.workers == [Worker(["a"], None)];
    var s4 := Do(s3, begin, tick);
    assert ["a"][1..] == [];
    assert s4.workers == [Worker([], Some(Event("a", 1000)))];
    assert Without([JOB.(next := None)], "a") == [];
    assert Do(s4, end, tick) == STALE;
    RunOne(s4, end, more, tick);
    RunOne(s3, begin, [end] + more, tick);
    RunOne(WAITING, check, [begin] + ([end] + more), tick);
    steps := [check] + ([begin] + ([end] + more));
  }

  lemma ReachStale(more: seq<Step>, tick: Tick) returns (steps: seq<Step>)
    requires CanRun(STALE, more, tick)
    ensures Init(NOTHING) && CanRun(NOTHING, steps, tick) && Run(NOTHING, steps, tick) == Run(STALE, more, tick)
  {
    var add, start := AddJob("a", AT_ONE, 0, true), Start(0, true, true);
    var later := WaitingToStale(more, tick);
    var added := Do(NOTHING, add, tick);
    assert Do(added, start, tick) == WAITING;
    RunOne(added, start, later, tick);
    RunOne(NOTHING, add, [start] + later, tick);
    steps := [add] + ([start] + later);
  }

  /**
   * Reading the file while running, after saves that failed, can bring a finished "at" job back, which is
   * then dispatched twice.
   */
  lemma StaleLoadRepeats(tick: Tick) returns (steps: seq<Step>)
    ensures Init(NOTHING) && CanRun(NOTHING, steps, tick)
    ensures var end := Run(NOTHING, steps, tick);
            && end.dispatched == [Event("a", 1000), Event("a", 2000)]
            && end.born == ONE && !Separated(end.dispatched, end.born)
  {
    var load, check := Load(true), Collect(0, 2000, true);
    var s1 := Do(STALE, load, tick);
    CheckOne(s1, 0, 2000, JOB, true, tick);
    var s2 := Do(s1, check, tick);
    assert s2.dispatched == [Event("a", 1000), Event("a", 2000)];
    assert CanRun(s2, [], tick);
    RunOne(s1, check, [], tick);
    RunOne(STALE, load, [check] + [], tick);
    steps := ReachStale([load] + ([check] + []), tick);
    var events := Run(NOTHING, steps, tick).dispatched;
    assert events[0].id == events[1].id;
  }
}
