/**
 * The job store of the cron service and what each critical section does to it, as functions.
 * `CronLoop` proves the source's in-place loops against these; `CronRuns` proves what holds of whole runs.
 */
module Cron {
  import opened Text

  datatype Schedule = Schedule(kind: string, atMS: Option<int>, everyMS: Option<int>, expr: string)

  datatype Status = Never | Ok | Failed(message: string)

  datatype Job = Job(
    id: string, enabled: bool, schedule: Schedule,
    next: Option<int>, last: Option<int>, status: Status, created: int, updated: int, deleteAfterRun: bool)

  /** The next time a cron expression fires after a given time, if it is well formed. */
  type Tick = (string, int) -> Option<int>

  ghost predicate TicksAhead(tick: Tick) {
    forall expr: string, now: int :: tick(expr, now).Some? ==> now < tick(expr, now).value
  }

  function ComputeNextRun(s: Schedule, now: int, tick: Tick): Option<int> {
    if s.kind == "at" then
      if s.atMS.Some? && s.atMS.value > now then s.atMS else None
    else if s.kind == "every" then
      if s.everyMS.None? || s.everyMS.value <= 0 then None else Some(now + s.everyMS.value)
    else if s.kind == "cron" then
      if s.expr == "" then None else tick(s.expr, now)
    else None
  }

  /** The schedule asks for its first run after `now` at `t`. */
  ghost predicate RunsNext(s: Schedule, now: int, tick: Tick, t: int) {
    || (s.kind == "at" && s.atMS == Some(t) && now < t)
    || (s.kind == "every" && s.everyMS.Some? && s.everyMS.value > 0 && t == now + s.everyMS.value)
    || (s.kind == "cron" && s.expr != "" && tick(s.expr, now) == Some(t))
  }

  lemma ComputesNextRun(s: Schedule, now: int, tick: Tick, t: int)
    ensures ComputeNextRun(s, now, tick) == Some(t) <==> RunsNext(s, now, tick, t)
  {
  }

  /** The store in memory, the store on disk, and whether the scheduler is running. */
  datatype Service = Service(jobs: seq<Job>, disk: seq<Job>, running: bool)

  predicate IsDue(job: Job, now: int) {
    job.enabled && job.next.Some? && job.next.value <= now
  }

  function DueIds(jobs: seq<Job>, now: int): seq<string> {
    if jobs == [] then []
    else
      var last := jobs[|jobs| - 1];
      DueIds(jobs[..|jobs| - 1], now) + if IsDue(last, now) then [last.id] else []
  }

  function ClearNext(jobs: seq<Job>, ids: set<string>): (r: seq<Job>) {
    seq(|jobs|, i requires 0 <= i < |jobs| => if jobs[i].id in ids then jobs[i].(next := None) else jobs[i])
  }

  function Recomputed(job: Job, now: int, tick: Tick): Job {
    if job.enabled then job.(next := ComputeNextRun(job.schedule, now, tick)) else job
  }

  function Recompute(jobs: seq<Job>, now: int, tick: Tick): seq<Job> {
    seq(|jobs|, i requires 0 <= i < |jobs| => Recomputed(jobs[i], now, tick))
  }

  function Without(jobs: seq<Job>, id: string): seq<Job> {
    if jobs == [] then []
    else
      var last := jobs[|jobs| - 1];
      Without(jobs[..|jobs| - 1], id) + if last.id != id then [last] else []
  }

  lemma {:induction false} WithoutNoLonger(jobs: seq<Job>, id: string)
    ensures |Without(jobs, id)| <= |jobs|
  {
    if jobs != [] {
      WithoutNoLonger(jobs[..|jobs| - 1], id);
    }
  }

  lemma {:induction false} WithoutShorter(jobs: seq<Job>, i: nat)
    requires i < |jobs|
    ensures |Without(jobs, jobs[i].id)| < |jobs|
  {
    var n := |jobs| - 1;
    if i < n {
      WithoutShorter(jobs[..n], i);
    } else {
      WithoutNoLonger(jobs[..n], jobs[i].id);
    }
  }

  /** The index of the first job with the given id, or the number of jobs. */
  function Find(jobs: seq<Job>, id: string): (i: nat)
    ensures i <= |jobs| && (i < |jobs| ==> jobs[i].id == id)
  {
    if jobs == [] then 0
    else if jobs[0].id == id then 0
    else 1 + Find(jobs[1..], id)
  }

  lemma {:induction false} FindFirst(jobs: seq<Job>, id: string)
    ensures forall k | 0 <= k < Find(jobs, id) :: jobs[k].id != id
  {
    if jobs != [] && jobs[0].id != id {
      FindFirst(jobs[1..], id);
    }
  }

  /** Replaces the jobs, and the file too when saving succeeds. */
  function Store(s: Service, jobs: seq<Job>, saved: bool): Service {
    s.(jobs := jobs, disk := if saved then jobs else s.disk)
  }

  function NewJob(id: string, schedule: Schedule, now: int, tick: Tick): Job {
    Job(id, true, schedule, ComputeNextRun(schedule, now, tick), None, Never, now, now, schedule.kind == "at")
  }

  function Added(s: Service, id: string, schedule: Schedule, now: int, tick: Tick, saved: bool): Service {
    Store(s, s.jobs + [NewJob(id, schedule, now, tick)], saved)
  }

  function Removed(s: Service, id: string, saved: bool): Service {
    var jobs := Without(s.jobs, id);
    if |jobs| < |s.jobs| then Store(s, jobs, saved) else s.(jobs := jobs)
  }

  function Switched(job: Job, on: bool, now: int, tick: Tick): Job {
    job.(enabled := on, updated := now, next := if on then ComputeNextRun(job.schedule, now, tick) else None)
  }

  function Enabled(s: Service, id: string, on: bool, now: int, tick: Tick, saved: bool): Service {
    var i := Find(s.jobs, id);
    if i == |s.jobs| then s else Store(s, s.jobs[i := Switched(s.jobs[i], on, now, tick)], saved)
  }

  /** Reading the file replaces the jobs; a file that cannot be read leaves none. */
  function Loaded(s: Service, readable: bool): Service {
    s.(jobs := if readable then s.disk else [])
  }

  function Started(s: Service, now: int, tick: Tick, readable: bool, saved: bool): Service {
    if s.running then s
    else if !readable then s.(jobs := [])
    else Store(s, Recompute(s.disk, now, tick), saved).(running := saved)
  }

  function Stopped(s: Service): Service {
    s.(running := false)
  }

  /** The jobs `checkJobs` takes over for execution. */
  function Collected(s: Service, now: int): seq<string> {
    if s.running then DueIds(s.jobs, now) else []
  }

  function AfterCollect(s: Service, now: int, saved: bool): Service {
    if s.running then Store(s, ClearNext(s.jobs, set id <- DueIds(s.jobs, now)), saved) else s
  }

  function Ran(job: Job, started: int, now: int, outcome: Status, tick: Tick): Job {
    var job := job.(last := Some(started), updated := now, status := outcome);
    if job.schedule.kind == "at" then job.(enabled := false, next := None)
    else job.(next := ComputeNextRun(job.schedule, now, tick))
  }

  /** Whether a job is removed when its handler has returned. */
  predicate Drops(s: Service, id: string) {
    var i := Find(s.jobs, id);
    i < |s.jobs| && s.jobs[i].schedule.kind == "at" && s.jobs[i].deleteAfterRun
  }

  /** The state update after the handler returned; an "at" job marked for deletion is dropped. */
  function Finished(s: Service, id: string, started: int, now: int, outcome: Status, tick: Tick, saved: bool): Service {
    var i := Find(s.jobs, id);
    if i == |s.jobs| then s
    else if Drops(s, id) then Store(s, Without(s.jobs, id), saved)
    else Store(s, s.jobs[i := Ran(s.jobs[i], started, now, outcome, tick)], saved)
  }
}
