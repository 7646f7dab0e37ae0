/** No dispatch is begun twice: a dispatched job waits in its goroutine's queue until its handler is called. */
module CronBegins {
  import opened Text
  import opened Cron
  import opened CronRuns

  function Ids(events: seq<Event>): (ids: seq<string>)
    ensures |ids| == |events| && forall i | 0 <= i < |events| :: ids[i] == events[i].id
  {
    seq(|events|, i requires 0 <= i < |events| => events[i].id)
  }

  /** How often `id` waits in the queues. */
  ghost function Waits(workers: seq<Worker>, id: string): nat {
    if workers == [] then 0 else multiset(workers[0].queue)[id] + Waits(workers[1..], id)
  }

  lemma {:induction false} WaitsUpdate(workers: seq<Worker>, w: nat, worker: Worker, id: string)
    requires w < |workers|
    ensures Waits(workers[w := worker], id) + multiset(workers[w].queue)[id]
         == Waits(workers, id) + multiset(worker.queue)[id]
  {
    var updated := workers[w := worker];
    if w > 0 {
      WaitsUpdate(workers[1..], w - 1, worker, id);
      assert updated[1..] == workers[1..][w - 1 := worker];
    } else {
      assert updated[1..] == workers[1..];
    }
  }

  lemma {:induction false} WaitsAppend(workers: seq<Worker>, w: Worker, id: string)
    requires w.queue == []
    ensures Waits(workers + [w], id) == Waits(workers, id)
  {
    if workers != [] {
      WaitsAppend(workers[1..], w, id);
      assert (workers + [w])[1..] == workers[1..] + [w];
    }
  }

  /** The dispatches of the job that were neither begun nor still wait. */
  ghost function Missing(s: System, id: string): int {
    multiset(Ids(s.dispatched))[id] - multiset(Ids(s.begun))[id] - Waits(s.workers, id)
  }

  /** Whatever was begun or still waits was dispatched, each dispatch counted once. */
  ghost predicate Accounted(s: System) {
    forall id :: Missing(s, id) >= 0
  }

  lemma IdsAppend(a: seq<Event>, b: seq<Event>, id: string)
    ensures multiset(Ids(a + b))[id] == multiset(Ids(a))[id] + multiset(Ids(b))[id]
  {
    assert Ids(a + b) == Ids(a) + Ids(b);
  }

  lemma CollectAccounted(s: System, step: Step, tick: Tick, id: string)
    requires CanStep(s, step) && step.Collect?
    ensures Missing(Do(s, step, tick), id) == Missing(s, id)
  {
    var ids := Collected(s.service, step.now);
    WaitsUpdate(s.workers, step.w, Worker(ids, None), id);
    IdsAppend(s.dispatched, Events(ids, step.now), id);
    assert Ids(Events(ids, step.now)) == ids;
  }

  /** A goroutine comes to the job in its queue, and the job is not in the store. */
  ghost predicate Skips(s: System, step: Step, id: string)
    requires CanStep(s, step)
  {
    step.Begin? && s.workers[step.w].queue[0] == id && forall j <- s.service.jobs :: j.id != id
  }

  /** Taking the next job from a queue calls its handler if the job is in the store, and otherwise skips it. */
  lemma BeginMisses(s: System, step: Step, tick: Tick, id: string)
    requires CanStep(s, step) && step.Begin?
    ensures Missing(Do(s, step, tick), id) == Missing(s, id) + if Skips(s, step, id) then 1 else 0
  {
    var queue := s.workers[step.w].queue;
    FindFirst(s.service.jobs, queue[0]);
    WaitsUpdate(s.workers, step.w, Do(s, step, tick).workers[step.w], id);
    assert queue == [queue[0]] + queue[1..];
    IdsAppend(s.begun, [Event(queue[0], step.now)], id);
    assert Ids([Event(queue[0], step.now)]) == [queue[0]];
  }

  lemma StepMisses(s: System, step: Step, tick: Tick, id: string)
    requires CanStep(s, step)
    ensures Missing(Do(s, step, tick), id) == Missing(s, id) + if Skips(s, step, id) then 1 else 0
  {
    match step
    case Start(_, _, _) =>
      WaitsAppend(s.workers, Worker([], None), id);
      assert s.workers + [] == s.workers;
    case Collect(_, _, _) => CollectAccounted(s, step, tick, id);
    case Begin(_, _) => BeginMisses(s, step, tick, id);
    case End(w, _, _, _) => WaitsUpdate(s.workers, w, s.workers[w].(current := None), id);
    case _ =>
  }

  lemma StepKeepsAccounted(s: System, step: Step, tick: Tick)
    requires Accounted(s) && CanStep(s, step)
    ensures Accounted(Do(s, step, tick))
  {
    forall id
      ensures Missing(Do(s, step, tick), id) >= 0
    {
      StepMisses(s, step, tick, id);
    }
  }

  lemma {:induction false} RunKeepsAccounted(s: System, steps: seq<Step>, tick: Tick)
    requires Accounted(s) && CanRun(s, steps, tick)
    ensures Accounted(Run(s, steps, tick))
    decreases |steps|
  {
    if steps != [] {
      StepKeepsAccounted(s, steps[0], tick);
      RunKeepsAccounted(Do(s, steps[0], tick), steps[1..], tick);
    }
  }

  /** Whenever a goroutine comes to the job in its queue, the job is in the store. */
  ghost predicate NeverSkips(s: System, steps: seq<Step>, id: string, tick: Tick)
    requires CanRun(s, steps, tick)
    decreases |steps|
  {
    steps == [] || (!Skips(s, steps[0], id) && NeverSkips(Do(s, steps[0], tick), steps[1..], id, tick))
  }

  /**
   * No dispatch is lost, that is, each leads to a call of the job's handler or still waits in a queue, exactly
   * when the job is in the store whenever its turn comes.
   */
  lemma {:induction false} NoDispatchLostIff(s: System, steps: seq<Step>, tick: Tick, id: string)
    requires CanRun(s, steps, tick)
    ensures Missing(s, id) <= Missing(Run(s, steps, tick), id)
    ensures Missing(s, id) == Missing(Run(s, steps, tick), id) <==> NeverSkips(s, steps, id, tick)
    decreases |steps|
  {
    if steps != [] {
      StepMisses(s, steps[0], tick, id);
      NoDispatchLostIff(Do(s, steps[0], tick), steps[1..], tick, id);
    }
  }

  lemma TwiceInSeq(ids: seq<string>, i: nat, k: nat)
    requires i < k < |ids| && ids[i] == ids[k]
    ensures multiset(ids)[ids[k]] >= 2
  {
    assert ids == ids[..k] + [ids[k]] + ids[k + 1..];
    assert ids[..k][i] == ids[k];
  }

  lemma {:induction false} InSeqTwice(ids: seq<string>, id: string) returns (i: nat, k: nat)
    requires multiset(ids)[id] >= 2
    ensures i < k < |ids| && ids[i] == ids[k] == id
  {
    var n := |ids| - 1;
    assert ids == ids[..n] + [ids[n]];
    if ids[n] == id {
      k := n;
      assert id in multiset(ids[..n]);
      i :| 0 <= i < n && ids[..n][i] == id;
    } else {
      i, k := InSeqTwice(ids[..n], id);
    }
  }

  /** In every run the handler of an "at" job is called at most once. */
  lemma AtJobRunsOnce(s: System, steps: seq<Step>, tick: Tick)
    requires Init(s) && TicksAhead(tick) && CanRun(s, steps, tick) && SafeRun(s, steps, tick)
    ensures var end := Run(s, steps, tick);
            forall i, k | 0 <= i < k < |end.begun| && end.begun[i].id == end.begun[k].id ::
              end.begun[i].id in end.born && end.born[end.begun[i].id].kind != "at"
  {
    var end := Run(s, steps, tick);
    RunKeepsInv(s, steps, tick);
    RunKeepsAccounted(s, steps, tick);
    forall i, k | 0 <= i < k < |end.begun| && end.begun[i].id == end.begun[k].id
      ensures end.begun[i].id in end.born && end.born[end.begun[i].id].kind != "at"
    {
      var id := end.begun[i].id;
      TwiceInSeq(Ids(end.begun), i, k);
      assert Missing(end, id) >= 0;
      var a, b := InSeqTwice(Ids(end.dispatched), id);
      assert end.dispatched[a] in end.dispatched;
    }
  }
}
