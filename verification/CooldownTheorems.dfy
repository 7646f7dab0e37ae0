/** What a provider's cooldown says about its history. */
module CooldownTheorems {
  import opened Text
  import opened Cooldown

  // ----- counters

  lemma LastFailureTime(events: seq<Event>, window: int)
    requires events != [] && events[|events| - 1].Failure?
    ensures State(events, window).lastFailure == Some(events[|events| - 1].time)
  {
  }

  lemma FailuresStep(events: seq<Event>, k: nat, r: Reason)
    requires k < |events| && events[|events| - 1].Failure?
    ensures FailuresFor(events[k..], r)
         == FailuresFor(events[..|events| - 1][k..], r) + if events[|events| - 1].reason == r then 1 else 0
  {
    var tail := events[k..];
    assert tail[..|tail| - 1] == events[..|events| - 1][k..];
  }

  lemma CountedBy(e: Entry, reason: Reason, now: int, window: int, r: Reason)
    ensures var reset := e.lastFailure.Some? && now - e.lastFailure.value > window;
            var e' := Fail(e, reason, now, window);
            && e'.errorCount == (if reset then 0 else e.errorCount) + 1
            && Count(e'.counts, r) == (if reset then 0 else Count(e.counts, r)) + if reason == r then 1 else 0
  {
    var c := Counted(e, reason, now, window);
  }

  ghost predicate Resets(e: Entry, now: int, window: int) {
    e.lastFailure.Some? && now - e.lastFailure.value > window
  }

  /** The code's test for starting afresh finds the streak's start. */
  lemma StreakStep(events: seq<Event>, window: int)
    requires events != [] && events[|events| - 1].Failure?
    ensures var n := |events| - 1;
            StreakStart(events, window) ==
              if Resets(State(events[..n], window), events[n].time, window) then n else StreakStart(events[..n], window)
  {
    var n := |events| - 1;
    if StreakStart(events[..n], window) < n {
      LastFailureTime(events[..n], window);
    }
  }

  lemma CountersStep(events: seq<Event>, window: int, r: Reason)
    requires events != [] && events[|events| - 1].Failure?
    requires var front := events[..|events| - 1];
             var e := State(front, window);
             && e.errorCount == |front| - StreakStart(front, window)
             && Count(e.counts, r) == FailuresFor(front[StreakStart(front, window)..], r)
    ensures var k := StreakStart(events, window);
            var e := Fail(State(events[..|events| - 1], window), events[|events| - 1].reason,
                          events[|events| - 1].time, window);
            e.errorCount == |events| - k && Count(e.counts, r) == FailuresFor(events[k..], r)
  {
    var n := |events| - 1;
    StreakStep(events, window);
    CountedBy(State(events[..n], window), events[n].reason, events[n].time, window, r);
    FailuresStep(events, StreakStart(events, window), r);
  }

  /** The counters count the failures of the current streak, in all and by reason. */
  lemma {:induction false} CountersMatchStreak(events: seq<Event>, window: int, r: Reason)
    ensures var k := StreakStart(events, window);
            var e := State(events, window);
            e.errorCount == |events| - k && Count(e.counts, r) == FailuresFor(events[k..], r)
  {
    if events != [] && events[|events| - 1].Failure? {
      CountersMatchStreak(events[..|events| - 1], window, r);
      CountersStep(events, window, r);
    }
  }

  function Total(counts: map<Reason, nat>): nat {
    Count(counts, Auth) + Count(counts, RateLimit) + Count(counts, Billing) + Count(counts, Timeout)
    + Count(counts, Format) + Count(counts, Overloaded) + Count(counts, Unknown)
  }

  lemma TotalOfFail(e: Entry, reason: Reason, now: int, window: int)
    requires e.errorCount == Total(e.counts)
    ensures var e' := Fail(e, reason, now, window); e'.errorCount == Total(e'.counts)
  {
    CountedBy(e, reason, now, window, Auth);
    CountedBy(e, reason, now, window, RateLimit);
    CountedBy(e, reason, now, window, Billing);
    CountedBy(e, reason, now, window, Timeout);
    CountedBy(e, reason, now, window, Format);
    CountedBy(e, reason, now, window, Overloaded);
    CountedBy(e, reason, now, window, Unknown);
  }

  /** The error count is the sum of the counts by reason. */
  lemma {:induction false} ErrorCountIsTotal(events: seq<Event>, window: int)
    ensures State(events, window).errorCount == Total(State(events, window).counts)
  {
    if events != [] {
      var last := events[|events| - 1];
      ErrorCountIsTotal(events[..|events| - 1], window);
      if last.Failure? {
        TotalOfFail(State(events[..|events| - 1], window), last.reason, last.time, window);
      }
    }
  }

  /** A provider is disabled for billing, and for nothing else. */
  lemma {:induction false} DisabledForBilling(events: seq<Event>, window: int)
    ensures var e := State(events, window);
            e.disabledReason == if e.disabledUntil.Some? then Some(Billing) else None
  {
    if events != [] {
      DisabledForBilling(events[..|events| - 1], window);
    }
  }

  // ----- deadlines

  lemma PowValues(n: nat)
    ensures Pow(5, 0) == 1 && Pow(5, 1) == 5 && Pow(5, 2) == 25 && Pow(5, 3) == 125
    ensures Pow(2, 0) == 1 && Pow(2, 1) == 2 && Pow(2, 2) == 4
    ensures n >= 3 ==> Pow(2, n) >= 8
  {
    if n > 3 {
      PowValues(n - 1);
    }
  }

  /** The documented table of the standard backoff. */
  lemma StandardTable(n: int)
    ensures StandardCooldown(n) ==
            if n <= 1 then MINUTE else if n == 2 then 5 * MINUTE else if n == 3 then 25 * MINUTE else HOUR
  {
    PowValues(3);
  }

  /** The documented table of the billing backoff. */
  lemma BillingTable(n: int)
    ensures BillingCooldown(n) ==
            if n <= 1 then 5 * HOUR else if n == 2 then 10 * HOUR else if n == 3 then 20 * HOUR else 24 * HOUR
  {
    PowValues(Min(Max(1, n) - 1, 10));
  }

  /** Deadlines are bounded by the backoff that the current counters call for. */
  ghost predicate Bounded(e: Entry) {
    && (e.cooldownEnd.Some? ==>
          e.lastFailure.Some? && e.cooldownEnd.value <= e.lastFailure.value + StandardCooldown(e.errorCount))
    && (e.disabledUntil.Some? ==>
          e.lastFailure.Some?
          && e.disabledUntil.value <= e.lastFailure.value + BillingCooldown(Count(e.counts, Billing)))
  }

  ghost predicate NoEarlier(a: Option<int>, b: Option<int>) {
    a.Some? ==> b.Some? && a.value <= b.value
  }

  /** The shortest window that keeps deadlines from moving back: the billing cap less its first backoff. */
  const SAFE_WINDOW := 19 * HOUR - 1

  lemma FailKeepsBounded(e: Entry, reason: Reason, now: int, window: int)
    requires Bounded(e) && window >= SAFE_WINDOW
    requires e.lastFailure.Some? ==> e.lastFailure.value <= now
    ensures var e' := Fail(e, reason, now, window);
            Bounded(e') && NoEarlier(e.cooldownEnd, e'.cooldownEnd) && NoEarlier(e.disabledUntil, e'.disabledUntil)
  {
    var e' := Fail(e, reason, now, window);
    StandardTable(e.errorCount);
    StandardTable(e'.errorCount);
    BillingTable(Count(e.counts, Billing));
    BillingTable(Count(e'.counts, Billing));
  }

  /** Failures happen in the order of a clock that does not go back. */
  ghost predicate Ordered(events: seq<Event>) {
    forall i, k | 0 <= i < k < |events| && events[i].Failure? && events[k].Failure? :: events[i].time <= events[k].time
  }

  lemma {:induction false} StateBounded(events: seq<Event>, window: int)
    requires Ordered(events) && window >= SAFE_WINDOW
    ensures var e := State(events, window);
            && Bounded(e)
            && (e.lastFailure.Some? ==>
                  exists i :: 0 <= i < |events| && events[i].Failure? && events[i].time == e.lastFailure.value)
  {
    if events != [] {
      var n := |events| - 1;
      var front := events[..n];
      assert forall i | 0 <= i < n :: front[i] == events[i];
      StateBounded(front, window);
      if events[n].Failure? {
        FailKeepsBounded(State(front, window), events[n].reason, events[n].time, window);
      }
    }
  }

  lemma NextFailureLater(events: seq<Event>, window: int, reason: Reason, time: int)
    requires Ordered(events + [Failure(reason, time)]) && window >= SAFE_WINDOW
    ensures var e := State(events, window);
            var e' := State(events + [Failure(reason, time)], window);
            NoEarlier(e.cooldownEnd, e'.cooldownEnd) && NoEarlier(e.disabledUntil, e'.disabledUntil)
  {
    var longer := events + [Failure(reason, time)];
    assert forall i | 0 <= i < |events| :: longer[i] == events[i];
    assert longer[..|events|] == events && longer[|events|].time == time;
    StateBounded(events, window);
    FailKeepsBounded(State(events, window), reason, time, window);
  }

  /** As long as nothing succeeds, neither deadline of a provider ever moves to an earlier time. */
  lemma {:induction false} DeadlinesNeverMoveBack(events: seq<Event>, window: int, k: nat, n: nat)
    requires Ordered(events) && window >= SAFE_WINDOW && k <= n <= |events|
    requires forall i | k <= i < n :: events[i].Failure?
    ensures var e, e' := State(events[..k], window), State(events[..n], window);
            NoEarlier(e.cooldownEnd, e'.cooldownEnd) && NoEarlier(e.disabledUntil, e'.disabledUntil)
    decreases n
  {
    if k < n {
      DeadlinesNeverMoveBack(events, window, k, n - 1);
      var last := events[n - 1];
      assert events[..n] == events[..n - 1] + [Failure(last.reason, last.time)];
      NextFailureLater(events[..n - 1], window, last.reason, last.time);
    }
  }

  ghost predicate NeverMovesBack(window: int) {
    forall events: seq<Event>, reason, time | Ordered(events + [Failure(reason, time)]) ::
      var e := State(events, window);
      var e' := State(events + [Failure(reason, time)], window);
      NoEarlier(e.cooldownEnd, e'.cooldownEnd) && NoEarlier(e.disabledUntil, e'.disabledUntil)
  }

  /** `n` billing failures at once. */
  ghost function Burst(n: nat): seq<Event> {
    seq(n, _ => Failure(Billing, 0))
  }

  lemma {:induction false} AfterBurst(n: nat, window: nat)
    requires n > 0
    ensures var e := State(Burst(n), window);
            && Count(e.counts, Billing) == n && e.lastFailure == Some(0)
            && e.disabledUntil == Some(BillingCooldown(n))
  {
    assert Burst(n)[..n - 1] == Burst(n - 1);
    if n > 1 {
      AfterBurst(n - 1, window);
    }
    CountedBy(State(Burst(n - 1), window), Billing, 0, window, Billing);
  }

  /** Deadlines only move forward exactly when the window is at least an hour short of twenty, less a tick. */
  lemma NeverMovesBackIff(window: nat)
    ensures NeverMovesBack(window) <==> window >= SAFE_WINDOW
  {
    if window >= SAFE_WINDOW {
      forall events: seq<Event>, reason, time | Ordered(events + [Failure(reason, time)])
        ensures var e := State(events, window);
                var e' := State(events + [Failure(reason, time)], window);
                NoEarlier(e.cooldownEnd, e'.cooldownEnd) && NoEarlier(e.disabledUntil, e'.disabledUntil)
      {
        NextFailureLater(events, window, reason, time);
      }
    } else {
      AfterBurst(4, window);
      BillingTable(4);
      BillingTable(1);
      var longer := Burst(4) + [Failure(Billing, window + 1)];
      assert Ordered(longer);
      assert longer[..4] == Burst(4);
      CountedBy(State(Burst(4), window), Billing, window + 1, window, Billing);
      assert State(longer, window).disabledUntil == Some(window + 1 + 5 * HOUR);
    }
  }

  // ----- availability

  /** When the backoff that failure `i` called for ends. */
  ghost function Deadline(events: seq<Event>, i: nat, window: int): int
    requires i < |events| && events[i].Failure?
  {
    var upTo := events[..i + 1];
    var k := StreakStart(upTo, window);
    events[i].time +
      if events[i].reason == Billing then BillingCooldown(FailuresFor(upTo[k..], Billing))
      else StandardCooldown(i + 1 - k)
  }

  ghost predicate SinceSuccess(events: seq<Event>, i: int) {
    0 <= i < |events| && forall k | i <= k < |events| :: events[k].Failure?
  }

  /** Failure `i` came after the last success and sets the billing deadline, or the other one. */
  ghost predicate Sets(events: seq<Event>, i: int, billing: bool) {
    SinceSuccess(events, i) && (events[i].reason == Billing) == billing
  }

  /** `d` is the latest of the deadlines set, for billing or for other reasons, since the last success. */
  ghost predicate IsLatest(d: Option<int>, events: seq<Event>, billing: bool, window: int) {
    && (d.Some? ==> exists i :: Sets(events, i, billing) && Deadline(events, i, window) == d.value)
    && (forall i | Sets(events, i, billing) :: d.Some? && Deadline(events, i, window) <= d.value)
  }

  lemma SetsInFront(events: seq<Event>, i: nat, billing: bool, window: int)
    requires i < |events| - 1 && events[|events| - 1].Failure?
    ensures var front := events[..|events| - 1];
            && (Sets(front, i, billing) <==> Sets(events, i, billing))
            && (Sets(events, i, billing) ==> Deadline(front, i, window) == Deadline(events, i, window))
  {
    var front := events[..|events| - 1];
    assert forall k | 0 <= k < |front| :: front[k] == events[k];
    assert front[..i + 1] == events[..i + 1];
  }

  lemma LastDeadline(events: seq<Event>, window: int)
    requires events != [] && events[|events| - 1].Failure?
    ensures var e := State(events, window);
            var d := Deadline(events, |events| - 1, window);
            if events[|events| - 1].reason == Billing then e.disabledUntil == Some(d) else e.cooldownEnd == Some(d)
  {
    assert events[..|events|] == events;
    CountersMatchStreak(events, window, Billing);
  }

  lemma LatestStep(events: seq<Event>, window: int, billing: bool, d: Option<int>, d': Option<int>)
    requires events != [] && events[|events| - 1].Failure?
    requires IsLatest(d, events[..|events| - 1], billing, window)
    requires if (events[|events| - 1].reason == Billing) == billing
             then d' == Some(Deadline(events, |events| - 1, window)) && NoEarlier(d, d')
             else d' == d
    ensures IsLatest(d', events, billing, window)
  {
    var n := |events| - 1;
    var front := events[..n];
    forall i | Sets(events, i, billing)
      ensures d'.Some? && Deadline(events, i, window) <= d'.value
    {
      if i < n {
        SetsInFront(events, i, billing, window);
      }
    }
    if d' == d && d.Some? {
      var i :| Sets(front, i, billing) && Deadline(front, i, window) == d.value;
      SetsInFront(events, i, billing, window);
      assert Sets(events, i, billing);
    } else {
      assert d'.Some? ==> Sets(events, n, billing);
    }
  }

  lemma {:induction false} DeadlinesAreLatest(events: seq<Event>, window: int)
    requires Ordered(events) && window >= SAFE_WINDOW
    ensures var e := State(events, window);
            IsLatest(e.disabledUntil, events, true, window) && IsLatest(e.cooldownEnd, events, false, window)
  {
    if events != [] && events[|events| - 1].Failure? {
      var n := |events| - 1;
      var last := events[n];
      var front := events[..n];
      assert forall i | 0 <= i < n :: front[i] == events[i];
      DeadlinesAreLatest(front, window);
      assert events == front + [Failure(last.reason, last.time)];
      NextFailureLater(front, window, last.reason, last.time);
      LastDeadline(events, window);
      var e, e' := State(front, window), State(events, window);
      LatestStep(events, window, true, e.disabledUntil, e'.disabledUntil);
      LatestStep(events, window, false, e.cooldownEnd, e'.cooldownEnd);
    }
  }

  /** The backoff of every failure since the last success is over. */
  ghost predicate BackoffsOver(events: seq<Event>, window: int, now: int) {
    forall i | SinceSuccess(events, i) :: Deadline(events, i, window) <= now
  }

  /** A provider is available exactly when the backoff of every failure since the last success is over. */
  lemma AvailableIffBackoffsOver(events: seq<Event>, window: int, now: int)
    requires Ordered(events) && window >= SAFE_WINDOW
    ensures Available(State(events, window), now) <==> BackoffsOver(events, window, now)
  {
    DeadlinesAreLatest(events, window);
    assert forall i | SinceSuccess(events, i) :: Sets(events, i, events[i].reason == Billing);
  }
}
