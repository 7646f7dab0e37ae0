/**
 * A provider's cooldown as a function of its history of failures and successes. Times and durations are
 * in nanoseconds; `None` is Go's zero time.
 */
module Cooldown {
  import opened Text

  datatype Reason = Auth | RateLimit | Billing | Timeout | Format | Overloaded | Unknown

  const MILLISECOND := 1_000_000
  const MINUTE := 60_000 * MILLISECOND
  const HOUR := 60 * MINUTE
  const FAILURE_WINDOW := 24 * HOUR

  datatype Entry = Entry(
    errorCount: nat, counts: map<Reason, nat>,
    cooldownEnd: Option<int>, disabledUntil: Option<int>, disabledReason: Option<Reason>,
    lastFailure: Option<int>)

  const EMPTY := Entry(0, map[], None, None, None, None)

  function Pow(b: nat, e: nat): nat {
    if e == 0 then 1 else b * Pow(b, e - 1)
  }

  function StandardCooldown(errorCount: int): int {
    var n := Max(1, errorCount);
    var exp := Min(n - 1, 3);
    Min(3_600_000, 60_000 * Pow(5, exp)) * MILLISECOND
  }

  function BillingCooldown(billingCount: int): int {
    var n := Max(1, billingCount);
    var exp := Min(n - 1, 10);
    Min(24 * 60 * 60 * 1000, 5 * 60 * 60 * 1000 * Pow(2, exp)) * MILLISECOND
  }

  function Count(counts: map<Reason, nat>, r: Reason): nat {
    if r in counts then counts[r] else 0
  }

  /** A failure is counted; a gap longer than the window starts the counters afresh. */
  function Counted(e: Entry, reason: Reason, now: int, window: int): Entry {
    var reset := e.lastFailure.Some? && now - e.lastFailure.value > window;
    var before := if reset then map[] else e.counts;
    e.(errorCount := (if reset then 0 else e.errorCount) + 1,
       counts := before[reason := Count(before, reason) + 1],
       lastFailure := Some(now))
  }

  /** The entry after a failure. */
  function Fail(e: Entry, reason: Reason, now: int, window: int): Entry {
    var e := Counted(e, reason, now, window);
    if reason == Billing then
      e.(disabledUntil := Some(now + BillingCooldown(Count(e.counts, Billing))), disabledReason := Some(Billing))
    else
      e.(cooldownEnd := Some(now + StandardCooldown(e.errorCount)))
  }

  /** The entry after a success; the time of the last failure stays. */
  function Succeed(e: Entry): Entry {
    Entry(0, map[], None, None, None, e.lastFailure)
  }

  predicate Before(now: int, deadline: Option<int>) {
    deadline.Some? && now < deadline.value
  }

  predicate Available(e: Entry, now: int) {
    !Before(now, e.disabledUntil) && !Before(now, e.cooldownEnd)
  }

  function Remaining(e: Entry, now: int): int {
    var disabled := if Before(now, e.disabledUntil) then e.disabledUntil.value - now else 0;
    var cooling := if Before(now, e.cooldownEnd) then e.cooldownEnd.value - now else 0;
    Max(disabled, cooling)
  }

  /** The remaining time is the least wait after which the provider is available. */
  lemma RemainingIsLeastWait(e: Entry, now: int)
    ensures Remaining(e, now) == 0 <==> Available(e, now)
    ensures Available(e, now + Remaining(e, now))
    ensures forall t | now <= t < now + Remaining(e, now) :: !Available(e, t)
  {
  }

  // ----- histories

  datatype Event = Failure(reason: Reason, time: int) | Success

  /** The entry after a history of events. */
  function State(events: seq<Event>, window: int): Entry {
    if events == [] then EMPTY
    else
      var e := State(events[..|events| - 1], window);
      match events[|events| - 1]
      case Failure(reason, time) => Fail(e, reason, time, window)
      case Success => Succeed(e)
  }

  /** From `k` on there are only failures, none more than `window` after the one before it. */
  ghost predicate Unbroken(events: seq<Event>, k: int, window: int) {
    && 0 <= k
    && (forall i | k <= i < |events| :: events[i].Failure?)
    && (forall i | k < i < |events| :: events[i].time - events[i - 1].time <= window)
  }

  /** Where the longest unbroken run of failures at the end of a history starts. */
  ghost function StreakStart(events: seq<Event>, window: int): (k: nat)
    ensures k <= |events|
  {
    if events == [] || events[|events| - 1].Success? then |events|
    else
      var n := |events| - 1;
      var k := StreakStart(events[..n], window);
      if k < n && events[n - 1].Failure? && events[n].time - events[n - 1].time > window then n else k
  }

  lemma UnbrokenStep(events: seq<Event>, k: int, window: int)
    requires events != [] && events[|events| - 1].Failure? && k < |events|
    ensures var n := |events| - 1;
            Unbroken(events, k, window) <==>
              Unbroken(events[..n], k, window) && (k < n ==> events[n].time - events[n - 1].time <= window)
  {
    assert forall i | 0 <= i < |events| - 1 :: events[..|events| - 1][i] == events[i];
  }

  lemma {:induction false} StreakIsLongest(events: seq<Event>, window: int)
    ensures var k := StreakStart(events, window);
            Unbroken(events, k, window) && !Unbroken(events, k - 1, window)
  {
    if events != [] && events[|events| - 1].Failure? {
      var n := |events| - 1;
      var k: int := StreakStart(events, window);
      StreakIsLongest(events[..n], window);
      UnbrokenStep(events, k, window);
      UnbrokenStep(events, k - 1, window);
    }
  }

  ghost function FailuresFor(events: seq<Event>, r: Reason): nat {
    if events == [] then 0
    else
      var last := events[|events| - 1];
      FailuresFor(events[..|events| - 1], r) + if last.Failure? && last.reason == r then 1 else 0
  }
}
