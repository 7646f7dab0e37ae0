/** The tracker: an entry per provider, created at its first failure. */
module CooldownTracking {
  import opened Text
  import opened Cooldown
  import opened CooldownTheorems

  function Lookup(entries: map<string, Entry>, provider: string): Entry {
    if provider in entries then entries[provider] else EMPTY
  }

  /** The events of one provider in a log of all providers' events. */
  ghost function EventsOf(log: seq<(string, Event)>, provider: string): seq<Event> {
    if log == [] then []
    else
      var last := log[|log| - 1];
      EventsOf(log[..|log| - 1], provider) + if last.0 == provider then [last.1] else []
  }

  lemma EventsOfAppend(log: seq<(string, Event)>, p: string, event: Event, provider: string)
    ensures EventsOf(log + [(p, event)], provider)
         == EventsOf(log, provider) + if p == provider then [event] else []
  {
    assert (log + [(p, event)])[..|log|] == log;
  }

  /** Every provider's entry is the one its history leads to. */
  ghost predicate Tracks(entries: map<string, Entry>, log: seq<(string, Event)>, window: int) {
    forall p :: Lookup(entries, p) == State(EventsOf(log, p), window)
  }

  lemma TracksNext(entries: map<string, Entry>, entries': map<string, Entry>, log: seq<(string, Event)>,
                   p: string, event: Event, window: int)
    requires Tracks(entries, log, window)
    requires Lookup(entries', p) == match event
             case Failure(reason, time) => Fail(Lookup(entries, p), reason, time, window)
             case Success => Succeed(Lookup(entries, p))
    requires forall q | q != p :: Lookup(entries', q) == Lookup(entries, q)
    ensures Tracks(entries', log + [(p, event)], window)
  {
    forall q
      ensures Lookup(entries', q) == State(EventsOf(log + [(p, event)], q), window)
    {
      EventsOfAppend(log, p, event, q);
      var before, after := EventsOf(log, q), EventsOf(log + [(p, event)], q);
      if q == p {
        assert after[..|after| - 1] == before;
      } else {
        assert after == before;
      }
    }
  }

  /** Counts a failure in the provider's entry. */
  method CountFailure(e: Entry, reason: Reason, now: int, failureWindow: int) returns (entry: Entry)
    ensures entry == Counted(e, reason, now, failureWindow)
  {
    entry := e;
    if entry.lastFailure.Some? && now - entry.lastFailure.value > failureWindow {
      entry := entry.(errorCount := 0, counts := map[]);
    }
    entry := entry.(errorCount := entry.errorCount + 1);
    entry := entry.(counts := entry.counts[reason := Count(entry.counts, reason) + 1]);
    entry := entry.(lastFailure := Some(now));
  }

  /** The updates `MarkFailure` makes to the provider's entry. */
  method RecordFailure(e: Entry, reason: Reason, now: int, failureWindow: int) returns (entry: Entry)
    ensures entry == Fail(e, reason, now, failureWindow)
  {
    entry := CountFailure(e, reason, now, failureWindow);
    if reason == Billing {
      var billingCount := Count(entry.counts, Billing);
      entry := entry.(disabledUntil := Some(now + BillingCooldown(billingCount)));
      entry := entry.(disabledReason := Some(Billing));
    } else {
      entry := entry.(cooldownEnd := Some(now + StandardCooldown(entry.errorCount)));
    }
  }

  class CooldownTracker {
    var entries: map<string, Entry>
    const failureWindow: int
    /** What has been recorded so far. */
    ghost var log: seq<(string, Event)>

    ghost predicate Valid()
      reads this
    {
      Tracks(entries, log, failureWindow)
    }

    constructor ()
      ensures Valid() && entries == map[] && log == [] && failureWindow == 24 * HOUR >= SAFE_WINDOW
    {
      entries, log, failureWindow := map[], [], FAILURE_WINDOW;
    }

    method MarkFailure(provider: string, reason: Reason, now: int)
      requires Valid()
      modifies this
      ensures Valid() && log == old(log) + [(provider, Failure(reason, now))]
      ensures entries == old(entries)[provider := Fail(Lookup(old(entries), provider), reason, now, failureWindow)]
    {
      var entry := GetOrCreate(provider);
      entry := RecordFailure(entry, reason, now, failureWindow);
      entries := entries[provider := entry];
      log := log + [(provider, Failure(reason, now))];
      TracksNext(old(entries), entries, old(log), provider, Failure(reason, now), failureWindow);
    }

    method GetOrCreate(provider: string) returns (entry: Entry)
      modifies this`entries
      ensures entry == Lookup(old(entries), provider)
      ensures entries == old(entries)[provider := entry]
    {
      if provider !in entries {
        entries := entries[provider := EMPTY];
      }
      entry := entries[provider];
    }

    method MarkSuccess(provider: string)
      requires Valid()
      modifies this
      ensures Valid() && log == old(log) + [(provider, Success)]
      ensures entries == if provider in old(entries)
                         then old(entries)[provider := Succeed(old(entries)[provider])] else old(entries)
    {
      if provider in entries {
        var entry := entries[provider];
        entry := entry.(errorCount := 0, counts := map[], cooldownEnd := None);
        entry := entry.(disabledUntil := None, disabledReason := None);
        entries := entries[provider := entry];
      }
      log := log + [(provider, Success)];
      TracksNext(old(entries), entries, old(log), provider, Success, failureWindow);
    }

    /** The entry of a provider is the one its history leads to, and so is its availability. */
    lemma RecordedAvailability(provider: string, now: int)
      requires Valid()
      ensures failureWindow >= SAFE_WINDOW && Ordered(EventsOf(log, provider)) ==>
        (Available(Lookup(entries, provider), now) <==> BackoffsOver(EventsOf(log, provider), failureWindow, now))
    {
      assert Lookup(entries, provider) == State(EventsOf(log, provider), failureWindow);
      if failureWindow >= SAFE_WINDOW && Ordered(EventsOf(log, provider)) {
        AvailableIffBackoffsOver(EventsOf(log, provider), failureWindow, now);
      }
    }

    method IsAvailable(provider: string, now: int) returns (available: bool)
      requires Valid()
      ensures available == Available(Lookup(entries, provider), now)
      ensures failureWindow >= SAFE_WINDOW && Ordered(EventsOf(log, provider)) ==>
        (available <==> BackoffsOver(EventsOf(log, provider), failureWindow, now))
    {
      RecordedAvailability(provider, now);
      if provider !in entries {
        return true;
      }
      var entry := entries[provider];
      if entry.disabledUntil.Some? && now < entry.disabledUntil.value {
        return false;
      }
      if entry.cooldownEnd.Some? && now < entry.cooldownEnd.value {
        return false;
      }
      return true;
    }

    method CooldownRemaining(provider: string, now: int) returns (remaining: int)
      ensures remaining == Remaining(Lookup(entries, provider), now)
      ensures remaining >= 0 && Available(Lookup(entries, provider), now + remaining)
      ensures forall t | now <= t < now + remaining :: !Available(Lookup(entries, provider), t)
    {
      remaining := 0;
      RemainingIsLeastWait(Lookup(entries, provider), now);
      if provider !in entries {
        return;
      }
      var entry := entries[provider];
      if entry.disabledUntil.Some? && now < entry.disabledUntil.value {
        var d := entry.disabledUntil.value - now;
        if d > remaining {
          remaining := d;
        }
      }
      if entry.cooldownEnd.Some? && now < entry.cooldownEnd.value {
        var d := entry.cooldownEnd.value - now;
        if d > remaining {
          remaining := d;
        }
      }
    }
  }
}
