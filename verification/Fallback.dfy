/** Trying the candidates of a fallback chain in order, skipping providers in cooldown. */
module Fallback {
  import opened Text
  import opened Cooldown
  import opened CooldownTracking
  import opened CooldownTheorems

  datatype Candidate = Candidate(provider: string, model: string)

  datatype Outcome = Response(content: string) | Error(message: string)

  /**
   * What candidate `i` meets: whether the caller had cancelled before it, the clock at the cooldown
   * check, the outcome of the call if it is made, and cancellation and the clock after it.
   */
  datatype Turn = Turn(cancelledBefore: bool, checkedAt: int, outcome: Outcome, cancelledAfter: bool, doneAt: int)

  datatype Attempt = Attempt(provider: string, model: string, reason: Reason, skipped: bool)

  datatype Result =
    | NoCandidates
    | Cancelled
    | Unclassified(message: string)
    | NotRetriable(reason: Reason)
    | Exhausted(attempts: seq<Attempt>)
    | Done(content: string, provider: string, model: string, attempts: seq<Attempt>)

  /** Classifies an error message; `None` when it matches no known failure. */
  type Classifier = (string, Candidate) -> Option<Reason>

  predicate Retriable(r: Reason) {
    r != Format
  }

  datatype Verdict = Stop(result: Result) | Skip | Retry(reason: Reason)

  /** What the chain does with a candidate, given whether its provider is available. */
  function Judge(c: Candidate, available: bool, turn: Turn, classify: Classifier, attempts: seq<Attempt>): Verdict {
    if turn.cancelledBefore then Stop(Cancelled)
    else if !available then Skip
    else match turn.outcome
      case Response(content) => Stop(Done(content, c.provider, c.model, attempts))
      case Error(message) =>
        if turn.cancelledAfter then Stop(Cancelled)
        else match classify(message, c)
          case None => Stop(Unclassified(message))
          case Some(reason) => if Retriable(reason) then Retry(reason) else Stop(NotRetriable(reason))
  }

  type Entries = map<string, Entry>

  function AttemptOf(c: Candidate, verdict: Verdict): Attempt
    requires !verdict.Stop?
  {
    if verdict.Skip? then Attempt(c.provider, c.model, RateLimit, true)
    else Attempt(c.provider, c.model, verdict.reason, false)
  }

  function Failed(entries: Entries, c: Candidate, verdict: Verdict, turn: Turn, window: int): Entries {
    if verdict.Retry?
    then entries[c.provider := Fail(Lookup(entries, c.provider), verdict.reason, turn.doneAt, window)]
    else entries
  }

  /** The chain from candidate `i` on: its result and the tracker's entries afterwards. */
  function Chain(cs: seq<Candidate>, i: nat, turns: nat -> Turn, classify: Classifier, window: int,
                 entries: Entries, attempts: seq<Attempt>): (Result, Entries)
    requires i <= |cs|
    decreases |cs| - i
  {
    if i == |cs| then (Exhausted(attempts), entries)
    else
      var c, turn := cs[i], turns(i);
      var verdict := Judge(c, Available(Lookup(entries, c.provider), turn.checkedAt), turn, classify, attempts);
      if verdict.Stop? then
        (verdict.result, if verdict.result.Done? && c.provider in entries
                         then entries[c.provider := Succeed(entries[c.provider])] else entries)
      else
        Chain(cs, i + 1, turns, classify, window,
              Failed(entries, c, verdict, turn, window), attempts + [AttemptOf(c, verdict)])
  }

  // ----- what the attempts say

  /** The entries after the failures among the first `n` attempts. */
  function Replay(entries: Entries, attempts: seq<Attempt>, n: nat, turns: nat -> Turn, window: int): Entries
    requires n <= |attempts|
  {
    if n == 0 then entries
    else
      var before, a := Replay(entries, attempts, n - 1, turns, window), attempts[n - 1];
      if a.skipped then before
      else before[a.provider := Fail(Lookup(before, a.provider), a.reason, turns(n - 1).doneAt, window)]
  }

  ghost predicate AvailableAt(entries: Entries, attempts: seq<Attempt>, k: nat, p: string,
                              turns: nat -> Turn, window: int)
    requires k <= |attempts|
  {
    Available(Lookup(Replay(entries, attempts, k, turns, window), p), turns(k).checkedAt)
  }

  /**
   * Attempt `k` matches candidate `k`: it is a skip, exactly when the provider was in cooldown, or a call
   * that failed with a retriable reason.
   */
  ghost predicate ExplainedAt(cs: seq<Candidate>, attempts: seq<Attempt>, k: nat, turns: nat -> Turn,
                              classify: Classifier, window: int, entries: Entries)
    requires k < |attempts| <= |cs|
  {
    var a := attempts[k];
    && a.provider == cs[k].provider && a.model == cs[k].model
    && !turns(k).cancelledBefore
    && (a.skipped <==> !AvailableAt(entries, attempts, k, a.provider, turns, window))
    && (a.skipped ==> a.reason == RateLimit)
    && (!a.skipped ==>
          && turns(k).outcome.Error? && !turns(k).cancelledAfter
          && classify(turns(k).outcome.message, cs[k]) == Some(a.reason) && a.reason != Format)
  }

  ghost predicate Explained(cs: seq<Candidate>, attempts: seq<Attempt>, turns: nat -> Turn, classify: Classifier,
                            window: int, entries: Entries) {
    |attempts| <= |cs|
    && forall k | 0 <= k < |attempts| :: ExplainedAt(cs, attempts, k, turns, classify, window, entries)
  }

  lemma {:induction false} ReplayPrefix(entries: Entries, a: seq<Attempt>, more: Attempt, n: nat,
                                        turns: nat -> Turn, window: int)
    requires n <= |a|
    ensures Replay(entries, a + [more], n, turns, window) == Replay(entries, a, n, turns, window)
  {
    if n > 0 {
      ReplayPrefix(entries, a, more, n - 1, turns, window);
      assert (a + [more])[n - 1] == a[n - 1];
    }
  }

  lemma ReplayExtend(cs: seq<Candidate>, attempts: seq<Attempt>, turns: nat -> Turn, window: int, entries: Entries,
                     verdict: Verdict)
    requires |attempts| < |cs| && !verdict.Stop?
    ensures var k := |attempts|;
            Replay(entries, attempts + [AttemptOf(cs[k], verdict)], k + 1, turns, window)
            == Failed(Replay(entries, attempts, k, turns, window), cs[k], verdict, turns(k), window)
  {
    ReplayPrefix(entries, attempts, AttemptOf(cs[|attempts|], verdict), |attempts|, turns, window);
  }

  lemma ExplainedExtend(cs: seq<Candidate>, attempts: seq<Attempt>, turns: nat -> Turn, classify: Classifier,
                        window: int, entries: Entries, verdict: Verdict)
    requires Explained(cs, attempts, turns, classify, window, entries) && |attempts| < |cs| && !verdict.Stop?
    requires var k := |attempts|;
             var now := Replay(entries, attempts, k, turns, window);
             var available := Available(Lookup(now, cs[k].provider), turns(k).checkedAt);
             verdict == Judge(cs[k], available, turns(k), classify, attempts)
    ensures Explained(cs, attempts + [AttemptOf(cs[|attempts|], verdict)], turns, classify, window, entries)
  {
    var more := AttemptOf(cs[|attempts|], verdict);
    var longer := attempts + [more];
    forall k | 0 <= k < |longer|
      ensures ExplainedAt(cs, longer, k, turns, classify, window, entries)
    {
      ReplayPrefix(entries, attempts, more, k, turns, window);
      if k < |attempts| {
        assert longer[k] == attempts[k];
        assert ExplainedAt(cs, attempts, k, turns, classify, window, entries);
      }
    }
  }

  /** The call is abandoned at the candidate after the attempts, without trying the later ones. */
  ghost predicate StopsAt(result: Result, cs: seq<Candidate>, attempts: seq<Attempt>, turns: nat -> Turn,
                          classify: Classifier, window: int, entries: Entries) {
    var k := |attempts|;
    && k < |cs|
    && match result
       case Cancelled =>
         turns(k).cancelledBefore
         || (turns(k).outcome.Error? && turns(k).cancelledAfter
             && AvailableAt(entries, attempts, k, cs[k].provider, turns, window))
       case Unclassified(message) =>
         turns(k).outcome == Error(message) && classify(message, cs[k]) == None
         && AvailableAt(entries, attempts, k, cs[k].provider, turns, window)
       case NotRetriable(reason) =>
         turns(k).outcome.Error? && classify(turns(k).outcome.message, cs[k]) == Some(reason) && reason == Format
         && AvailableAt(entries, attempts, k, cs[k].provider, turns, window)
       case _ => false
  }

  /** What a finished chain tells its caller after the given attempts. */
  ghost predicate Concludes(result: Result, cs: seq<Candidate>, attempts: seq<Attempt>, turns: nat -> Turn,
                            classify: Classifier, window: int, entries: Entries) {
    && Explained(cs, attempts, turns, classify, window, entries)
    && match result
       case Done(content, provider, model, told) =>
         var k := |attempts|;
         && told == attempts && k < |cs|
         && provider == cs[k].provider && model == cs[k].model
         && AvailableAt(entries, attempts, k, provider, turns, window)
         && turns(k).outcome == Response(content)
       case Exhausted(told) => told == attempts && |attempts| == |cs|
       case NoCandidates => cs == []
       case _ => StopsAt(result, cs, attempts, turns, classify, window, entries)
  }

  /** The entries after a success of a provider, if the chain ended with one. */
  function Praised(entries: Entries, result: Result): Entries {
    if result.Done? && result.provider in entries
    then entries[result.provider := Succeed(entries[result.provider])] else entries
  }

  lemma StopConcludes(cs: seq<Candidate>, attempts: seq<Attempt>, turns: nat -> Turn, classify: Classifier,
                      window: int, entries: Entries, verdict: Verdict)
    requires Explained(cs, attempts, turns, classify, window, entries) && |attempts| < |cs| && verdict.Stop?
    requires var k := |attempts|;
             var available := AvailableAt(entries, attempts, k, cs[k].provider, turns, window);
             verdict == Judge(cs[k], available, turns(k), classify, attempts)
    ensures Concludes(verdict.result, cs, attempts, turns, classify, window, entries)
  {
  }

  /** The result of the chain and the entries it leaves are those of the attempts it made. */
  lemma {:induction false} ChainTruthful(cs: seq<Candidate>, i: nat, turns: nat -> Turn, classify: Classifier,
                                         window: int, start: Entries, entries: Entries, attempts: seq<Attempt>)
    returns (all: seq<Attempt>)
    requires i == |attempts| <= |cs| && Explained(cs, attempts, turns, classify, window, start)
    requires entries == Replay(start, attempts, i, turns, window)
    ensures var (result, after) := Chain(cs, i, turns, classify, window, entries, attempts);
            && Concludes(result, cs, all, turns, classify, window, start)
            && after == Praised(Replay(start, all, |all|, turns, window), result)
    decreases |cs| - i
  {
    all := attempts;
    if i < |cs| {
      var c, turn := cs[i], turns(i);
      var verdict := Judge(c, Available(Lookup(entries, c.provider), turn.checkedAt), turn, classify, attempts);
      if verdict.Stop? {
        StopConcludes(cs, attempts, turns, classify, window, start, verdict);
      } else {
        ExplainedExtend(cs, attempts, turns, classify, window, start, verdict);
        ReplayExtend(cs, attempts, turns, window, start, verdict);
        all := ChainTruthful(cs, i + 1, turns, classify, window, start,
                             Failed(entries, c, verdict, turn, window), attempts + [AttemptOf(c, verdict)]);
      }
    }
  }

  // ----- what is recorded

  /** The failures among the first `n` attempts, as the tracker records them. */
  ghost function Failures(attempts: seq<Attempt>, n: nat, turns: nat -> Turn): seq<(string, Event)>
    requires n <= |attempts|
  {
    if n == 0 then []
    else
      var a := attempts[n - 1];
      Failures(attempts, n - 1, turns)
      + if a.skipped then [] else [(a.provider, Failure(a.reason, turns(n - 1).doneAt))]
  }

  lemma {:induction false} FailuresPrefix(a: seq<Attempt>, more: Attempt, n: nat, turns: nat -> Turn)
    requires n <= |a|
    ensures Failures(a + [more], n, turns) == Failures(a, n, turns)
  {
    if n > 0 {
      FailuresPrefix(a, more, n - 1, turns);
      assert (a + [more])[n - 1] == a[n - 1];
    }
  }

  /** A provider that answered has no failures counted and is available at once. */
  lemma PraisedIsAvailable(entries: Entries, result: Result)
    requires result.Done?
    ensures var e := Lookup(Praised(entries, result), result.provider);
            e.errorCount == 0 && forall now :: Available(e, now)
  {
  }

  /** What a turn adds to the record. */
  ghost function Noted(c: Candidate, verdict: Verdict, turn: Turn): seq<(string, Event)> {
    match verdict
    case Retry(reason) => [(c.provider, Failure(reason, turn.doneAt))]
    case Stop(result) => if result.Done? then [(c.provider, Success)] else []
    case Skip => []
  }

  /** Where a call stands: the attempts made, the entries they left, what was recorded, and how it will end. */
  ghost predicate Underway(cs: seq<Candidate>, made: seq<Attempt>, turns: nat -> Turn, classify: Classifier,
                           window: int, start: Entries, entries: Entries, record: seq<(string, Event)>,
                           goal: (Result, Entries)) {
    && Explained(cs, made, turns, classify, window, start)
    && entries == Replay(start, made, |made|, turns, window)
    && record == Failures(made, |made|, turns)
    && goal == Chain(cs, |made|, turns, classify, window, entries, made)
  }

  lemma UnderwayNext(cs: seq<Candidate>, made: seq<Attempt>, turns: nat -> Turn, classify: Classifier, window: int,
                     start: Entries, entries: Entries, record: seq<(string, Event)>, goal: (Result, Entries),
                     verdict: Verdict)
    requires Underway(cs, made, turns, classify, window, start, entries, record, goal) && |made| < |cs|
    requires var k := |made|;
             var available := Available(Lookup(entries, cs[k].provider), turns(k).checkedAt);
             verdict == Judge(cs[k], available, turns(k), classify, made)
    ensures var c, turn := cs[|made|], turns(|made|);
            if verdict.Stop? then
              && Concludes(verdict.result, cs, made, turns, classify, window, start)
              && goal == (verdict.result, Praised(entries, verdict.result))
            else Underway(cs, made + [AttemptOf(c, verdict)], turns, classify, window, start,
                          Failed(entries, c, verdict, turn, window), record + Noted(c, verdict, turn), goal)
  {
    if verdict.Stop? {
      StopConcludes(cs, made, turns, classify, window, start, verdict);
    } else {
      ExplainedExtend(cs, made, turns, classify, window, start, verdict);
      ReplayExtend(cs, made, turns, window, start, verdict);
      FailuresPrefix(made, AttemptOf(cs[|made|], verdict), |made|, turns);
    }
  }

  lemma UnderwayEnds(cs: seq<Candidate>, made: seq<Attempt>, turns: nat -> Turn, classify: Classifier, window: int,
                     start: Entries, entries: Entries, record: seq<(string, Event)>, goal: (Result, Entries))
    requires Underway(cs, made, turns, classify, window, start, entries, record, goal) && |made| == |cs|
    ensures Concludes(Exhausted(made), cs, made, turns, classify, window, start)
    ensures goal == (Exhausted(made), entries) && record == Failures(made, |made|, turns)
  {
  }

  // ----- a failed provider rests

  /** The clock does not go back from one candidate to the next. */
  ghost predicate ClockForward(turns: nat -> Turn) {
    forall i: nat :: turns(i).checkedAt <= turns(i).doneAt <= turns(i + 1).checkedAt
  }

  lemma {:induction false} ClockLater(turns: nat -> Turn, i: nat, k: nat)
    requires ClockForward(turns) && i < k
    ensures turns(i).doneAt <= turns(k).checkedAt
    decreases k
  {
    assert turns(k - 1).checkedAt <= turns(k - 1).doneAt <= turns(k - 1 + 1).checkedAt;
    if i < k - 1 {
      ClockLater(turns, i, k - 1);
    }
  }

  /** A failure keeps the provider unavailable for at least a minute. */
  lemma FailureRests(e: Entry, reason: Reason, now: int, window: int, t: int)
    requires now <= t < now + MINUTE
    ensures !Available(Fail(e, reason, now, window), t)
  {
    var e' := Fail(e, reason, now, window);
    StandardTable(e'.errorCount);
    BillingTable(Count(e'.counts, Billing));
  }

  /** Once a provider has failed, its entry stays one that a failure at that time or later left. */
  lemma {:induction false} RestsAfterFailure(cs: seq<Candidate>, attempts: seq<Attempt>, turns: nat -> Turn,
                                             window: int, entries: Entries, i: nat, n: nat, t: int)
    requires ClockForward(turns) && i < n <= |attempts| && !attempts[i].skipped
    requires t < turns(i).doneAt + MINUTE && forall k | i <= k < n :: turns(k).doneAt <= t
    ensures !Available(Lookup(Replay(entries, attempts, n, turns, window), attempts[i].provider), t)
    decreases n
  {
    var last := n - 1;
    var before := Replay(entries, attempts, last, turns, window);
    if attempts[last].provider == attempts[i].provider && !attempts[last].skipped {
      if i < last {
        ClockLater(turns, i, last);
        assert turns(last).checkedAt <= turns(last).doneAt;
      }
      FailureRests(Lookup(before, attempts[i].provider), attempts[last].reason, turns(last).doneAt, window, t);
    } else {
      RestsAfterFailure(cs, attempts, turns, window, entries, i, last, t);
    }
  }

  /** A provider that failed in this chain is not called again before a minute has passed. */
  lemma FailedProviderRests(cs: seq<Candidate>, attempts: seq<Attempt>, turns: nat -> Turn,
                            window: int, entries: Entries, i: nat, k: nat)
    requires ClockForward(turns) && i < k <= |attempts| && !attempts[i].skipped
    requires AvailableAt(entries, attempts, k, attempts[i].provider, turns, window)
    ensures turns(k).checkedAt >= turns(i).doneAt + MINUTE
  {
    if turns(k).checkedAt < turns(i).doneAt + MINUTE {
      forall m | i <= m < k
        ensures turns(m).doneAt <= turns(k).checkedAt
      {
        ClockLater(turns, m, k);
      }
      RestsAfterFailure(cs, attempts, turns, window, entries, i, k, turns(k).checkedAt);
    }
  }

  class FallbackChain {
    const cooldown: CooldownTracker

    constructor (cooldown: CooldownTracker)
      ensures this.cooldown == cooldown
    {
      this.cooldown := cooldown;
    }

    /** One candidate: its cooldown, the call, and what the tracker is told. */
    method Try(c: Candidate, turn: Turn, classify: Classifier, attempts: seq<Attempt>) returns (verdict: Verdict)
      requires cooldown.Valid()
      modifies cooldown
      ensures cooldown.Valid() && cooldown.log == old(cooldown.log) + Noted(c, verdict, turn)
      ensures verdict
           == Judge(c, Available(Lookup(old(cooldown.entries), c.provider), turn.checkedAt), turn, classify, attempts)
      ensures cooldown.entries
           == if verdict.Stop? then Praised(old(cooldown.entries), verdict.result)
              else Failed(old(cooldown.entries), c, verdict, turn, cooldown.failureWindow)
    {
      if turn.cancelledBefore {
        return Stop(Cancelled);
      }
      var available := cooldown.IsAvailable(c.provider, turn.checkedAt);
      if !available {
        return Skip;
      }
      if turn.outcome.Response? {
        cooldown.MarkSuccess(c.provider);
        return Stop(Done(turn.outcome.content, c.provider, c.model, attempts));
      }
      if turn.cancelledAfter {
        return Stop(Cancelled);
      }
      var failure := classify(turn.outcome.message, c);
      if failure.None? {
        return Stop(Unclassified(turn.outcome.message));
      }
      if !Retriable(failure.value) {
        return Stop(NotRetriable(failure.value));
      }
      cooldown.MarkFailure(c.provider, failure.value, turn.doneAt);
      return Retry(failure.value);
    }

    /**
     * `turns` stands for the caller's run function, its context and the clock. The tracker is told of every
     * attempt that failed, in order, and of the success; a provider that answered is available at once.
     */
    method Execute(cs: seq<Candidate>, turns: nat -> Turn, classify: Classifier)
      returns (result: Result, ghost attempts: seq<Attempt>)
      requires cooldown.Valid()
      modifies cooldown
      ensures cooldown.Valid()
      ensures cs == [] ==> result == NoCandidates && attempts == []
      ensures cs != [] ==>
        (result, cooldown.entries)
        == Chain(cs, 0, turns, classify, cooldown.failureWindow, old(cooldown.entries), [])
      ensures Concludes(result, cs, attempts, turns, classify, cooldown.failureWindow, old(cooldown.entries))
      ensures cooldown.log == old(cooldown.log) + Failures(attempts, |attempts|, turns)
                              + if result.Done? then [(result.provider, Success)] else []
      ensures result.Done? ==> Lookup(cooldown.entries, result.provider).errorCount == 0
      ensures result.Done? ==> forall now :: Available(Lookup(cooldown.entries, result.provider), now)
    {
      attempts := [];
      if |cs| == 0 {
        return NoCandidates, [];
      }
      ghost var window, start, record := cooldown.failureWindow, cooldown.entries, [];
      ghost var goal := Chain(cs, 0, turns, classify, window, start, []);
      var made := [];
      for i := 0 to |cs|
        invariant cooldown.Valid() && i == |made|
        invariant Underway(cs, made, turns, classify, window, start, cooldown.entries, record, goal)
        invariant cooldown.log == old(cooldown.log) + record
      {
        ghost var entries := cooldown.entries;
        var verdict := Try(cs[i], turns(i), classify, made);
        UnderwayNext(cs, made, turns, classify, window, start, entries, record, goal, verdict);
        if verdict.Stop? {
          if verdict.result.Done? {
            PraisedIsAvailable(entries, verdict.result);
          }
          return verdict.result, made;
        }
        record := record + Noted(cs[i], verdict, turns(i));
        made := made + [AttemptOf(cs[i], verdict)];
      }
      UnderwayEnds(cs, made, turns, classify, window, start, cooldown.entries, record, goal);
      return Exhausted(made), made;
    }
  }
}
