/**
 * A stored history under everything that happens to it: turns of the agent loop, truncation after a
 * summary, and emergency compression. Whatever the order, what a provider is sent pairs every tool call
 * with its result.
 */
module HistoryRuns {
  import opened Text
  import opened History

  // ----- calls and their results

  /** A caller at `i` is followed by one result per call, in the order of the calls. */
  ghost predicate PairedAt(o: seq<Message>, i: nat)
    requires i < |o|
  {
    IsCaller(o[i]) ==>
      && i + |o[i].calls| < |o|
      && forall n | i < n <= i + |o[i].calls| :: o[n].role == Tool && o[n].callId == o[i].calls[n - i - 1]
  }

  /** A tool result at `i` is one of the results of a caller before it. */
  ghost predicate OwnedAt(o: seq<Message>, i: nat)
    requires i < |o|
  {
    o[i].role == Tool ==> exists k | 0 <= k < i :: IsCaller(o[k]) && i <= k + |o[k].calls|
  }

  ghost predicate Paired(o: seq<Message>) {
    forall i | 0 <= i < |o| :: PairedAt(o, i) && OwnedAt(o, i)
  }

  /** The caller at `k` waits for the results `ids`, the rest having arrived. */
  ghost predicate Pending(t: seq<Message>, k: nat, ids: seq<string>)
    requires k < |t|
  {
    var done := |t[k].calls| - |ids|;
    && IsCaller(t[k]) && 0 <= done && k + 1 + done == |t| && t[k].calls[done..] == ids
    && forall n | k < n <= k + done :: t[n].role == Tool && t[n].callId == t[k].calls[n - k - 1]
  }

  lemma PairedLonger(t: seq<Message>, m: Message, i: nat)
    requires i < |t|
    ensures PairedAt(t, i) ==> PairedAt(t + [m], i)
    ensures OwnedAt(t, i) ==> OwnedAt(t + [m], i)
  {
    assert forall k | 0 <= k < |t| :: (t + [m])[k] == t[k];
  }

  lemma PendingNext(t: seq<Message>, m: Message, k: nat, ids: seq<string>)
    requires k < |t| && Pending(t, k, ids) && ids != [] && m.role == Tool && m.callId == ids[0]
    ensures if |ids| == 1 then PairedAt(t + [m], k) else Pending(t + [m], k, ids[1..])
    ensures OwnedAt(t + [m], |t|)
  {
    var longer := t + [m];
    var done := |t[k].calls| - |ids|;
    assert longer[k] == t[k] && t[k].calls[done] == ids[0];
    assert t[k].calls[done + 1..] == ids[1..];
    forall n | k < n <= k + done + 1
      ensures longer[n].role == Tool && longer[n].callId == t[k].calls[n - k - 1]
    {
      assert longer[n] == if n <= k + done then t[n] else m;
    }
  }

  /** In a transcript every caller is paired but the one, if any, that is still waiting. */
  lemma {:induction false} TranscriptPairs(t: seq<Message>) returns (k: int)
    requires Transcript(t)
    ensures forall i | 0 <= i < |t| :: OwnedAt(t, i) && (i != k ==> PairedAt(t, i))
    ensures if PhaseOf(t).value.Awaiting? then 0 <= k < |t| && Pending(t, k, PhaseOf(t).value.ids) else k == -1
  {
    if t == [] {
      k := -1;
    } else {
      var front, m := t[..|t| - 1], t[|t| - 1];
      assert t == front + [m];
      k := TranscriptPairs(front);
      forall i | 0 <= i < |front|
        ensures OwnedAt(t, i) && (i != k ==> PairedAt(t, i))
      {
        PairedLonger(front, m, i);
      }
      match PhaseOf(front).value {
        case Awaiting(ids) =>
          PendingNext(front, m, k, ids);
          if |ids| == 1 { k := -1; }
        case _ =>
          if IsCaller(m) { k := |front|; }
      }
    }
  }

  lemma PairedTail(pre: seq<Message>, t: seq<Message>, p: nat)
    requires Paired(t) && p <= |t| && (p < |t| ==> t[p].role != Tool)
    requires forall i | 0 <= i < |pre| :: pre[i].role != Tool && !IsCaller(pre[i])
    ensures Paired(pre + t[p..])
  {
    var o := pre + t[p..];
    assert forall i | |pre| <= i < |o| :: o[i] == t[p + i - |pre|];
    assert forall i | 0 <= i < |pre| :: o[i] == pre[i];
    forall i | |pre| <= i < |o|
      ensures PairedAt(o, i) && OwnedAt(o, i)
    {
      var n := p + i - |pre|;
      assert PairedAt(t, n) && OwnedAt(t, n);
      if t[n].role == Tool {
        var k :| 0 <= k < n && IsCaller(t[k]) && n <= k + |t[k].calls|;
        assert PairedAt(t, k);
        assert o[k - p + |pre|] == t[k];
      }
    }
  }

  // ----- stored histories

  /** The text of the note about a number of dropped messages. */
  type Note = nat -> string

  /** Drops the older half of the messages between the first and the last, and notes it in the first. */
  function Compress(h: seq<Message>, note: Note): seq<Message> {
    if |h| <= 4 then h
    else
      var conversation := h[1..|h| - 1];
      var mid := |conversation| / 2;
      [h[0].(content := h[0].content + note(mid))] + conversation[mid..] + [h[|h| - 1]]
  }

  /** Compression keeps the first message, noted, the newer half and the last one; a long history gets shorter. */
  lemma CompressShape(h: seq<Message>, note: Note)
    requires |h| > 4
    ensures var r := Compress(h, note);
            && |r| == (|h| + 1) / 2 + 1 && 4 <= |r| < |h|
            && r[0] == h[0].(content := h[0].content + note(|h| - |r|))
            && r[1..] == h[|h| - (|r| - 1)..]
  {
    var conversation := h[1..|h| - 1];
    var mid := |conversation| / 2;
    var tail := conversation[mid..] + [h[|h| - 1]];
    assert conversation[mid..] == h[mid + 1..|h| - 1];
    assert tail == h[mid + 1..];
    assert Compress(h, note)[1..] == tail;
  }

  function Truncate(h: seq<Message>, keepLast: int): seq<Message> {
    if keepLast <= 0 then []
    else if |h| <= keepLast then h
    else h[|h| - keepLast..]
  }

  /** A tail of a transcript, or one message and a tail of a transcript. */
  ghost predicate StoredAt(h: seq<Message>, t: seq<Message>, k: nat) {
    k <= |t| && (h == t[k..] || (h != [] && h[1..] == t[k..]))
  }

  ghost predicate Stored(h: seq<Message>, t: seq<Message>) {
    Transcript(t) && exists k :: StoredAt(h, t, k)
  }

  lemma StoredAppend(h: seq<Message>, t: seq<Message>, m: Message)
    requires Stored(h, t) && Transcript(t + [m])
    ensures Stored(h + [m], t + [m])
  {
    var k: nat :| StoredAt(h, t, k);
    assert (t + [m])[k..] == t[k..] + [m];
    if h != t[k..] {
      assert (h + [m])[1..] == h[1..] + [m];
    }
    assert StoredAt(h + [m], t + [m], k);
  }

  /** Short enough tails of a stored history are tails of the transcript. */
  lemma TailOfStored(h: seq<Message>, t: seq<Message>, k: nat, n: nat)
    requires StoredAt(h, t, k) && n < |h|
    ensures n <= |t| && h[|h| - n..] == t[|t| - n..]
  {
    if h != t[k..] {
      assert h[|h| - n..] == h[1..][|h| - 1 - n..];
    }
  }

  lemma StoredTruncate(h: seq<Message>, t: seq<Message>, keepLast: int)
    requires Stored(h, t)
    ensures Stored(Truncate(h, keepLast), t)
  {
    if keepLast <= 0 {
      assert t[|t|..] == [];
      assert StoredAt([], t, |t|);
    } else if keepLast < |h| {
      var k: nat :| StoredAt(h, t, k);
      TailOfStored(h, t, k, keepLast);
      assert StoredAt(h[|h| - keepLast..], t, |t| - keepLast);
    }
  }

  lemma StoredCompress(h: seq<Message>, t: seq<Message>, note: Note)
    requires Stored(h, t)
    ensures Stored(Compress(h, note), t)
  {
    if |h| > 4 {
      var k: nat :| StoredAt(h, t, k);
      CompressShape(h, note);
      var n := |Compress(h, note)| - 1;
      TailOfStored(h, t, k, n);
      assert StoredAt(Compress(h, note), t, |t| - n);
    }
  }

  lemma {:induction false} SanitizeConcat(pre: seq<Message>, a: seq<Message>, b: seq<Message>)
    ensures SanitizeFrom(pre, a + b) == SanitizeFrom(SanitizeFrom(pre, a), b)
    decreases |b|
  {
    if b == [] {
      assert a + b == a;
    } else {
      var front := b[..|b| - 1];
      SanitizeConcat(pre, a, front);
      assert a + b == (a + front) + [b[|b| - 1]];
      SanitizeSnoc(pre, a + front, b[|b| - 1]);
    }
  }

  /** At most one message, which neither calls nor answers. */
  ghost predicate Stands(pre: seq<Message>) {
    |pre| <= 1 && forall m <- pre :: m.role != Tool && !IsCaller(m)
  }

  lemma HeadStands(m: Message, s: seq<Message>)
    ensures Stands(Sanitize([m])) && Detached(Sanitize([m]))
    ensures Sanitize([m] + s) == SanitizeFrom(Sanitize([m]), s)
  {
    SanitizeSnoc([], [], m);
    assert [] + [m] == [m];
    SanitizeConcat([], [m], s);
  }

  lemma TailStart(pre: seq<Message>, t: seq<Message>, k: nat) returns (d: nat)
    requires Transcript(t) && k <= |t| && Detached(pre)
    ensures k + d <= |t| && (k + d < |t| ==> t[k + d].role != Tool) && SanitizeFrom(pre, t[k..]) == pre + t[k + d..]
  {
    var s := t[k..];
    SanitizeTail(pre, t, k);
    d := Leading(s, !EndsInUser(pre));
    assert s[d..] == t[k + d..];
    assert d < |s| ==> s[d] == t[k + d];
  }

  lemma TailAfterHead(m: Message, t: seq<Message>, k: nat) returns (d: nat)
    requires Transcript(t) && k <= |t|
    ensures k + d <= |t| && (k + d < |t| ==> t[k + d].role != Tool)
    ensures Stands(Sanitize([m])) && Sanitize([m] + t[k..]) == Sanitize([m]) + t[k + d..]
  {
    HeadStands(m, t[k..]);
    d := TailStart(Sanitize([m]), t, k);
  }

  lemma TailAfterFirst(h: seq<Message>, t: seq<Message>, k: nat) returns (pre: seq<Message>, p: nat)
    requires Transcript(t) && k <= |t| && h != [] && h[1..] == t[k..]
    ensures Stands(pre) && p <= |t| && (p < |t| ==> t[p].role != Tool) && Sanitize(h) == pre + t[p..]
  {
    assert [h[0]] + t[k..] == h;
    var d := TailAfterHead(h[0], t, k);
    pre, p := Sanitize([h[0]]), k + d;
  }

  /** The repair of a stored history: the message before the tail if it can stand, and the repaired tail. */
  lemma SanitizedStored(h: seq<Message>, t: seq<Message>) returns (pre: seq<Message>, p: nat)
    requires Stored(h, t)
    ensures Stands(pre) && p <= |t| && (p < |t| ==> t[p].role != Tool) && Sanitize(h) == pre + t[p..]
  {
    var k: nat :| StoredAt(h, t, k);
    if h == t[k..] {
      var d := TailStart([], t, k);
      pre, p := [], k + d;
    } else {
      pre, p := TailAfterFirst(h, t, k);
    }
  }

  /** A stored history is repaired to one that can be sent: well formed, and every call with its results. */
  lemma StoredIsPaired(h: seq<Message>, t: seq<Message>)
    requires Stored(h, t) && Closed(t)
    ensures Paired(Sanitize(h)) && WellFormed(Sanitize(h))
  {
    var pre, p := SanitizedStored(h, t);
    var k := TranscriptPairs(t);
    PairedTail(pre, t, p);
    SanitizedIsWellFormed(h);
  }

  /** Truncating a transcript loses, beside what is cut off, exactly the leading results and callers. */
  lemma TruncatedTranscript(t: seq<Message>, keepLast: int)
    requires Transcript(t)
    ensures var h := Truncate(t, keepLast); Sanitize(h) == h[Leading(h, true)..]
  {
    var k := if keepLast <= 0 then |t| else if |t| <= keepLast then 0 else |t| - keepLast;
    SanitizeTail([], t, k);
    assert t[k..] == Truncate(t, keepLast);
    assert t[0..] == t;
  }

  // ----- compression

  function Times(step: seq<Message> -> seq<Message>, h: seq<Message>, n: nat): seq<Message>
    decreases n
  {
    if n == 0 then h else Times(step, step(h), n - 1)
  }

  /** A step that shrinks whatever is longer than four, and to no fewer than four, ends at four. */
  lemma {:induction false} ShrinkingReachesFour(step: seq<Message> -> seq<Message>, h: seq<Message>) returns (n: nat)
    requires |h| >= 4
    requires forall g :: |g| > 4 ==> 4 <= |step(g)| < |g|
    ensures n <= |h| && |Times(step, h, n)| == 4
    decreases |h|
  {
    if |h| == 4 {
      n := 0;
    } else {
      var m := ShrinkingReachesFour(step, step(h));
      n := m + 1;
    }
  }

  /** Repeated compression ends with four messages, and four messages are left as they are. */
  lemma CompressReachesFour(h: seq<Message>, note: Note) returns (n: nat)
    requires |h| >= 4
    ensures n <= |h| && |Times(g => Compress(g, note), h, n)| == 4
    ensures |h| == 4 ==> Compress(h, note) == h
  {
    forall g | |g| > 4 ensures 4 <= |Compress(g, note)| < |g| {
      CompressShape(g, note);
    }
    n := ShrinkingReachesFour(g => Compress(g, note), h);
  }

  // ----- whole runs

  datatype Op = Say(m: Message) | Shorten(keepLast: int) | Squeeze

  /** The messages said, oldest first. */
  function Said(ops: seq<Op>): seq<Message> {
    if ops == [] then []
    else
      var last := ops[|ops| - 1];
      Said(ops[..|ops| - 1]) + if last.Say? then [last.m] else []
  }

  /** What is stored after saying, truncating and compressing in the given order. */
  function StoredAfter(ops: seq<Op>, note: Note): seq<Message> {
    if ops == [] then []
    else
      var h := StoredAfter(ops[..|ops| - 1], note);
      match ops[|ops| - 1]
      case Say(m) => h + [m]
      case Shorten(n) => Truncate(h, n)
      case Squeeze => Compress(h, note)
  }

  lemma {:induction false} StoredAlways(ops: seq<Op>, note: Note)
    requires Transcript(Said(ops))
    ensures Stored(StoredAfter(ops, note), Said(ops))
  {
    if ops == [] {
      assert StoredAt([], [], 0);
    } else {
      var front, t := ops[..|ops| - 1], Said(ops[..|ops| - 1]);
      var h := StoredAfter(front, note);
      match ops[|ops| - 1] {
        case Say(m) =>
          assert (t + [m])[..|t|] == t;
          StoredAlways(front, note);
          StoredAppend(h, t, m);
        case Shorten(n) =>
          assert Said(ops) == t;
          StoredAlways(front, note);
          StoredTruncate(h, t, n);
        case Squeeze =>
          assert Said(ops) == t;
          StoredAlways(front, note);
          StoredCompress(h, t, note);
      }
    }
  }

  /**
   * However turns, truncations and compressions are interleaved, between blocks the history that would be
   * sent is well formed and pairs every tool call with its results.
   */
  lemma SentHistoryIsPaired(ops: seq<Op>, note: Note)
    requires Closed(Said(ops))
    ensures Paired(Sanitize(StoredAfter(ops, note))) && WellFormed(Sanitize(StoredAfter(ops, note)))
  {
    StoredAlways(ops, note);
    StoredIsPaired(StoredAfter(ops, note), Said(ops));
  }

  // ----- requests

  function UserMessage(content: string): Message {
    Message(User, content, [], "")
  }

  function BuildMessages(prompt: string, history: seq<Message>, current: string): seq<Message> {
    [Message(System, prompt, [], "")] + Sanitize(history)
    + if TrimSpace(current) != "" then [UserMessage(current)] else []
  }

  /** A request starts with its only system message and pairs every tool call with its results. */
  ghost predicate Request(r: seq<Message>) {
    r != [] && r[0].role == System && (forall i | 0 < i < |r| :: r[i].role != System) && Paired(r[1..])
  }

  lemma PairedAppend(o: seq<Message>, m: Message)
    requires Paired(o) && m.role != Tool && !IsCaller(m)
    ensures Paired(o + [m])
  {
    forall i | 0 <= i < |o|
      ensures PairedAt(o + [m], i) && OwnedAt(o + [m], i)
    {
      PairedLonger(o, m, i);
    }
  }

  /** The prompt as the system message, the repaired history, and the user's message unless it is blank. */
  ghost predicate Carries(r: seq<Message>, prompt: string, history: seq<Message>, current: string) {
    && r != [] && r[0] == Message(System, prompt, [], "")
    && if AllSpace(current) then r[1..] == Sanitize(history)
       else |r| >= 2 && r[|r| - 1] == Message(User, current, [], "") && r[1..|r| - 1] == Sanitize(history)
  }

  /** The messages built carry prompt, history and message; what follows the prompt is well formed for any history. */
  lemma BuiltIsWellFormed(prompt: string, history: seq<Message>, current: string)
    ensures var r := BuildMessages(prompt, history, current);
            Carries(r, prompt, history, current) && WellFormed(r[1..])
  {
    var r := BuildMessages(prompt, history, current);
    SanitizedIsWellFormed(history);
    TrimSpaceEmptyIff(current);
    if AllSpace(current) {
      assert r[1..] == Sanitize(history);
    } else {
      KeepsIffWellFormed(Sanitize(history), UserMessage(current));
      assert r[1..] == Sanitize(history) + [UserMessage(current)];
    }
  }

  lemma BuiltIsRequest(prompt: string, history: seq<Message>, current: string)
    requires Paired(Sanitize(history))
    ensures Request(BuildMessages(prompt, history, current))
  {
    var r := BuildMessages(prompt, history, current);
    BuiltIsWellFormed(prompt, history, current);
    assert forall i | 0 < i < |r| :: r[i] == r[1..][i - 1] && WellFormedAt(r[1..], i - 1);
    if TrimSpace(current) != "" {
      PairedAppend(Sanitize(history), UserMessage(current));
      assert r[1..] == Sanitize(history) + [UserMessage(current)];
    } else {
      assert r[1..] == Sanitize(history);
    }
  }
}
