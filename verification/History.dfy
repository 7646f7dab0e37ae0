/** Conversation messages, the transcripts the agent loop writes, and what is sent to a provider. */
module History {
  import opened Text

  datatype Role = System | User | Assistant | Tool | Other(name: string)

  /** `calls` are the ids of the tool calls an assistant message makes; `callId` is the call a tool message answers. */
  datatype Message = Message(role: Role, content: string, calls: seq<string>, callId: string)

  predicate IsCaller(m: Message) {
    m.role == Assistant && m.calls != []
  }

  /** The nearest message before the end that is not a tool result makes tool calls. */
  predicate AnswersCaller(s: seq<Message>) {
    s != [] &&
    if s[|s| - 1].role == Tool then AnswersCaller(s[..|s| - 1]) else IsCaller(s[|s| - 1])
  }

  /** Whether a message is kept after the messages `s` that were kept so far. */
  predicate Keeps(s: seq<Message>, m: Message) {
    match m.role
    case System => false
    case Tool => AnswersCaller(s)
    case Assistant => m.calls == [] || (s != [] && (s[|s| - 1].role == User || s[|s| - 1].role == Tool))
    case _ => true
  }

  /** Continues from the messages kept so far. */
  function SanitizeFrom(s: seq<Message>, h: seq<Message>): seq<Message> {
    if h == [] then s
    else
      var kept, m := SanitizeFrom(s, h[..|h| - 1]), h[|h| - 1];
      if Keeps(kept, m) then kept + [m] else kept
  }

  function Sanitize(h: seq<Message>): seq<Message> {
    SanitizeFrom([], h)
  }

  // ----- well-formed histories

  /** Going back from `i` over tool results leads to a caller at `k`. */
  ghost predicate LeadsBack(h: seq<Message>, k: nat, i: nat) {
    k < i <= |h| && IsCaller(h[k]) && forall j | k < j < i :: h[j].role == Tool
  }

  /** A tool result follows its caller, with only tool results between; a caller follows a user or tool message. */
  ghost predicate WellFormedAt(h: seq<Message>, i: nat)
    requires i < |h|
  {
    && h[i].role != System
    && (h[i].role == Tool ==> exists k: nat :: LeadsBack(h, k, i))
    && (IsCaller(h[i]) ==> i > 0 && (h[i - 1].role == User || h[i - 1].role == Tool))
  }

  ghost predicate WellFormed(h: seq<Message>) {
    forall i | 0 <= i < |h| :: WellFormedAt(h, i)
  }

  lemma LeadsBackFurther(s: seq<Message>, k: nat)
    requires s != []
    ensures LeadsBack(s, k, |s|) <==>
            if k == |s| - 1 then IsCaller(s[k])
            else s[|s| - 1].role == Tool && LeadsBack(s[..|s| - 1], k, |s| - 1)
  {
    assert k < |s| - 1 && LeadsBack(s[..|s| - 1], k, |s| - 1) ==>
      forall j | k < j < |s| - 1 :: s[..|s| - 1][j] == s[j];
  }

  lemma {:induction false} AnswersCallerMeans(s: seq<Message>)
    ensures AnswersCaller(s) <==> exists k: nat :: LeadsBack(s, k, |s|)
  {
    if s != [] {
      var front := s[..|s| - 1];
      AnswersCallerMeans(front);
      LeadsBackFurther(s, |front|);
      if k: nat :| LeadsBack(front, k, |front|) {
        LeadsBackFurther(s, k);
      }
      if k: nat :| LeadsBack(s, k, |s|) {
        LeadsBackFurther(s, k);
      }
    }
  }

  lemma LeadsBackPrefix(h: seq<Message>, m: Message, i: nat)
    requires i <= |h|
    ensures (exists k: nat :: LeadsBack(h + [m], k, i)) <==> exists k: nat :: LeadsBack(h, k, i)
  {
    assert forall j | 0 <= j < |h| :: (h + [m])[j] == h[j];
    if k: nat :| LeadsBack(h, k, i) {
      assert LeadsBack(h + [m], k, i);
    }
    if k: nat :| LeadsBack(h + [m], k, i) {
      assert LeadsBack(h, k, i);
    }
  }

  lemma WellFormedPrefixAt(h: seq<Message>, m: Message, i: nat)
    requires i < |h|
    ensures WellFormedAt(h + [m], i) <==> WellFormedAt(h, i)
  {
    LeadsBackPrefix(h, m, i);
  }

  /** A message may follow a history exactly when the sanitizer keeps it. */
  lemma KeepsIffWellFormed(h: seq<Message>, m: Message)
    ensures WellFormed(h + [m]) <==> WellFormed(h) && Keeps(h, m)
  {
    var longer := h + [m];
    AnswersCallerMeans(h);
    LeadsBackPrefix(h, m, |h|);
    forall i | 0 <= i < |h|
      ensures WellFormedAt(longer, i) <==> WellFormedAt(h, i)
    {
      WellFormedPrefixAt(h, m, i);
    }
    assert forall k | 0 <= k < |h| :: longer[k] == h[k];
    assert WellFormedAt(longer, |h|) <==> Keeps(h, m);
  }

  lemma {:induction false} SanitizedIsWellFormed(h: seq<Message>)
    ensures WellFormed(Sanitize(h))
  {
    if h != [] {
      SanitizedIsWellFormed(h[..|h| - 1]);
      KeepsIffWellFormed(Sanitize(h[..|h| - 1]), h[|h| - 1]);
    }
  }

  /** A message is dropped only where keeping it would leave a history that is not well formed. */
  lemma SanitizeDropsMisfits(h: seq<Message>, m: Message)
    ensures Sanitize(h + [m]) == if WellFormed(Sanitize(h) + [m]) then Sanitize(h) + [m] else Sanitize(h)
  {
    assert (h + [m])[..|h|] == h;
    SanitizedIsWellFormed(h);
    KeepsIffWellFormed(Sanitize(h), m);
  }

  lemma {:induction false} SanitizedNoLonger(h: seq<Message>)
    ensures |Sanitize(h)| <= |h|
  {
    if h != [] {
      SanitizedNoLonger(h[..|h| - 1]);
    }
  }

  /** Sanitizing changes nothing exactly when there is nothing to repair. */
  lemma {:induction false} SanitizeFixesIff(h: seq<Message>)
    ensures Sanitize(h) == h <==> WellFormed(h)
  {
    if h != [] {
      var front, m := h[..|h| - 1], h[|h| - 1];
      assert h == front + [m];
      SanitizeFixesIff(front);
      SanitizedNoLonger(front);
      KeepsIffWellFormed(front, m);
      if Sanitize(h) == h {
        assert Sanitize(front) == Sanitize(h)[..|h| - 1];
      }
    }
  }

  lemma SanitizeIdempotent(h: seq<Message>)
    ensures Sanitize(Sanitize(h)) == Sanitize(h)
  {
    SanitizedIsWellFormed(h);
    SanitizeFixesIff(Sanitize(h));
  }

  /** The indices of the messages that are kept. */
  ghost function Kept(h: seq<Message>): seq<nat> {
    if h == [] then []
    else
      var front := h[..|h| - 1];
      Kept(front) + if Keeps(Sanitize(front), h[|h| - 1]) then [|h| - 1] else []
  }

  /** User messages, plain assistant messages and messages of unknown roles. */
  predicate AlwaysKept(m: Message) {
    m.role != System && m.role != Tool && !IsCaller(m)
  }

  /** The result is a subsequence of the history that misses no user or plain assistant message. */
  lemma {:induction false} SanitizeSelects(h: seq<Message>)
    ensures |Kept(h)| == |Sanitize(h)|
    ensures forall i | 0 <= i < |Kept(h)| :: Kept(h)[i] < |h| && Sanitize(h)[i] == h[Kept(h)[i]]
    ensures forall i, k | 0 <= i < k < |Kept(h)| :: Kept(h)[i] < Kept(h)[k]
    ensures forall k | 0 <= k < |h| && AlwaysKept(h[k]) :: k in Kept(h)
  {
    if h != [] {
      SanitizeSelects(h[..|h| - 1]);
    }
  }

  // ----- transcripts

  /** Where a conversation stands: between turns, in a turn, or waiting for the results of tool calls. */
  datatype Phase = Idle | InTurn | Awaiting(ids: seq<string>)

  /** The message the agent loop may write next. A turn may be given up and a new one begun. */
  function NextPhase(p: Phase, m: Message): Option<Phase> {
    match p
    case Idle => if m.role == User then Some(InTurn) else None
    case InTurn =>
      if m.role == User then Some(InTurn)
      else if m.role != Assistant then None
      else if m.calls == [] then Some(Idle) else Some(Awaiting(m.calls))
    case Awaiting(ids) =>
      if ids == [] || m.role != Tool || m.callId != ids[0] then None
      else if |ids| == 1 then Some(InTurn) else Some(Awaiting(ids[1..]))
  }

  function PhaseOf(t: seq<Message>): Option<Phase> {
    if t == [] then Some(Idle)
    else
      match PhaseOf(t[..|t| - 1])
      case None => None
      case Some(p) => NextPhase(p, t[|t| - 1])
  }

  ghost predicate Transcript(t: seq<Message>) {
    PhaseOf(t).Some?
  }

  /** A transcript in which every tool call has its result. */
  ghost predicate Closed(t: seq<Message>) {
    Transcript(t) && !PhaseOf(t).value.Awaiting?
  }

  lemma {:induction false} PhaseShape(t: seq<Message>)
    requires Transcript(t)
    ensures PhaseOf(t).value.Awaiting? ==> AnswersCaller(t) && PhaseOf(t).value.ids != []
    ensures PhaseOf(t).value.InTurn? ==> t != [] && (t[|t| - 1].role == User || t[|t| - 1].role == Tool)
  {
    if t != [] {
      PhaseShape(t[..|t| - 1]);
    }
  }

  lemma NextIsKept(t: seq<Message>, m: Message)
    requires Transcript(t + [m])
    ensures Transcript(t) && Keeps(t, m)
    ensures m.role == Tool ==> AnswersCaller(t)
  {
    assert (t + [m])[..|t|] == t;
    PhaseShape(t);
  }

  /** What the agent loop writes needs no repair. */
  lemma {:induction false} TranscriptIsFixed(t: seq<Message>)
    requires Transcript(t)
    ensures WellFormed(t) && Sanitize(t) == t
  {
    if t != [] {
      var front, m := t[..|t| - 1], t[|t| - 1];
      assert t == front + [m];
      NextIsKept(front, m);
      TranscriptIsFixed(front);
      KeepsIffWellFormed(front, m);
    }
  }

  // ----- truncated transcripts

  /** How many messages at the start are tool results, or callers too when nothing can precede them. */
  function Leading(h: seq<Message>, callers: bool): (n: nat)
    ensures n <= |h|
    ensures forall i | 0 <= i < n :: h[i].role == Tool || (callers && IsCaller(h[i]))
    ensures n < |h| ==> h[n].role != Tool && (callers ==> !IsCaller(h[n]))
  {
    if h != [] && (h[0].role == Tool || (callers && IsCaller(h[0]))) then 1 + Leading(h[1..], callers) else 0
  }

  lemma {:induction false} LeadingExtend(h: seq<Message>, m: Message, callers: bool)
    ensures Leading(h + [m], callers) ==
      if Leading(h, callers) == |h| && (m.role == Tool || (callers && IsCaller(m))) then |h| + 1
      else Leading(h, callers)
  {
    if h == [] {
      assert [] + [m] == [m];
      assert [m][1..] == [];
    } else if h[0].role == Tool || (callers && IsCaller(h[0])) {
      LeadingExtend(h[1..], m, callers);
      assert (h + [m])[1..] == h[1..] + [m];
    }
  }

  lemma {:induction false} AnswersCallerSuffix(pre: seq<Message>, t: seq<Message>, p: nat)
    requires p < |t| && t[p].role != Tool && AnswersCaller(t)
    ensures AnswersCaller(pre + t[p..])
  {
    var s := pre + t[p..];
    assert s[|s| - 1] == t[|t| - 1];
    if t[|t| - 1].role == Tool {
      AnswersCallerSuffix(pre, t[..|t| - 1], p);
      assert s[..|s| - 1] == pre + t[..|t| - 1][p..];
    }
  }

  /** Something kept that tool results cannot attach to: nothing, or a message that makes no calls. */
  ghost predicate Detached(pre: seq<Message>) {
    pre == [] || (pre[|pre| - 1].role != Tool && !IsCaller(pre[|pre| - 1]))
  }

  function EndsInUser(pre: seq<Message>): bool {
    pre != [] && pre[|pre| - 1].role == User
  }

  /** The next message of a transcript is kept after a kept tail. */
  lemma KeptAfterTail(pre: seq<Message>, front: seq<Message>, m: Message, p: nat)
    requires Transcript(front + [m]) && p < |front| && front[p].role != Tool
    ensures Keeps(pre + front[p..], m)
  {
    NextIsKept(front, m);
    if m.role == Tool {
      AnswersCallerSuffix(pre, front, p);
    }
    assert (pre + front[p..])[|pre + front[p..]| - 1] == front[|front| - 1];
  }

  /** While nothing but leading messages was met, a message is dropped exactly when it is one of them. */
  lemma KeptAfterHead(pre: seq<Message>, m: Message)
    requires Detached(pre) && m.role != System
    ensures Keeps(pre, m) <==> !(m.role == Tool || (!EndsInUser(pre) && IsCaller(m)))
  {
  }

  lemma TranscriptRoles(t: seq<Message>, m: Message)
    requires Transcript(t + [m])
    ensures Transcript(t) && m.role != System
  {
    assert (t + [m])[..|t|] == t;
  }

  lemma SanitizeSnoc(pre: seq<Message>, h: seq<Message>, m: Message)
    ensures var kept := SanitizeFrom(pre, h);
            SanitizeFrom(pre, h + [m]) == if Keeps(kept, m) then kept + [m] else kept
  {
    assert (h + [m])[..|h|] == h;
  }

  lemma TailGrows(pre: seq<Message>, s: seq<Message>, m: Message, d: nat)
    requires d < |s| && SanitizeFrom(pre, s) == pre + s[d..] && Keeps(pre + s[d..], m)
    ensures SanitizeFrom(pre, s + [m]) == pre + (s + [m])[d..]
  {
    SanitizeSnoc(pre, s, m);
    assert (s + [m])[d..] == s[d..] + [m];
  }

  lemma TailStarts(pre: seq<Message>, s: seq<Message>, m: Message)
    requires Detached(pre) && m.role != System && SanitizeFrom(pre, s) == pre
    ensures var d := if m.role == Tool || (!EndsInUser(pre) && IsCaller(m)) then |s| + 1 else |s|;
            SanitizeFrom(pre, s + [m]) == pre + (s + [m])[d..]
  {
    SanitizeSnoc(pre, s, m);
    KeptAfterHead(pre, m);
    assert (s + [m])[|s|..] == [m] && (s + [m])[|s| + 1..] == [];
    assert pre + [] == pre;
  }

  lemma TailContinues(pre: seq<Message>, front: seq<Message>, m: Message, k: nat, s: seq<Message>, d: nat)
    requires Transcript(front + [m]) && k <= |front| && s == front[k..] && d < |s| && s[d].role != Tool
    requires SanitizeFrom(pre, s) == pre + s[d..]
    ensures SanitizeFrom(pre, s + [m]) == pre + (s + [m])[d..]
  {
    assert s[d..] == front[k + d..];
    KeptAfterTail(pre, front, m, k + d);
    TailGrows(pre, s, m, d);
  }

  /** One more message of the transcript. */
  lemma TailStep(pre: seq<Message>, front: seq<Message>, m: Message, k: nat, s: seq<Message>, callers: bool)
    requires Transcript(front + [m]) && k <= |front| && Detached(pre) && s == front[k..] && callers == !EndsInUser(pre)
    requires SanitizeFrom(pre, s) == pre + s[Leading(s, callers)..]
    ensures SanitizeFrom(pre, s + [m]) == pre + (s + [m])[Leading(s + [m], callers)..]
  {
    var d := Leading(s, callers);
    LeadingExtend(s, m, callers);
    if d < |s| {
      TailContinues(pre, front, m, k, s, d);
    } else {
      TranscriptRoles(front, m);
      assert pre + s[d..] == pre;
      TailStarts(pre, s, m);
    }
  }

  /** What is left of a transcript's tail: all of it but the leading messages whose partners are gone. */
  lemma {:induction false} SanitizeTail(pre: seq<Message>, t: seq<Message>, k: nat)
    requires Transcript(t) && k <= |t| && Detached(pre)
    ensures SanitizeFrom(pre, t[k..]) == pre + t[k..][Leading(t[k..], !EndsInUser(pre))..]
    decreases |t|
  {
    if k == |t| {
      assert t[k..] == [];
    } else {
      var front, m := t[..|t| - 1], t[|t| - 1];
      assert t == front + [m];
      TranscriptRoles(front, m);
      SanitizeTail(pre, front, k);
      TailStep(pre, front, m, k, front[k..], !EndsInUser(pre));
      assert t[k..] == front[k..] + [m];
    }
  }
}
