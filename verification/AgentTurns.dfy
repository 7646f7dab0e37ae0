/**
 * One turn of the agent loop as a function of the model's replies: the requests it sends, what it says and
 * what the session holds afterwards.
 */
module AgentTurns {
  import opened Text
  import opened History
  import opened HistoryRuns

  datatype Call = Call(id: string, result: string)

  /** What the model answers, or how the call to it fails. */
  datatype Reply = Reply(content: string, calls: seq<Call>) | Failure(context: bool)

  function Caller(content: string, calls: seq<Call>): Message {
    Message(Assistant, content, seq(|calls|, i requires 0 <= i < |calls| => calls[i].id), "")
  }

  function Results(calls: seq<Call>): seq<Message> {
    seq(|calls|, i requires 0 <= i < |calls| => Message(Tool, calls[i].result, [], calls[i].id))
  }

  /** The messages of a caller with its first `n` results. */
  function Block(content: string, calls: seq<Call>, n: nat): seq<Message>
    requires n <= |calls|
  {
    [Caller(content, calls)] + Results(calls)[..n]
  }

  /** A block is the caller, with the ids of its calls, and for each call its result under its id. */
  lemma BlockShape(content: string, calls: seq<Call>)
    ensures var b := Block(content, calls, |calls|);
            && |b| == |calls| + 1 && b[0].role == Assistant && b[0].content == content && |b[0].calls| == |calls|
            && forall n | 0 <= n < |calls| ::
                 b[0].calls[n] == calls[n].id && b[n + 1] == Message(Tool, calls[n].result, [], calls[n].id)
  {
  }

  lemma BlockGrows(pre: seq<Message>, content: string, calls: seq<Call>, n: nat)
    requires n < |calls|
    ensures pre + Block(content, calls, n + 1)
         == pre + Block(content, calls, n) + [Message(Tool, calls[n].result, [], calls[n].id)]
  {
    assert Results(calls)[..n + 1] == Results(calls)[..n] + [Results(calls)[n]];
  }

  lemma PairedBlock(o: seq<Message>, content: string, calls: seq<Call>)
    requires Paired(o)
    ensures Paired(o + Block(content, calls, |calls|))
  {
    var block := Block(content, calls, |calls|);
    var longer := o + block;
    assert forall i | 0 <= i < |o| :: longer[i] == o[i];
    assert forall i | |o| < i < |longer| :: longer[i] == Results(calls)[i - |o| - 1];
    assert longer[|o|] == Caller(content, calls);
    forall i | 0 <= i < |o|
      ensures PairedAt(longer, i) && OwnedAt(longer, i)
    {
      assert PairedAt(o, i) && OwnedAt(o, i);
    }
  }

  lemma RequestBlock(r: seq<Message>, content: string, calls: seq<Call>)
    requires Request(r)
    ensures Request(r + Block(content, calls, |calls|))
  {
    var block := Block(content, calls, |calls|);
    PairedBlock(r[1..], content, calls);
    assert (r + block)[1..] == r[1..] + block;
    assert forall i | 0 <= i < |block| :: block[i].role != System;
  }

  lemma PhaseSnoc(t: seq<Message>, m: Message)
    requires Transcript(t)
    ensures PhaseOf(t + [m]) == NextPhase(PhaseOf(t).value, m)
  {
    assert (t + [m])[..|t|] == t;
  }

  lemma PhaseInBlock(p: Phase, content: string, calls: seq<Call>, n: nat)
    requires n < |calls| && p == Awaiting(Caller(content, calls).calls[n..])
    ensures NextPhase(p, Message(Tool, calls[n].result, [], calls[n].id))
         == Some(if n + 1 == |calls| then InTurn else Awaiting(Caller(content, calls).calls[n + 1..]))
  {
  }

  /** A result that is awaited keeps the session a tail of what was said. */
  lemma BlockStep(h: seq<Message>, said: seq<Message>, content: string, calls: seq<Call>, n: nat)
    requires n < |calls| && Stored(h, said) && PhaseOf(said) == Some(Awaiting(Caller(content, calls).calls[n..]))
    ensures var m := Message(Tool, calls[n].result, [], calls[n].id);
            && Stored(h + [m], said + [m])
            && PhaseOf(said + [m])
            == Some(if n + 1 == |calls| then InTurn else Awaiting(Caller(content, calls).calls[n + 1..]))
  {
    var m := Message(Tool, calls[n].result, [], calls[n].id);
    PhaseInBlock(PhaseOf(said).value, content, calls, n);
    PhaseSnoc(said, m);
    StoredAppend(h, said, m);
  }

  // ----- the turn

  /** What the model answers in each iteration, on each try. */
  type Model = (nat, nat) -> Reply

  /** What a turn depends on, beside the session and the user's message. */
  datatype Agent = Agent(
    model: Model, max: nat, prompt: string, note: Note, noHistory: bool, defaultResponse: string)

  predicate TooLong(r: Reply) {
    r.Failure? && r.context
  }

  /** A call to the model: its last reply, the last request, the session's history, and all requests sent. */
  datatype Called = Called(reply: Reply, messages: seq<Message>, history: seq<Message>, sent: seq<seq<Message>>)

  /** The first try and up to `retry` more: while the context is too long, history and request are made shorter. */
  function Tried(a: Agent, iteration: nat, retry: nat, history: seq<Message>, messages: seq<Message>): Called {
    if retry == 0 then Called(a.model(iteration, 0), messages, history, [messages])
    else
      var c := Tried(a, iteration, retry - 1, history, messages);
      if TooLong(c.reply) then TryAgain(a, iteration, retry, c) else c
  }

  function TryAgain(a: Agent, iteration: nat, retry: nat, c: Called): Called {
    var shorter := Compress(c.history, a.note);
    var messages := BuildMessages(a.prompt, shorter, "");
    Called(a.model(iteration, retry), messages, shorter, c.sent + [messages])
  }

  const MAX_RETRIES := 2

  /** Where a turn stands: `end` is the reply that ended it. */
  datatype Progress = Progress(
    history: seq<Message>, messages: seq<Message>, sent: seq<seq<Message>>, said: seq<Message>, end: Option<Reply>)

  /** One iteration: a call to the model and, if the reply makes tool calls, its block. */
  function Iterate(p: Progress, c: Called): Progress {
    var sent := p.sent + c.sent;
    if c.reply.Failure? || c.reply.calls == [] then Progress(c.history, c.messages, sent, p.said, Some(c.reply))
    else
      var block := Block(c.reply.content, c.reply.calls, |c.reply.calls|);
      Progress(c.history + block, c.messages + block, sent, p.said + block, None)
  }

  /** The first `n` iterations. */
  function Iterated(a: Agent, n: nat, history: seq<Message>, messages: seq<Message>): Progress {
    if n == 0 then Progress(history, messages, [], [], None)
    else
      var p := Iterated(a, n - 1, history, messages);
      if p.end.Some? then p else Iterate(p, Tried(a, n, MAX_RETRIES, p.history, p.messages))
  }

  /** The answer of a turn, unless its last call failed. */
  function Answer(end: Option<Reply>, defaultResponse: string): Option<string> {
    match end
    case Some(Failure(_)) => None
    case Some(Reply(content, _)) => Some(if content == "" then defaultResponse else content)
    case None => Some(defaultResponse)
  }

  /** What a turn leaves in the session, the requests it sent, and everything said in it. */
  datatype Outcome = Outcome(history: seq<Message>, sent: seq<seq<Message>>, said: seq<Message>, answer: Option<string>)

  function Ended(user: string, p: Progress, defaultResponse: string): Outcome {
    var answer := Answer(p.end, defaultResponse);
    var last := if answer.Some? then [Message(Assistant, answer.value, [], "")] else [];
    Outcome(p.history + last, p.sent, [UserMessage(user)] + p.said + last, answer)
  }

  /** A turn on a session: the user's message, the iterations, and the answer. */
  function Turn(a: Agent, history: seq<Message>, user: string): Outcome {
    Ended(user, Iterated(a, a.max, history + [UserMessage(user)], FirstRequest(a, history, user)), a.defaultResponse)
  }

  function FirstRequest(a: Agent, history: seq<Message>, user: string): seq<Message> {
    BuildMessages(a.prompt, if a.noHistory then [] else history, user)
  }

  /** Nothing is tried again after a reply that is not too long. */
  lemma NoMoreTries(a: Agent, iteration: nat, retry: nat, history: seq<Message>, messages: seq<Message>)
    requires retry <= MAX_RETRIES
    requires retry == MAX_RETRIES || !TooLong(Tried(a, iteration, retry, history, messages).reply)
    ensures Tried(a, iteration, MAX_RETRIES, history, messages) == Tried(a, iteration, retry, history, messages)
    decreases MAX_RETRIES - retry
  {
    if retry < MAX_RETRIES {
      NoMoreTries(a, iteration, retry + 1, history, messages);
    }
  }

  /** Nothing is done after the end of a turn. */
  lemma {:induction false} NoMoreIterations(a: Agent, n: nat, more: nat, history: seq<Message>, messages: seq<Message>)
    requires n <= more && Iterated(a, n, history, messages).end.Some?
    ensures Iterated(a, more, history, messages) == Iterated(a, n, history, messages)
    decreases more
  {
    if n < more {
      NoMoreIterations(a, n, more - 1, history, messages);
    }
  }

  // ----- what a turn does with the model's replies

  /** The reply an iteration ends with: that of the first try whose context was not too long, or of the third. */
  function Settled(model: Model, iteration: nat): Reply {
    if !TooLong(model(iteration, 0)) then model(iteration, 0)
    else if !TooLong(model(iteration, 1)) then model(iteration, 1)
    else model(iteration, 2)
  }

  /**
   * An iteration sends its request; while the context is too long, up to twice, it compresses the history once
   * more and sends that instead, without the user's message.
   */
  lemma TriesShape(a: Agent, iteration: nat, history: seq<Message>, messages: seq<Message>)
    ensures var c := Tried(a, iteration, MAX_RETRIES, history, messages);
            var once := Compress(history, a.note);
            && c.reply == Settled(a.model, iteration) && c.sent != [] && c.sent[0] == messages
            && c.messages == c.sent[|c.sent| - 1]
            && if !TooLong(a.model(iteration, 0)) then |c.sent| == 1 && c.history == history
               else if !TooLong(a.model(iteration, 1)) then
                 |c.sent| == 2 && c.history == once && Carries(c.sent[1], a.prompt, once, "")
               else
                 var twice := Compress(once, a.note);
                 && |c.sent| == 3 && c.history == twice
                 && Carries(c.sent[1], a.prompt, once, "") && Carries(c.sent[2], a.prompt, twice, "")
  {
    var once := Compress(history, a.note);
    BuiltIsWellFormed(a.prompt, once, "");
    BuiltIsWellFormed(a.prompt, Compress(once, a.note), "");
    var first := Tried(a, iteration, 0, history, messages);
    assert first == Called(a.model(iteration, 0), messages, history, [messages]);
    var second := Tried(a, iteration, 1, history, messages);
    assert second == if TooLong(first.reply) then TryAgain(a, iteration, 1, first) else first;
    assert Tried(a, iteration, 2, history, messages)
        == if TooLong(second.reply) then TryAgain(a, iteration, 2, second) else second;
  }

  /** A reply that ends the turn: a failure or a direct answer. */
  predicate Final(r: Reply) {
    r.Failure? || r.calls == []
  }

  /** The blocks of the first `n` iterations. */
  function Blocks(model: Model, n: nat): seq<Message> {
    if n == 0 then []
    else
      var r := Settled(model, n);
      Blocks(model, n - 1) + if r.Failure? then [] else Block(r.content, r.calls, |r.calls|)
  }

  lemma {:induction false} IterationsFollow(a: Agent, n: nat, history: seq<Message>, messages: seq<Message>)
    requires forall i | 1 <= i <= n :: !Final(Settled(a.model, i))
    ensures var p := Iterated(a, n, history, messages);
            p.end == None && p.said == Blocks(a.model, n) && (n > 0 ==> p.sent != [] && p.sent[0] == messages)
  {
    if n > 0 {
      IterationsFollow(a, n - 1, history, messages);
      var p := Iterated(a, n - 1, history, messages);
      TriesShape(a, n, p.history, p.messages);
    }
  }

  /** The first iteration whose reply ends the turn; one past the last if there is none. */
  lemma {:induction false} FirstFinal(model: Model, n: nat) returns (k: nat)
    ensures 1 <= k <= n + 1 && (forall i | 1 <= i < k :: !Final(Settled(model, i)))
    ensures k <= n ==> Final(Settled(model, k))
  {
    if n == 0 {
      k := 1;
    } else {
      k := FirstFinal(model, n - 1);
      if k == n && !Final(Settled(model, n)) {
        k := n + 1;
      }
    }
  }

  /** The iterations end with the first final reply. */
  lemma IterationsEnd(a: Agent, k: nat, history: seq<Message>, messages: seq<Message>)
    requires 1 <= k <= a.max + 1 && (forall i | 1 <= i < k :: !Final(Settled(a.model, i)))
    requires k <= a.max ==> Final(Settled(a.model, k))
    ensures var p := Iterated(a, a.max, history, messages);
            && p.end == (if k <= a.max then Some(Settled(a.model, k)) else None)
            && p.said == Blocks(a.model, k - 1)
            && (a.max > 0 ==> p.sent != [] && p.sent[0] == messages)
  {
    IterationsFollow(a, k - 1, history, messages);
    if k <= a.max {
      var p := Iterated(a, k - 1, history, messages);
      TriesShape(a, k, p.history, p.messages);
      assert Iterated(a, k, history, messages) == Iterate(p, Tried(a, k, MAX_RETRIES, p.history, p.messages));
      NoMoreIterations(a, k, a.max, history, messages);
    }
  }

  /** The answer a turn gives for the reply that ended it; the default if that is empty or none did. */
  ghost predicate Answers(answer: Option<string>, end: Option<Reply>, defaultResponse: string) {
    match end
    case None => answer == Some(defaultResponse)
    case Some(Failure(_)) => answer == None
    case Some(Reply(content, _)) => answer == Some(if content != "" then content else defaultResponse)
  }

  /**
   * A turn says the user's message, a block for each iteration up to the first final reply, and its answer,
   * which is the last message of the session. Its first request carries the user's message.
   */
  lemma TurnFollowsReplies(a: Agent, history: seq<Message>, user: string) returns (k: nat)
    ensures 1 <= k <= a.max + 1 && (forall i | 1 <= i < k :: !Final(Settled(a.model, i)))
    ensures k <= a.max ==> Final(Settled(a.model, k))
    ensures var o := Turn(a, history, user);
            && Answers(o.answer, if k <= a.max then Some(Settled(a.model, k)) else None, a.defaultResponse)
            && (a.max > 0 ==>
                  o.sent != [] && Carries(o.sent[0], a.prompt, if a.noHistory then [] else history, user))
            && match o.answer
               case None => o.said == [Message(User, user, [], "")] + Blocks(a.model, k - 1)
               case Some(text) =>
                 var last := Message(Assistant, text, [], "");
                 && o.said == [Message(User, user, [], "")] + Blocks(a.model, k - 1) + [last]
                 && o.history != [] && o.history[|o.history| - 1] == last
  {
    k := FirstFinal(a.model, a.max);
    var begun, first := history + [UserMessage(user)], FirstRequest(a, history, user);
    IterationsEnd(a, k, begun, first);
    BuiltIsWellFormed(a.prompt, if a.noHistory then [] else history, user);
    var p := Iterated(a, a.max, begun, first);
    assert [UserMessage(user)] + p.said + [] == [UserMessage(user)] + p.said;
  }

  // ----- what every turn keeps

  ghost predicate Requests(sent: seq<seq<Message>>) {
    forall r <- sent :: Request(r)
  }

  /** In a turn, with a session that is a tail of what was said. */
  ghost predicate MidTurn(history: seq<Message>, said: seq<Message>) {
    Stored(history, said) && PhaseOf(said) == Some(InTurn)
  }

  ghost predicate CallSound(c: Called, said: seq<Message>) {
    Requests(c.sent) && Request(c.messages) && MidTurn(c.history, said)
  }

  lemma TryAgainSound(a: Agent, iteration: nat, retry: nat, c: Called, said: seq<Message>)
    requires CallSound(c, said)
    ensures CallSound(TryAgain(a, iteration, retry, c), said)
  {
    var shorter := Compress(c.history, a.note);
    StoredCompress(c.history, said, a.note);
    StoredIsPaired(shorter, said);
    BuiltIsRequest(a.prompt, shorter, "");
  }

  /** Every try sends a proper request, and compressing keeps the session a tail of what was said. */
  lemma {:induction false} TriesSound(a: Agent, iteration: nat, retry: nat, history: seq<Message>,
                                      messages: seq<Message>, said: seq<Message>)
    requires Request(messages) && MidTurn(history, said)
    ensures CallSound(Tried(a, iteration, retry, history, messages), said)
  {
    if retry > 0 {
      TriesSound(a, iteration, retry - 1, history, messages, said);
      var c := Tried(a, iteration, retry - 1, history, messages);
      if TooLong(c.reply) {
        TryAgainSound(a, iteration, retry, c, said);
      }
    }
  }

  /** The first `n` results of a block. */
  lemma {:induction false} ResultsKeep(history: seq<Message>, said: seq<Message>, content: string, calls: seq<Call>,
                                       n: nat)
    requires MidTurn(history, said) && calls != [] && n <= |calls|
    ensures var block := Block(content, calls, n);
            && Stored(history + block, said + block)
            && PhaseOf(said + block)
            == Some(if n == |calls| then InTurn else Awaiting(Caller(content, calls).calls[n..]))
    decreases n
  {
    var caller := Caller(content, calls);
    if n == 0 {
      PhaseSnoc(said, caller);
      StoredAppend(history, said, caller);
      assert Block(content, calls, 0) == [caller] && caller.calls[0..] == caller.calls;
    } else {
      ResultsKeep(history, said, content, calls, n - 1);
      BlockGrows(history, content, calls, n - 1);
      BlockGrows(said, content, calls, n - 1);
      BlockStep(history + Block(content, calls, n - 1), said + Block(content, calls, n - 1), content, calls, n - 1);
    }
  }

  ghost predicate ProgressSound(p: Progress, before: seq<Message>) {
    Requests(p.sent) && Request(p.messages) && MidTurn(p.history, before + p.said)
  }

  lemma RequestsConcat(a: seq<seq<Message>>, b: seq<seq<Message>>)
    requires Requests(a) && Requests(b)
    ensures Requests(a + b)
  {
  }

  /** A whole block keeps the request proper and the session a tail of what was said. */
  lemma BlockSound(c: Called, before: seq<Message>, said: seq<Message>)
    requires CallSound(c, before + said) && c.reply.Reply? && c.reply.calls != []
    ensures var block := Block(c.reply.content, c.reply.calls, |c.reply.calls|);
            Request(c.messages + block) && MidTurn(c.history + block, before + (said + block))
  {
    ResultsKeep(c.history, before + said, c.reply.content, c.reply.calls, |c.reply.calls|);
    RequestBlock(c.messages, c.reply.content, c.reply.calls);
    Assoc(before, said, Block(c.reply.content, c.reply.calls, |c.reply.calls|));
  }

  lemma IterationSound(p: Progress, c: Called, before: seq<Message>)
    requires ProgressSound(p, before) && CallSound(c, before + p.said)
    ensures ProgressSound(Iterate(p, c), before)
  {
    RequestsConcat(p.sent, c.sent);
    if c.reply.Reply? && c.reply.calls != [] {
      BlockSound(c, before, p.said);
    }
  }

  lemma {:induction false} IterationsSound(a: Agent, n: nat, history: seq<Message>, messages: seq<Message>,
                                           before: seq<Message>)
    requires Request(messages) && MidTurn(history, before)
    ensures ProgressSound(Iterated(a, n, history, messages), before)
  {
    if n == 0 {
      assert before + [] == before;
    } else {
      IterationsSound(a, n - 1, history, messages, before);
      var p := Iterated(a, n - 1, history, messages);
      TriesSound(a, n, MAX_RETRIES, p.history, p.messages, before + p.said);
      if p.end.None? {
        IterationSound(p, Tried(a, n, MAX_RETRIES, p.history, p.messages), before);
      }
    }
  }

  lemma FirstIsRequest(a: Agent, history: seq<Message>, user: string, said: seq<Message>)
    requires Stored(history, said) && Closed(said)
    ensures Request(FirstRequest(a, history, user))
  {
    if !a.noHistory {
      StoredIsPaired(history, said);
    }
    BuiltIsRequest(a.prompt, if a.noHistory then [] else history, user);
  }

  lemma TurnEnds(said: seq<Message>, user: string, p: Progress, defaultResponse: string)
    requires MidTurn(p.history, said + [UserMessage(user)] + p.said)
    ensures var o := Ended(user, p, defaultResponse); Closed(said + o.said) && Stored(o.history, said + o.said)
  {
    var begun := said + [UserMessage(user)] + p.said;
    var answer := Answer(p.end, defaultResponse);
    if answer.Some? {
      var last := Message(Assistant, answer.value, [], "");
      PhaseSnoc(begun, last);
      StoredAppend(p.history, begun, last);
      assert said + ([UserMessage(user)] + p.said + [last]) == begun + [last];
    } else {
      assert said + ([UserMessage(user)] + p.said + []) == begun;
      assert p.history + [] == p.history;
    }
  }

  /**
   * Every request a turn sends is one system message followed by messages in which each tool call has its
   * results, and the session stays a tail of a transcript in which no result is missing.
   */
  lemma TurnSound(a: Agent, history: seq<Message>, user: string, said: seq<Message>)
    requires Stored(history, said) && Closed(said)
    ensures var o := Turn(a, history, user);
            Requests(o.sent) && Closed(said + o.said) && Stored(o.history, said + o.said)
  {
    var m := UserMessage(user);
    FirstIsRequest(a, history, user, said);
    PhaseSnoc(said, m);
    StoredAppend(history, said, m);
    IterationsSound(a, a.max, history + [m], FirstRequest(a, history, user), said + [m]);
    TurnEnds(said, user, Iterated(a, a.max, history + [m], FirstRequest(a, history, user)), a.defaultResponse);
  }

  // ----- turns without compression

  /** The context is never too long on the first try. */
  ghost predicate ContextFits(model: Model) {
    forall i: nat :: !TooLong(model(i, 0))
  }

  lemma CallFits(a: Agent, iteration: nat, history: seq<Message>, messages: seq<Message>)
    requires ContextFits(a.model)
    ensures Tried(a, iteration, MAX_RETRIES, history, messages)
         == Called(a.model(iteration, 0), messages, history, [messages])
  {
    NoMoreTries(a, iteration, 0, history, messages);
  }

  /** Each request extends the one before it, the first of which is `first`, and `next` extends them all. */
  ghost predicate Growing(sent: seq<seq<Message>>, first: seq<Message>, next: seq<Message>, strict: bool) {
    && (sent != [] ==> sent[0] == first && if strict then sent[|sent| - 1] < next else sent[|sent| - 1] <= next)
    && (sent == [] ==> next == first)
    && forall k | 0 < k < |sent| :: sent[k - 1] < sent[k]
  }

  lemma GrowingSnoc(sent: seq<seq<Message>>, first: seq<Message>, next: seq<Message>, block: seq<Message>)
    requires Growing(sent, first, next, true)
    ensures Growing(sent + [next], first, next + block, block != [])
  {
  }

  lemma {:induction false} RequestsGrow(a: Agent, n: nat, history: seq<Message>, messages: seq<Message>)
    requires ContextFits(a.model)
    ensures var p := Iterated(a, n, history, messages);
            Growing(p.sent, messages, p.messages, p.end.None?) && |p.sent| <= n && (n > 0 ==> p.sent != [])
  {
    if n > 0 {
      RequestsGrow(a, n - 1, history, messages);
      var p := Iterated(a, n - 1, history, messages);
      CallFits(a, n, p.history, p.messages);
      var reply := a.model(n, 0);
      if p.end.None? {
        if reply.Reply? && reply.calls != [] {
          GrowingSnoc(p.sent, messages, p.messages, Block(reply.content, reply.calls, |reply.calls|));
        } else {
          GrowingSnoc(p.sent, messages, p.messages, []);
          assert p.messages + [] == p.messages;
        }
      }
    }
  }

  lemma {:induction false} IterationsRecorded(a: Agent, n: nat, history: seq<Message>, messages: seq<Message>)
    requires ContextFits(a.model)
    ensures var p := Iterated(a, n, history, messages);
            p.history == history + p.said && p.messages == messages + p.said
  {
    if n == 0 {
      assert history + [] == history && messages + [] == messages;
    } else {
      IterationsRecorded(a, n - 1, history, messages);
      var p := Iterated(a, n - 1, history, messages);
      CallFits(a, n, p.history, p.messages);
      var reply := a.model(n, 0);
      if p.end.None? && reply.Reply? && reply.calls != [] {
        var block := Block(reply.content, reply.calls, |reply.calls|);
        Assoc(history, p.said, block);
        Assoc(messages, p.said, block);
      }
    }
  }

  lemma Assoc(a: seq<Message>, b: seq<Message>, c: seq<Message>)
    ensures a + (b + c) == a + b + c
  {
  }

  /**
   * Unless the context is too long, the session records the turn in full after what it held before, and
   * each iteration sends one request, which extends the one before it.
   */
  lemma TurnRecorded(a: Agent, history: seq<Message>, user: string)
    requires ContextFits(a.model)
    ensures var o := Turn(a, history, user);
            && o.history == history + o.said
            && |o.sent| <= a.max && (a.max > 0 ==> o.sent != [] && o.sent[0] == FirstRequest(a, history, user))
            && forall k | 0 < k < |o.sent| :: o.sent[k - 1] < o.sent[k]
  {
    var first, begun := FirstRequest(a, history, user), history + [UserMessage(user)];
    IterationsRecorded(a, a.max, begun, first);
    RequestsGrow(a, a.max, begun, first);
    EndedRecorded(history, user, Iterated(a, a.max, begun, first), a.defaultResponse);
  }

  lemma EndedRecorded(history: seq<Message>, user: string, p: Progress, defaultResponse: string)
    requires p.history == history + [UserMessage(user)] + p.said
    ensures var o := Ended(user, p, defaultResponse); o.history == history + o.said
  {
    var answer := Answer(p.end, defaultResponse);
    var last := if answer.Some? then [Message(Assistant, answer.value, [], "")] else [];
    Assoc(history, [UserMessage(user)] + p.said, last);
    Assoc(history, [UserMessage(user)], p.said);
  }
}
