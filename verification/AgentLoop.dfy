/** The session store and the agent loop that fills it, as the source writes them. */
module AgentLoop {
  import opened Text
  import opened History
  import opened HistoryRuns
  import opened AgentTurns

  // ----- sessions

  datatype Session = Session(messages: seq<Message>, summary: string)

  function HistoryOf(sessions: map<string, Session>, key: string): seq<Message> {
    if key in sessions then sessions[key].messages else []
  }

  class SessionManager {
    var sessions: map<string, Session>

    constructor ()
      ensures sessions == map[]
    {
      sessions := map[];
    }

    method AddFullMessage(key: string, m: Message)
      modifies this
      ensures key in sessions && HistoryOf(sessions, key) == HistoryOf(old(sessions), key) + [m]
      ensures sessions - {key} == old(sessions) - {key}
      ensures key in old(sessions) ==> sessions[key].summary == old(sessions)[key].summary
    {
      var session := if key in sessions then sessions[key] else Session([], "");
      sessions := sessions[key := session.(messages := session.messages + [m])];
    }

    method AddMessage(key: string, role: Role, content: string)
      modifies this
      ensures key in sessions
      ensures HistoryOf(sessions, key) == HistoryOf(old(sessions), key) + [Message(role, content, [], "")]
      ensures sessions - {key} == old(sessions) - {key}
    {
      AddFullMessage(key, Message(role, content, [], ""));
    }

    method GetHistory(key: string) returns (h: seq<Message>)
      ensures h == HistoryOf(sessions, key)
    {
      if key !in sessions {
        return [];
      }
      h := sessions[key].messages;
    }

    method SetHistory(key: string, h: seq<Message>)
      modifies this
      ensures HistoryOf(sessions, key) == if key in old(sessions) then h else []
      ensures sessions - {key} == old(sessions) - {key} && sessions.Keys == old(sessions.Keys)
      ensures key in sessions ==> sessions[key].summary == old(sessions)[key].summary
    {
      if key in sessions {
        sessions := sessions[key := sessions[key].(messages := h)];
      }
    }

    method TruncateHistory(key: string, keepLast: int)
      modifies this
      ensures HistoryOf(sessions, key) == Truncate(HistoryOf(old(sessions), key), keepLast)
      ensures var before, after := HistoryOf(old(sessions), key), HistoryOf(sessions, key);
              |after| == Max(0, Min(keepLast, |before|)) && after == before[|before| - |after|..]
      ensures sessions - {key} == old(sessions) - {key} && sessions.Keys == old(sessions.Keys)
      ensures key in sessions ==> sessions[key].summary == old(sessions)[key].summary
    {
      if key !in sessions {
        return;
      }
      var session := sessions[key];
      if keepLast <= 0 {
        sessions := sessions[key := session.(messages := [])];
        return;
      }
      if |session.messages| <= keepLast {
        return;
      }
      sessions := sessions[key := session.(messages := session.messages[|session.messages| - keepLast..])];
    }
  }

  // ----- repairing a history

  method SanitizeHistoryForProvider(history: seq<Message>) returns (sanitized: seq<Message>)
    ensures sanitized == Sanitize(history)
    ensures WellFormed(sanitized) && (sanitized == history <==> WellFormed(history))
  {
    sanitized := [];
    assert history[..0] == [];
    for n := 0 to |history|
      invariant sanitized == Sanitize(history[..n])
    {
      var m := history[n];
      SanitizeSnoc([], history[..n], m);
      assert history[..n + 1] == history[..n] + [m];
      match m.role {
        case System =>
        case Tool =>
          if |sanitized| > 0 {
            var foundAssistant := false;
            var i := |sanitized| - 1;
            assert sanitized[..|sanitized|] == sanitized;
            while i >= 0
              invariant -1 <= i < |sanitized| && !foundAssistant
              invariant AnswersCaller(sanitized) == AnswersCaller(sanitized[..i + 1])
            {
              assert sanitized[..i + 1][..i] == sanitized[..i];
              if sanitized[i].role == Tool {
                i := i - 1;
                continue;
              }
              if sanitized[i].role == Assistant && |sanitized[i].calls| > 0 {
                foundAssistant := true;
              }
              break;
            }
            if foundAssistant {
              sanitized := sanitized + [m];
            }
          }
        case Assistant =>
          if |m.calls| > 0 {
            if |sanitized| == 0 {
              continue;
            }
            var prev := sanitized[|sanitized| - 1];
            if prev.role != User && prev.role != Tool {
              continue;
            }
          }
          sanitized := sanitized + [m];
        case _ =>
          sanitized := sanitized + [m];
      }
    }
    assert history[..|history|] == history;
    SanitizedIsWellFormed(history);
    SanitizeFixesIff(history);
  }

  // ----- the loop

  class AgentLoop {
    const sessions: SessionManager
    const agent: Agent

    constructor (sessions: SessionManager, agent: Agent)
      ensures this.sessions == sessions && this.agent == agent
    {
      this.sessions, this.agent := sessions, agent;
    }

    method ForceCompression(key: string)
      modifies sessions
      ensures HistoryOf(sessions.sessions, key) == Compress(HistoryOf(old(sessions.sessions), key), agent.note)
      ensures sessions.sessions - {key} == old(sessions.sessions) - {key}
    {
      var history := sessions.GetHistory(key);
      if |history| <= 4 {
        return;
      }
      var newHistory := DropOlderHalf(history);
      sessions.SetHistory(key, newHistory);
    }

    method DropOlderHalf(history: seq<Message>) returns (newHistory: seq<Message>)
      requires |history| > 4
      ensures newHistory == Compress(history, agent.note)
    {
      var conversation := history[1..|history| - 1];
      var mid := |conversation| / 2;
      var first := history[0];
      first := first.(content := first.content + agent.note(mid));
      newHistory := [first] + conversation[mid..] + [history[|history| - 1]];
    }

    /** Adds a caller and its results to the request and to the session. */
    method AddBlock(key: string, request: seq<Message>, content: string, calls: seq<Call>)
      returns (messages: seq<Message>)
      requires calls != []
      modifies sessions
      ensures messages == request + Block(content, calls, |calls|)
      ensures HistoryOf(sessions.sessions, key)
           == HistoryOf(old(sessions.sessions), key) + Block(content, calls, |calls|)
      ensures sessions.sessions - {key} == old(sessions.sessions) - {key}
    {
      ghost var before := HistoryOf(sessions.sessions, key);
      var caller := Caller(content, calls);
      messages := request + [caller];
      sessions.AddFullMessage(key, caller);
      assert Block(content, calls, 0) == [caller];
      for n := 0 to |calls|
        invariant messages == request + Block(content, calls, n)
        invariant HistoryOf(sessions.sessions, key) == before + Block(content, calls, n)
        invariant sessions.sessions - {key} == old(sessions.sessions) - {key}
      {
        var m := Message(Tool, calls[n].result, [], calls[n].id);
        BlockGrows(request, content, calls, n);
        BlockGrows(before, content, calls, n);
        messages := messages + [m];
        sessions.AddFullMessage(key, m);
      }
    }

    /** Calls the model, compressing the history and trying again when the context is too long. */
    method CallModel(key: string, request: seq<Message>, iteration: nat)
      returns (reply: Reply, messages: seq<Message>, sent: seq<seq<Message>>)
      modifies sessions
      ensures Called(reply, messages, HistoryOf(sessions.sessions, key), sent)
           == Tried(agent, iteration, MAX_RETRIES, HistoryOf(old(sessions.sessions), key), request)
      ensures sessions.sessions - {key} == old(sessions.sessions) - {key}
    {
      ghost var before := HistoryOf(sessions.sessions, key);
      messages, sent := request, [];
      var retry := 0;
      while true
        invariant retry <= MAX_RETRIES
        invariant retry > 0 ==> TooLong(Tried(agent, iteration, retry - 1, before, request).reply)
        invariant Called(agent.model(iteration, retry), messages, HistoryOf(sessions.sessions, key), sent + [messages])
               == Tried(agent, iteration, retry, before, request)
        invariant sessions.sessions - {key} == old(sessions.sessions) - {key}
        decreases MAX_RETRIES - retry
      {
        reply := agent.model(iteration, retry);
        sent := sent + [messages];
        if TooLong(reply) && retry < MAX_RETRIES {
          ForceCompression(key);
          var history := sessions.GetHistory(key);
          messages := BuildMessages(agent.prompt, history, "");
          retry := retry + 1;
          continue;
        }
        NoMoreTries(agent, iteration, retry, before, request);
        break;
      }
    }

    method RunLLMIteration(key: string, request: seq<Message>)
      returns (ok: bool, content: string, sent: seq<seq<Message>>, ghost said: seq<Message>)
      modifies sessions
      ensures var p := Iterated(agent, agent.max, HistoryOf(old(sessions.sessions), key), request);
              && sent == p.sent && said == p.said && HistoryOf(sessions.sessions, key) == p.history
              && ok == !(p.end.Some? && p.end.value.Failure?)
              && (ok ==> content == if p.end.Some? then p.end.value.content else "")
      ensures sessions.sessions - {key} == old(sessions.sessions) - {key}
    {
      ghost var before := HistoryOf(sessions.sessions, key);
      var messages := request;
      var iteration := 0;
      ok, content, sent, said := true, "", [], [];
      while iteration < agent.max
        invariant iteration <= agent.max && ok && content == ""
        invariant Progress(HistoryOf(sessions.sessions, key), messages, sent, said, None)
               == Iterated(agent, iteration, before, request)
        invariant sessions.sessions - {key} == old(sessions.sessions) - {key}
        decreases agent.max - iteration
      {
        iteration := iteration + 1;
        var reply, requests;
        reply, messages, requests := CallModel(key, messages, iteration);
        sent := sent + requests;
        if reply.Failure? {
          NoMoreIterations(agent, iteration, agent.max, before, request);
          ok := false;
          return;
        }
        if |reply.calls| == 0 {
          NoMoreIterations(agent, iteration, agent.max, before, request);
          content := reply.content;
          break;
        }
        messages := AddBlock(key, messages, reply.content, reply.calls);
        said := said + Block(reply.content, reply.calls, |reply.calls|);
      }
    }

    method RunAgentLoop(key: string, user: string) returns (ok: bool, answer: string, sent: seq<seq<Message>>)
      modifies sessions
      ensures var o := Turn(agent, HistoryOf(old(sessions.sessions), key), user);
              && sent == o.sent && HistoryOf(sessions.sessions, key) == o.history
              && ok == o.answer.Some? && (ok ==> answer == o.answer.value)
      ensures sessions.sessions - {key} == old(sessions.sessions) - {key}
    {
      var history := [];
      if !agent.noHistory {
        history := sessions.GetHistory(key);
      }
      var messages := BuildMessages(agent.prompt, history, user);
      sessions.AddMessage(key, User, user);
      ghost var said;
      ok, answer, sent, said := RunLLMIteration(key, messages);
      if !ok {
        return;
      }
      if answer == "" {
        answer := agent.defaultResponse;
      }
      sessions.AddMessage(key, Assistant, answer);
    }
  }
}
