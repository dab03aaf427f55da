/** What a delegation brings back to the agent that asked for it (internal/subagent/subagent.go:38-109,
    internal/tools/call_agent.go:99-129, internal/chat/service.go:106-178). */
module SubAgents {
  import opened Basics
  import opened Messages
  import opened Sessions
  import opened Runtime
  import opened Chat
  import opened Delegation
  import ToolCalls

  /** From n on there is no completion; the one before is the answer, or nothing if there is none. */
  predicate AnswerBefore(events: seq<Event>, n: nat, answer: string)
    requires n <= |events|
  {
    && (forall j :: n <= j < |events| ==> !events[j].CompleteEvent?)
    && (if n == 0 then answer == "" else events[n - 1].CompleteEvent? && answer == events[n - 1].completion.content)
  }

  /** The content of the last completion, or nothing if there was none. */
  ghost predicate IsLastAnswer(events: seq<Event>, answer: string)
  {
    exists n: nat :: n <= |events| && AnswerBefore(events, n, answer)
  }

  /** The sub-agent's last answer, and that it failed exactly if its run ended with an error that is no
      cancellation. */
  ghost predicate ReportsRun(text: string, agentID: string, events: seq<Event>)
  {
    && events != [] && Last(events).LoopExitEvent?
    && var exit := Last(events).exit;
       var failed := exit.Some? && Canceled !in ToolCalls.Chain(exit.value);
       exists answer :: IsLastAnswer(events, answer)
                        && text == if failed then answer + "sub agent " + agentID + ", fall with error" else answer
  }

  function LastContent(events: seq<Event>): string
  {
    if Contents(events) == [] then "" else Last(Contents(events))
  }

  lemma LastContentSnoc(events: seq<Event>, ev: Event)
    ensures LastContent(events + [ev]) == if ev.CompleteEvent? then ev.completion.content else LastContent(events)
  {
    assert Front(events + [ev]) == events;
  }

  lemma {:induction false} LastContentIsAnswer(events: seq<Event>) returns (n: nat)
    ensures n <= |events| && AnswerBefore(events, n, LastContent(events))
  {
    n := 0;
    if events != [] {
      var front, ev := Front(events), Last(events);
      n := LastContentIsAnswer(front);
      LastContentSnoc(front, ev);
      n := AnswerSnoc(front, ev, n, LastContent(front));
      FrontAndLast(events);
    }
  }

  lemma AnswerSnoc(events: seq<Event>, ev: Event, before: nat, answer: string) returns (n: nat)
    requires before <= |events| && AnswerBefore(events, before, answer)
    ensures n <= |events + [ev]|
    ensures AnswerBefore(events + [ev], n, if ev.CompleteEvent? then ev.completion.content else answer)
  {
    n := if ev.CompleteEvent? then |events| + 1 else before;
  }

  lemma FrontAndLast(events: seq<Event>)
    requires events != []
    ensures Front(events) + [Last(events)] == events
  {
  }

  lemma ReportIsOfRun(agentID: string, events: seq<Event>)
    requires events != [] && Last(events).LoopExitEvent?
    ensures ReportsRun(Report(agentID, events), agentID, events)
  {
    var n := LastContentIsAnswer(events);
    assert IsLastAnswer(events, LastContent(events));
    if Last(events).exit.Some? {
      ToolCalls.ChainHolds(Last(events).exit.value, Canceled);
    }
  }

  lemma RunReported<W(!new)>(env: Env<W>, w: W, initial: seq<Message>, agentID: string)
    ensures var events := Loop(env, w, initial).events;
            ReportsRun(Delegation.Answer(agentID, ForwardAll(events)), agentID, events)
  {
    AnswerOfRun(env, w, initial, agentID);
    ReportIsOfRun(agentID, Loop(env, w, initial).events);
  }

  // ----- the chat ---------------------------------------------------------------

  /** The question joins a user message at the end of the stored conversation, or stands by itself. */
  lemma QuestionReceived(stored: SessionState, content: seq<ContentPart>)
    ensures Received(stored, UserMessage(content)) == stored.(messages :=
              if stored.messages != [] && Last(stored.messages).UserMessage?
              then Front(stored.messages) + [UserMessage(Last(stored.messages).content + content)]
              else stored.messages + [UserMessage(content)])
  {
    var m := UserMessage(content);
    assert Front([m]) == [];
    assert PushAll(stored.messages, []) == stored.messages;
    if stored.messages == [] {
      assert stored.messages + [m] == [m];
    }
  }

  /** The tools of an agent are its own, but for call_agent. */
  lemma OnlyCallAgentDelegates<W>(svc: Services<W>, stack: Stack, env: Env<W>, w: W, name: string, args: string)
    ensures var d := DelegatingEnv(svc, stack, env);
            && d == env.(callTool := d.callTool)
            && d.callTool(w, name, args) ==
               if name == "call_agent" then CallAgent(svc, stack, w, args) else env.callTool(w, name, args)
  {
  }

  /** The run of a prepared chat: on the system message, the stored conversation and the question. */
  ghost predicate IsRun<W>(run: Step<W>, svc: Services<W>, stack: Stack, w: W, p: Prepared<W>, question: Message)
  {
    run == Loop(DelegatingEnv(svc, stack, p.env), w, [p.system] + Received(p.stored, question).messages)
  }

  /** A chat runs on what was prepared and saves the session with everything the run added to it. */
  lemma ChatSaves<W>(svc: Services<W>, stack: Stack, w: W, agentID: string, sessID: string, question: Message)
    returns (run: Option<Step<W>>)
    ensures var prepared := svc.prepare(w, stack, agentID, sessID, question);
            var chat := ChatAt(svc, stack, w, agentID, sessID, question);
            match prepared.outcome
            case Err(e) => run == None && chat == Reply(prepared.world, Err(e))
            case Ok(p) =>
              && run.Some? && IsRun(run.value, svc, stack, prepared.world, p, question)
              && var session := Fold(Received(p.stored, question), run.value.events);
                 chat == Reply(svc.save(run.value.state.world, agentID, sessID, session),
                               Ok(ForwardAll(run.value.events)))
  {
    var prepared := svc.prepare(w, stack, agentID, sessID, question);
    run := None;
    if prepared.outcome.Ok? {
      var p := prepared.outcome.value;
      run := Some(ChatRun(DelegatingEnv(svc, stack, p.env), prepared.world, p.stored, question, p.system));
    }
  }

  // ----- the delegation -----------------------------------------------------------

  /** Three delegations deep nothing is asked any more. Above that the sub-agent is asked in a session of its
      own, one level deeper; errors of creating the session and of preparing the chat come through; and
      the answer is the report of the run, whose session is saved. */
  lemma DelegationAnswers<W(!new)>(svc: Services<W>, stack: Stack, w: W, agentID: string, request: string)
    returns (run: Option<Step<W>>)
    ensures var r := SubAgentCall(svc, stack, w, agentID, request);
            if |stack| >= 3 then run == None && r == Reply(w, Err(CallStackOverflow)) else
            var created := svc.createSession(w, agentID);
            match created.outcome
            case Err(e) => run == None && r == Reply(created.world, Err(e))
            case Ok(sessID) =>
              var question := UserMessage([ContentPart(request, "")]);
              var prepared := svc.prepare(created.world, [agentID] + stack, agentID, sessID, question);
              match prepared.outcome
              case Err(e) => run == None && r == Reply(prepared.world, Err(e))
              case Ok(p) =>
                && run.Some? && IsRun(run.value, svc, [agentID] + stack, prepared.world, p, question)
                && r.outcome.Ok? && ReportsRun(r.outcome.value, agentID, run.value.events)
                && r.world == svc.save(run.value.state.world, agentID, sessID,
                                       Fold(Received(p.stored, question), run.value.events))
  {
    run := None;
    if |stack| < 3 {
      var created := svc.createSession(w, agentID);
      if created.outcome.Ok? {
        var question := UserMessage(Text(request));
        run := ChatSaves(svc, [agentID] + stack, created.world, agentID, created.outcome.value, question);
        var prepared := svc.prepare(created.world, [agentID] + stack, agentID, created.outcome.value, question);
        if prepared.outcome.Ok? {
          var p := prepared.outcome.value;
          RunReported(DelegatingEnv(svc, [agentID] + stack, p.env), prepared.world,
                      [p.system] + Received(p.stored, question).messages, agentID);
        }
      }
    }
  }

  /** The tool puts the answer behind a heading, and turns every error into a mistake of the agent. */
  lemma CallAgentSays<W>(svc: Services<W>, stack: Stack, w: W, args: string)
    ensures var told := CallAgent(svc, stack, w, args);
            match svc.unwrapArgs(args)
            case None => told == ToolReply(w, Failed(AgentMistake("invalid parameters, broken json")))
            case Some(a) =>
              var r := SubAgentCall(svc, stack, w, a.name, a.request);
              && told.world == r.world
              && match r.outcome
                 case Ok(text) =>
                   told.outcome == Returned([ContentPart("# Agent " + a.name + " respones:\n" + text, "")])
                 case Err(e) =>
                   && (e == CallStackOverflow ==>
                         told.outcome
                         == Failed(AgentMistake("You already called as sub agent, solove problem by youself")))
                   && (e.NotExist? ==> told.outcome == Failed(AgentMistake(e.text)))
                   && (e.OtherError? ==> told.outcome == Failed(AgentMistake("problem to call agent %s")))
  {
  }

  /** Three delegations deep the agent is told to solve the problem by itself, and nobody else is asked. */
  lemma TooDeep<W(!new)>(svc: Services<W>, stack: Stack, w: W, args: string)
    requires |stack| == 3 && svc.unwrapArgs(args).Some?
    ensures CallAgent(svc, stack, w, args)
         == ToolReply(w, Failed(AgentMistake("You already called as sub agent, solove problem by youself")))
  {
    var a := svc.unwrapArgs(args).value;
    var _ := DelegationAnswers(svc, stack, w, a.name, a.request);
    CallAgentSays(svc, stack, w, args);
  }

  /** The whole way: the model calls call_agent, no hook interferes, and the message it gets for the call holds
      the report of the run that answered its question. */
  lemma QuestionAnswered<W(!new)>(svc: Services<W>, stack: Stack, env: Env<W>, w: W, call: ToolCall, a: CallArgs)
    returns (run: Option<Step<W>>, text: string)
    requires call.toolName == "call_agent" && "call_agent" in env.toolNames
    requires env.callHooks == [] && env.resultHooks == []
    requires svc.unwrapArgs(call.arguments) == Some(a) && SubAgentCall(svc, stack, w, a.name, a.request).outcome.Ok?
    ensures run.Some? && ReportsRun(text, a.name, run.value.events)
    ensures var created := svc.createSession(w, a.name);
            && |stack| < 3 && created.outcome.Ok?
            && var question := UserMessage([ContentPart(a.request, "")]);
               var prepared := svc.prepare(created.world, [a.name] + stack, a.name, created.outcome.value, question);
               && prepared.outcome.Ok?
               && IsRun(run.value, svc, [a.name] + stack, prepared.world, prepared.outcome.value, question)
    ensures Batch(DelegatingEnv(svc, stack, env), w, [call]).messages
         == [ToolResultMessage(call.id, [ContentPart("# Agent " + a.name + " respones:\n" + text, "")])]
  {
    run := DelegationAnswers(svc, stack, w, a.name, a.request);
    text := SubAgentCall(svc, stack, w, a.name, a.request).outcome.value;
    CallAgentSays(svc, stack, w, call.arguments);
    var d := DelegatingEnv(svc, stack, env);
    OnlyCallAgentDelegates(svc, stack, env, w, call.toolName, call.arguments);
    var told := CallAgent(svc, stack, w, call.arguments);
    assert Hooked(d.callHooks, w, call) == HookReply(w, call, None);
    ToolCalls.ToolAnswers(d, w, call, call, told.world, told.outcome.content);
  }
}
