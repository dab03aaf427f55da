/** Agents that call agents (internal/subagent/subagent.go, internal/tools/call_agent.go): the recursion
    loop, tool call, call_agent, chat, loop. It is defined here as plain recursion; that Dafny accepts
    the definition is the proof that it ends, whatever models and agents do. */
module Delegation {
  import opened Basics
  import opened Messages
  import opened Sessions
  import opened Runtime
  import opened Chat
  import opened Traces

  const MAX_SUB_AGENT_DEPTH := 3

  datatype ChatError = NotExist(text: string) | OtherError(text: string) | CallStackOverflow

  datatype Reply<W, T> = Reply(world: W, outcome: Result<T, ChatError>)

  /** What a chat needs before it can run its loop. */
  datatype Prepared<!W> = Prepared(env: Env<W>, system: Message, stored: SessionState)

  datatype CallArgs = CallArgs(name: string, request: string)

  /** The repositories and registries behind the chat service, again with arbitrary effects on the world.
      stack is the call stack that travels in the context: the delegations that led here. */
  datatype Services<!W> = Services(
    createSession: (W, string) -> Reply<W, string>,
    prepare: (W, seq<string>, string, string, Message) -> Reply<W, Prepared<W>>,
    save: (W, string, string, SessionState) -> W,
    unwrapArgs: string -> Option<CallArgs>)

  type Stack = s: seq<string> | |s| <= MAX_SUB_AGENT_DEPTH

  /** The tools of an agent at some depth: its own, with call_agent delegating for real. */
  function DelegatingEnv<W>(svc: Services<W>, stack: Stack, env: Env<W>): Env<W>
    decreases MAX_SUB_AGENT_DEPTH - |stack|, 2
  {
    env.(callTool := (w, name, args) =>
      if name == "call_agent" then CallAgent(svc, stack, w, args) else env.callTool(w, name, args))
  }

  /** Service.Chat: prepare, run the loop, save the folded session, hand the sink's events back. */
  function ChatAt<W>(svc: Services<W>, stack: Stack, w: W, agentID: string, sessID: string, userMessage: Message)
    : Reply<W, seq<Event>>
    decreases MAX_SUB_AGENT_DEPTH - |stack|, 3
  {
    var r := svc.prepare(w, stack, agentID, sessID, userMessage);
    match r.outcome
    case Err(e) => Reply(r.world, Err(e))
    case Ok(p) =>
      var env := DelegatingEnv(svc, stack, p.env);
      var run := ChatRun(env, r.world, p.stored, userMessage, p.system);
      var session := SavedSession(env, r.world, p.stored, userMessage, p.system);
      Reply(svc.save(run.state.world, agentID, sessID, session), Ok(ForwardAll(run.events)))
  }

  /** subagent.Service.Call */
  function SubAgentCall<W>(svc: Services<W>, stack: Stack, w: W, agentID: string, request: string): Reply<W, string>
    decreases MAX_SUB_AGENT_DEPTH - |stack|, 0
  {
    if |stack| >= MAX_SUB_AGENT_DEPTH then Reply(w, Err(CallStackOverflow)) else
    var created := svc.createSession(w, agentID);
    match created.outcome
    case Err(e) => Reply(created.world, Err(e))
    case Ok(sessID) =>
      var chat := ChatAt(svc, [agentID] + stack, created.world, agentID, sessID, UserMessage(Text(request)));
      match chat.outcome
      case Err(e) => Reply(chat.world, Err(e))
      case Ok(events) => Reply(chat.world, Ok(Answer(agentID, events)))
  }

  /** CallAgentTool.Call */
  function CallAgent<W>(svc: Services<W>, stack: Stack, w: W, args: string): ToolReply<W>
    decreases MAX_SUB_AGENT_DEPTH - |stack|, 1
  {
    match svc.unwrapArgs(args)
    case None => ToolReply(w, Failed(AgentMistake("invalid parameters, broken json")))
    case Some(a) =>
      var r := SubAgentCall(svc, stack, w, a.name, a.request);
      match r.outcome
      case Ok(text) => ToolReply(r.world, Returned(Text("# Agent " + a.name + " respones:\n" + text)))
      case Err(CallStackOverflow) =>
        ToolReply(r.world, Failed(AgentMistake("You already called as sub agent, solove problem by youself")))
      case Err(NotExist(text)) => ToolReply(r.world, Failed(AgentMistake(text)))
      case Err(OtherError(_)) => ToolReply(r.world, Failed(AgentMistake("problem to call agent %s")))
  }

  // ----- the answer of a sub-agent -----------------------------------------------------

  function Answer(agentID: string, events: seq<Event>): string
  {
    if events == [] then "" else
    match Last(events)
    case LoopExitEvent(Some(_)) => Answer(agentID, Front(events)) + "sub agent " + agentID + ", fall with error"
    case CompleteEvent(c) => c.content
    case _ => Answer(agentID, Front(events))
  }

  method CollectAnswer(agentID: string, events: seq<Event>) returns (lastAgentMessageContent: string)
    ensures lastAgentMessageContent == Answer(agentID, events)
  {
    lastAgentMessageContent := "";
    for i := 0 to |events|
      invariant lastAgentMessageContent == Answer(agentID, events[..i])
    {
      assert Front(events[..i + 1]) == events[..i];
      match events[i] {
        case LoopExitEvent(err) =>
          if err.Some? {
            lastAgentMessageContent := lastAgentMessageContent + "sub agent " + agentID + ", fall with error";
          }
        case CompleteEvent(c) =>
          lastAgentMessageContent := c.content;
        case _ =>
      }
    }
    assert events[..|events|] == events;
  }

  function Contents(events: seq<Event>): seq<string>
  {
    if events == [] then [] else
    Contents(Front(events)) + (if Last(events).CompleteEvent? then [Last(events).completion.content] else [])
  }

  lemma {:induction false} AnswerWithoutExit(agentID: string, events: seq<Event>)
    requires forall i :: 0 <= i < |events| ==> !events[i].LoopExitEvent?
    ensures Answer(agentID, events) == if Contents(events) == [] then "" else Last(Contents(events))
  {
    if events != [] {
      AnswerWithoutExit(agentID, Front(events));
    }
  }

  /** The caller gets the sub-agent's last completion, and is told of a failure exactly when the run
      ended with an error other than a cancellation. */
  lemma AnswerOfRun<W(!new)>(env: Env<W>, w: W, initial: seq<Message>, agentID: string)
    ensures var events := Loop(env, w, initial).events;
            && events != [] && Last(events).LoopExitEvent?
            && Answer(agentID, ForwardAll(events)) == Report(agentID, events)
  {
    TraceOfLoop(env, w, initial);
    AnswerOfTrace(agentID, Loop(env, w, initial).events);
  }

  function Report(agentID: string, events: seq<Event>): string
    requires events != [] && Last(events).LoopExitEvent?
  {
    var exit := Last(events).exit;
    var last := if Contents(events) == [] then "" else Last(Contents(events));
    if exit.Some? && !Is(exit.value, Canceled) then last + "sub agent " + agentID + ", fall with error" else last
  }

  lemma AnswerOfTrace(agentID: string, events: seq<Event>)
    requires SingleExit(events)
    ensures Answer(agentID, ForwardAll(events)) == Report(agentID, events)
  {
    ForwardFront(Front(events));
    AnswerWithoutExit(agentID, Front(events));
    var out := ForwardAll(events);
    assert Front(out) == ForwardAll(Front(events)) && Last(out) == Forward(Last(events));
    assert Contents(events) == Contents(Front(events));
  }

  lemma {:induction false} ForwardFront(events: seq<Event>)
    requires forall i :: 0 <= i < |events| ==> !events[i].LoopExitEvent?
    ensures ForwardAll(events) == events
  {
    if events != [] {
      ForwardFront(Front(events));
      assert events == Front(events) + [Last(events)];
    }
  }
}
