/** The agent loop (internal/runtime/loop.go, hook.go, events.go and the effects of compaction.go).

    The model, the tools, the hooks and the cancellation of the context are arbitrary: each is a
    function that may read and change a world W of any type, so it may remember, count, fail and
    answer differently every time. Every function returns the events it sends, in order. */
module Runtime {
  import opened Basics
  import opened Messages
  import opened Sessions
  import opened Compaction

  const MAX_COMPLETION_MISTAKES := 3
  const DEFAULT_TURNS_LIMIT := 100

  // ----- errors ---------------------------------------------------------------

  datatype Error =
    | ContextOverflow
    | MaxTurnsExceeded
    | TooManyMistakes
    | Canceled
    | DeadlineExceeded
    | AgentMistake(message: string)
    | Failure(text: string)
    | Wrapped(text: string, cause: Error)

  /** errors.Is */
  predicate Is(e: Error, target: Error)
  {
    e == target || (e.Wrapped? && Is(e.cause, target))
  }

  /** errors.As with *types.AgentMistakeError: the message of the mistake in the chain. */
  function MistakeOf(e: Error): Option<string>
  {
    match e
    case AgentMistake(message) => Some(message)
    case Wrapped(_, cause) => MistakeOf(cause)
    case _ => None
  }

  /** Models do not blame the agent: only hooks and tools return mistakes. */
  type ModelError = e: Error | MistakeOf(e) == None witness Failure("")

  /** What ctx.Err() can return once the context is done. */
  type ContextError = e: Error | e == Canceled || e == DeadlineExceeded witness Canceled

  // ----- events ---------------------------------------------------------------

  datatype Event =
    | CompactionEvent(summary: string, compactedContext: seq<Message>)
    | CompleteEvent(completion: Completion)
    | ToolResultEvent(call: ToolCall, result: ToolResult)
    | ToolCallErrEvent(toolName: string, arguments: string, err: Error)
    | CompletionMistakeEvent(cause: Error)
    | LoopExitEvent(exit: Option<Error>)

  // ----- the environment --------------------------------------------------------

  datatype HookReply<W, T> = HookReply(world: W, event: T, err: Option<Error>)

  datatype AfterToolCall = AfterToolCall(call: ToolCall, result: ToolResult)

  datatype ModelCall = ModelCall(withTools: bool, context: seq<Message>)

  datatype ModelReply<W> = ModelReply(world: W, outcome: Result<Completion, ModelError>)

  datatype ToolOutcome = Returned(content: seq<ContentPart>) | Failed(err: Error) | Panicked(text: string)

  datatype ToolReply<W> = ToolReply(world: W, outcome: ToolOutcome)

  datatype Poll<W> = Poll(world: W, err: Option<ContextError>)

  datatype Setting = IntSetting(value: int) | OtherSetting

  /** Hooks are sorted by the event type they apply to, in their configured order: a hook of another
      type is skipped by ApplyHooks. */
  datatype Env<!W> = Env(
    poll: W -> Poll<W>,
    complete: (W, ModelCall) -> ModelReply<W>,
    completionHooks: seq<(W, Completion) -> HookReply<W, Completion>>,
    callHooks: seq<(W, ToolCall) -> HookReply<W, ToolCall>>,
    resultHooks: seq<(W, AfterToolCall) -> HookReply<W, AfterToolCall>>,
    toolNames: set<string>,
    callTool: (W, string, string) -> ToolReply<W>,
    divide: Divide,
    overThreshold: (int, int) -> bool,
    compactionPrompt: string,
    explainSummary: string -> string,
    settings: map<string, Setting>)

  // ----- hooks ------------------------------------------------------------------

  function Hooked<W, T>(hooks: seq<(W, T) -> HookReply<W, T>>, w: W, event: T): HookReply<W, T>
  {
    if hooks == [] then HookReply(w, event, None) else
    var r := hooks[0](w, event);
    if r.err.Some? then r else Hooked(hooks[1..], r.world, r.event)
  }

  method ApplyHooks<W, T>(hooks: seq<(W, T) -> HookReply<W, T>>, w: W, event: T) returns (r: HookReply<W, T>)
    ensures r == Hooked(hooks, w, event)
  {
    r := HookReply(w, event, None);
    for i := 0 to |hooks|
      invariant r.err == None
      invariant Hooked(hooks[i..], r.world, r.event) == Hooked(hooks, w, event)
    {
      r := hooks[i](r.world, r.event);
      if r.err.Some? {
        return;
      }
      assert hooks[i..][1..] == hooks[i + 1..];
    }
  }

  // ----- completion -------------------------------------------------------------

  datatype CompletionReply<W> =
    | Completed(world: W, completion: Completion)
    | Rejected(world: W, completion: Completion, err: Error)
    | ModelFailed(world: W, modelErr: ModelError)

  function ProcessCompletion<W>(env: Env<W>, w: W, messages: seq<Message>): CompletionReply<W>
  {
    var reply := env.complete(w, ModelCall(true, messages));
    match reply.outcome
    case Err(e) => ModelFailed(reply.world, e)
    case Ok(c) =>
      var h := Hooked(env.completionHooks, reply.world, c);
      match h.err
      case Some(e) => Rejected(h.world, h.event, e)
      case None => Completed(h.world, h.event)
  }

  // ----- tool calls -------------------------------------------------------------

  datatype CallReply<W> = CallReply(world: W, outcome: Result<ToolResult, Error>)

  function ProcessToolCall<W>(env: Env<W>, w: W, call: ToolCall): CallReply<W>
  {
    if call.toolName !in env.toolNames then
      CallReply(w, Err(AgentMistake("tool " + call.toolName + " is not exist")))
    else
      var pre := Hooked(env.callHooks, w, call);
      match pre.err
      case Some(e) => CallReply(pre.world, Err(e))
      case None =>
        var reply := env.callTool(pre.world, call.toolName, pre.event.arguments);
        match reply.outcome
        case Failed(e) => CallReply(reply.world, Err(e))
        case Panicked(text) => CallReply(reply.world, Err(Failure("tool " + call.toolName + " panicked: " + text)))
        case Returned(content) =>
          var post := Hooked(env.resultHooks, reply.world, AfterToolCall(pre.event, ToolResult(pre.event.id, content)));
          match post.err
          case Some(e) => CallReply(post.world, Err(e))
          case None => CallReply(post.world, Ok(post.event.result))
  }

  function HandleToolCallErr(callID: string, err: Error): ToolResult
  {
    var timeout := if Is(err, DeadlineExceeded) then ", timeout error" else "";
    var mistake := match MistakeOf(err) case Some(message) => ", " + message case None => "";
    ToolResult(callID, Text("toolcall error" + timeout + mistake))
  }

  datatype BatchReply<W> = BatchReply(world: W, events: seq<Event>, messages: seq<Message>)

  function OneCall<W>(env: Env<W>, w: W, call: ToolCall): BatchReply<W>
  {
    var reply := ProcessToolCall(env, w, call);
    match reply.outcome
    case Ok(result) =>
      BatchReply(reply.world, [ToolResultEvent(call, result)], [NewToolResultMessage(result)])
    case Err(e) =>
      var result := HandleToolCallErr(call.id, e);
      BatchReply(reply.world,
                 [ToolCallErrEvent(call.toolName, call.arguments, e), ToolResultEvent(call, result)],
                 [NewToolResultMessage(result)])
  }

  function Batch<W>(env: Env<W>, w: W, calls: seq<ToolCall>): BatchReply<W>
  {
    if calls == [] then BatchReply(w, [], []) else
    var first := OneCall(env, w, calls[0]);
    var rest := Batch(env, first.world, calls[1..]);
    BatchReply(rest.world, first.events + rest.events, first.messages + rest.messages)
  }

  lemma {:induction false} BatchSnoc<W>(env: Env<W>, w: W, calls: seq<ToolCall>, call: ToolCall)
    ensures var b := Batch(env, w, calls);
            var o := OneCall(env, b.world, call);
            Batch(env, w, calls + [call]) == BatchReply(o.world, b.events + o.events, b.messages + o.messages)
  {
    if calls == [] {
      assert ([] + [call])[1..] == [];
      var o := OneCall(env, w, call);
      assert o.events + [] == [] + o.events && o.messages + [] == [] + o.messages;
    } else {
      var first := OneCall(env, w, calls[0]);
      assert (calls + [call])[1..] == calls[1..] + [call];
      BatchSnoc(env, first.world, calls[1..], call);
      var b := Batch(env, first.world, calls[1..]);
      var o := OneCall(env, b.world, call);
      assert first.events + (b.events + o.events) == (first.events + b.events) + o.events;
      assert first.messages + (b.messages + o.messages) == (first.messages + b.messages) + o.messages;
    }
  }

  method ProcessToolCalls<W>(env: Env<W>, w: W, toolCalls: seq<ToolCall>)
    returns (world: W, events: seq<Event>, resultMessages: seq<Message>)
    ensures BatchReply(world, events, resultMessages) == Batch(env, w, toolCalls)
  {
    world, events, resultMessages := w, [], [];
    for i := 0 to |toolCalls|
      invariant BatchReply(world, events, resultMessages) == Batch(env, w, toolCalls[..i])
    {
      var call := toolCalls[i];
      BatchSnoc(env, w, toolCalls[..i], call);
      assert toolCalls[..i] + [call] == toolCalls[..i + 1];
      var reply := ProcessToolCall(env, world, call);
      world := reply.world;
      var result;
      match reply.outcome {
        case Ok(value) =>
          result := value;
        case Err(err) =>
          events := events + [ToolCallErrEvent(call.toolName, call.arguments, err)];
          result := HandleToolCallErr(call.id, err);
      }
      events := events + [ToolResultEvent(call, result)];
      resultMessages := resultMessages + [NewToolResultMessage(result)];
    }
    assert toolCalls[..|toolCalls|] == toolCalls;
  }

  // ----- compaction -------------------------------------------------------------

  datatype CompactReply<W> = CompactReply(world: W, events: seq<Event>, outcome: Result<seq<Message>, Error>)

  function DoCompact<W>(env: Env<W>, w: W, msgs: seq<Message>): CompactReply<W>
  {
    if |msgs| <= 1 then CompactReply(w, [], Err(Failure("must be at least one message"))) else
    var request := StringifyConversation(Candidates(msgs, env.divide));
    var reply := env.complete(w, ModelCall(false,
      [SystemMessage(Text(env.compactionPrompt)), UserMessage(Text(request))]));
    match reply.outcome
    case Err(e) => CompactReply(reply.world, [], Err(e))
    case Ok(c) =>
      var context := CompactedContext(msgs, env.divide, env.explainSummary(c.content));
      CompactReply(reply.world, [CompactionEvent(c.content, context)], Ok(context))
  }

  // ----- one turn ---------------------------------------------------------------

  /** The loop's variables between turns. injected says of each message whether it belongs to a
      mistake/caution pair added since the last compaction; the loop itself does not look at it. */
  datatype State<W> = State(world: W, messages: seq<Message>, mistakes: nat, injected: seq<bool>)

  datatype Step<W> = Step(state: State<W>, events: seq<Event>, exited: bool)

  function Unmarked(n: nat): (marks: seq<bool>)
    ensures |marks| == n
  {
    if n == 0 then [] else Unmarked(n - 1) + [false]
  }

  function Exit<W>(s: State<W>, w: W, err: Option<Error>): Step<W>
  {
    Step(s.(world := w), [LoopExitEvent(err)], true)
  }

  function OverflowStep<W>(env: Env<W>, s: State<W>, w: W): Step<W>
  {
    var r := DoCompact(env, w, s.messages);
    match r.outcome
    case Err(e) => Exit(s, r.world, Some(Wrapped("unhandled overflow", e)))
    case Ok(messages) => Step(State(r.world, messages, s.mistakes, Unmarked(|messages|)), r.events, false)
  }

  function MistakeStep<W>(s: State<W>, w: W, c: Completion, err: Error, caution: string): Step<W>
  {
    var mistakes := s.mistakes + 1;
    if mistakes > MAX_COMPLETION_MISTAKES then
      Step(s.(world := w, mistakes := mistakes), [CompletionMistakeEvent(err), LoopExitEvent(Some(TooManyMistakes))],
           true)
    else
      Step(State(w, s.messages + [AgentMessage(Text(c.content), []), UserMessage(Text(caution))], mistakes,
                 s.injected + [true, true]),
           [CompletionMistakeEvent(err)], false)
  }

  /** The rest of a turn once the agent message is in the context: tool calls, then maybe the end. */
  function ToolStep<W>(env: Env<W>, s: State<W>, c: Completion): Step<W>
  {
    var batch := Batch(env, s.world, c.toolCalls);
    var next := State(batch.world, s.messages + batch.messages, s.mistakes, s.injected + Unmarked(|batch.messages|));
    if c.done then Step(next, batch.events + [LoopExitEvent(None)], true)
    else Step(next, batch.events, false)
  }

  function CompleteStep<W>(env: Env<W>, s: State<W>, w: W, c: Completion): Step<W>
  {
    var s1 := State(w, s.messages + [NewAgentMessage(c)], s.mistakes, s.injected + [false]);
    if env.overThreshold(c.inputTokens, c.completionTokens) then
      var r := DoCompact(env, w, s1.messages);
      match r.outcome
      case Err(e) =>
        Step(s1.(world := r.world), [CompleteEvent(c), LoopExitEvent(Some(Wrapped("thereshold compaction", e)))], true)
      case Ok(messages) =>
        var t := ToolStep(env, State(r.world, messages, s.mistakes, Unmarked(|messages|)), c);
        Step(t.state, [CompleteEvent(c)] + r.events + t.events, t.exited)
    else
      var t := ToolStep(env, s1, c);
      Step(t.state, [CompleteEvent(c)] + t.events, t.exited)
  }

  function Turn<W>(env: Env<W>, s: State<W>): Step<W>
  {
    var p := env.poll(s.world);
    if p.err.Some? then Exit(s, p.world, p.err) else
    match ProcessCompletion(env, p.world, s.messages)
    case Completed(w, c) => CompleteStep(env, s, w, c)
    case ModelFailed(w, e) =>
      if Is(e, ContextOverflow) then OverflowStep(env, s, w)
      else Exit(s, w, Some(Wrapped("completion", e)))
    case Rejected(w, c, e) =>
      if Is(e, ContextOverflow) then OverflowStep(env, s, w)
      else match MistakeOf(e)
      case Some(caution) => MistakeStep(s, w, c, e, caution)
      case None => Exit(s, w, Some(Wrapped("completion", e)))
  }

  // ----- the loop ---------------------------------------------------------------

  /** At most turns turns from s, then the turn limit error. */
  function Run<W>(turn: State<W> -> Step<W>, s: State<W>, turns: nat): Step<W>
    decreases turns
  {
    if turns == 0 then Exit(s, s.world, Some(MaxTurnsExceeded)) else
    var t := turn(s);
    if t.exited then t else
    var rest := Run(turn, t.state, turns - 1);
    Step(rest.state, t.events + rest.events, true)
  }

  function TurnOf<W>(env: Env<W>): State<W> -> Step<W>
  {
    s => Turn(env, s)
  }

  function ResolveMaxTurns(settings: map<string, Setting>): int
  {
    if "max_turns" in settings && settings["max_turns"].IntSetting? then settings["max_turns"].value
    else DEFAULT_TURNS_LIMIT
  }

  /** range over an int: no turn at all for a negative limit. */
  function Turns(settings: map<string, Setting>): nat
  {
    var n := ResolveMaxTurns(settings);
    if n < 0 then 0 else n
  }

  function Start<W>(w: W, messages: seq<Message>): State<W>
  {
    State(w, messages, 0, Unmarked(|messages|))
  }

  /** The whole run on an initial context. */
  function Loop<W>(env: Env<W>, w: W, messages: seq<Message>): Step<W>
  {
    Run(TurnOf(env), Start(w, messages), Turns(env.settings))
  }

  method CompactContext<W>(env: Env<W>, w: W, msgs: seq<Message>)
    returns (world: W, events: seq<Event>, outcome: Result<seq<Message>, Error>)
    ensures CompactReply(world, events, outcome) == DoCompact(env, w, msgs)
  {
    world, events := w, [];
    if |msgs| <= 1 {
      return world, events, Err(Failure("must be at least one message"));
    }
    var onCompaction := Candidates(msgs, env.divide);
    var tail := Tail(msgs, env.divide);
    var reply := env.complete(w, ModelCall(false,
      [SystemMessage(Text(env.compactionPrompt)), UserMessage(Text(StringifyConversation(onCompaction)))]));
    world := reply.world;
    match reply.outcome {
      case Err(e) =>
        outcome := Err(e);
      case Ok(c) =>
        tail := RoleSafePushback(tail, UserMessage(Text(env.explainSummary(c.content))));
        var compacted := Pre(msgs) + tail;
        events := [CompactionEvent(c.content, compacted)];
        outcome := Ok(compacted);
    }
  }

  /** What is left to do from a state, and what it adds up to with the events sent so far. */
  ghost predicate Remains<W>(turn: State<W> -> Step<W>, s: State<W>, turns: nat, sent: seq<Event>, whole: Step<W>)
  {
    var rest := Run(turn, s, turns);
    rest.state.world == whole.state.world && sent + rest.events == whole.events
  }

  ghost predicate Finished<W>(whole: Step<W>, world: W, events: seq<Event>)
  {
    world == whole.state.world && events == whole.events
  }

  lemma RemainsAfterTurn<W>(turn: State<W> -> Step<W>, s: State<W>, turns: nat, sent: seq<Event>, whole: Step<W>)
    requires turns > 0 && Remains(turn, s, turns, sent, whole)
    ensures var t := turn(s);
            if t.exited then Finished(whole, t.state.world, sent + t.events)
            else Remains(turn, t.state, turns - 1, sent + t.events, whole)
  {
    var t := turn(s);
    if !t.exited {
      var rest := Run(turn, t.state, turns - 1);
      assert (sent + t.events) + rest.events == sent + (t.events + rest.events);
    }
  }

  ghost predicate IsTurnOf<W(!new)>(turn: State<W> -> Step<W>, env: Env<W>)
  {
    forall s {:trigger Turn(env, s)} :: turn(s) == Turn(env, s)
  }

  method RunAgentLoop<W(!new)>(env: Env<W>, w: W, initial: seq<Message>) returns (world: W, events: seq<Event>)
    ensures world == Loop(env, w, initial).state.world
    ensures events == Loop(env, w, initial).events
  {
    world, events := RunTurns(env, w, initial, TurnOf(env));
  }

  /** The loop as the original runs it, on local variables and an event channel. */
  method RunTurns<W(!new)>(env: Env<W>, w: W, initial: seq<Message>, ghost turnFn: State<W> -> Step<W>)
    returns (world: W, events: seq<Event>)
    requires IsTurnOf(turnFn, env)
    ensures Finished(Run(turnFn, Start(w, initial), Turns(env.settings)), world, events)
  {
    var messages, completionMistakes := initial, 0;
    world, events := w, [];
    var limit := ResolveMaxTurns(env.settings);
    ghost var injected := Unmarked(|initial|);
    ghost var left := Turns(env.settings);
    ghost var whole := Run(turnFn, Start(w, initial), left);
    var turn := 0;
    while turn < limit
      invariant turn + left == Turns(env.settings)
      invariant Remains(turnFn, State(world, messages, completionMistakes, injected), left, events, whole)
    {
      var exited, sent;
      RemainsAfterTurn(turnFn, State(world, messages, completionMistakes, injected), left, events, whole);
      world, messages, completionMistakes, injected, exited, sent :=
        TakeTurn(env, world, messages, completionMistakes, injected, turnFn);
      events := events + sent;
      if exited {
        return;
      }
      turn := turn + 1;
      left := left - 1;
    }
    events := events + [LoopExitEvent(Some(MaxTurnsExceeded))];
  }

  method TakeTurn<W(!new)>(env: Env<W>, w: W, initial: seq<Message>, mistakes: nat, ghost marks: seq<bool>,
                           ghost turnFn: State<W> -> Step<W>)
    returns (world: W, messages: seq<Message>, completionMistakes: nat, ghost injected: seq<bool>, exited: bool,
             events: seq<Event>)
    requires IsTurnOf(turnFn, env)
    ensures Step(State(world, messages, completionMistakes, injected), events, exited)
         == turnFn(State(w, initial, mistakes, marks))
  {
    world, messages, completionMistakes, injected, exited, events := RunTurn(env, w, initial, mistakes, marks);
  }

  /** The body of the loop. */
  method RunTurn<W>(env: Env<W>, w: W, initial: seq<Message>, mistakes: nat, ghost marks: seq<bool>)
    returns (world: W, messages: seq<Message>, completionMistakes: nat, ghost injected: seq<bool>, exited: bool,
             events: seq<Event>)
    ensures Step(State(world, messages, completionMistakes, injected), events, exited)
         == Turn(env, State(w, initial, mistakes, marks))
  {
    messages, completionMistakes, injected, events, exited := initial, mistakes, marks, [], false;
    ghost var s := State(w, initial, mistakes, marks);

    var poll := env.poll(w);
    world := poll.world;
    if poll.err.Some? {
      events := [LoopExitEvent(poll.err)];
      exited := true;
      return;
    }

    var reply := ProcessCompletion(env, world, messages);
    world := reply.world;
    if !reply.Completed? {
      var err := if reply.ModelFailed? then reply.modelErr else reply.err;
      if Is(err, ContextOverflow) {
        var sent, outcome;
        world, sent, outcome := CompactContext(env, world, messages);
        events := sent;
        match outcome {
          case Err(e) =>
            events := [LoopExitEvent(Some(Wrapped("unhandled overflow", e)))];
            exited := true;
          case Ok(compacted) =>
            messages := compacted;
            injected := Unmarked(|compacted|);
        }
        return;
      }
      var mistake := MistakeOf(err);
      if mistake.Some? {
        events := [CompletionMistakeEvent(err)];
        completionMistakes := completionMistakes + 1;
        if completionMistakes > MAX_COMPLETION_MISTAKES {
          events := events + [LoopExitEvent(Some(TooManyMistakes))];
          exited := true;
          return;
        }
        messages := messages + [AgentMessage(Text(reply.completion.content), [])];
        messages := messages + [UserMessage(Text(mistake.value))];
        injected := injected + [true, true];
        assert messages ==
               initial + [AgentMessage(Text(reply.completion.content), []), UserMessage(Text(mistake.value))];
        return;
      }
      events := [LoopExitEvent(Some(Wrapped("completion", err)))];
      exited := true;
      return;
    }

    var completion := reply.completion;
    events := [CompleteEvent(completion)];
    messages := messages + [NewAgentMessage(completion)];
    injected := injected + [false];

    if env.overThreshold(completion.inputTokens, completion.completionTokens) {
      var sent, outcome;
      world, sent, outcome := CompactContext(env, world, messages);
      match outcome {
        case Err(e) =>
          events := events + [LoopExitEvent(Some(Wrapped("thereshold compaction", e)))];
          exited := true;
          return;
        case Ok(compacted) =>
          events := events + sent;
          messages := compacted;
          injected := Unmarked(|compacted|);
      }
    }

    ghost var base := events;
    var sent, toolMsgs;
    world, sent, toolMsgs := ProcessToolCalls(env, world, completion.toolCalls);
    events := events + sent;
    messages := messages + toolMsgs;
    injected := injected + Unmarked(|toolMsgs|);
    if completion.done {
      events := events + [LoopExitEvent(None)];
      exited := true;
      assert events == base + (sent + [LoopExitEvent(None)]);
    }
  }
}
