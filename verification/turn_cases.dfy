/** What one turn does, path by path, without the functions that compute it (internal/runtime/loop.go:38-106). */
module TurnCases {
  import opened Basics
  import opened Messages
  import opened Sessions
  import opened Runtime
  import opened ToolCalls

  /** The turn stops the run, and leaves the conversation as it was. */
  ghost predicate Stops<W>(t: Step<W>, s: State<W>, w: W, before: seq<Event>, err: Error)
  {
    t.exited && t.events == before + [LoopExitEvent(Some(err))] && t.state.world == w && t.state.messages == s.messages
  }

  /** The run goes on with another conversation, and so many mistakes. */
  ghost predicate GoesOn<W>(t: Step<W>, w: W, events: seq<Event>, messages: seq<Message>, mistakes: nat)
  {
    && !t.exited && t.events == events
    && t.state.world == w && t.state.messages == messages && t.state.mistakes == mistakes
  }

  /** The turn was not cancelled, and the model replied to the whole conversation. */
  ghost predicate Asked<W>(env: Env<W>, s: State<W>, reply: ModelReply<W>)
  {
    var p := env.poll(s.world);
    p.err == None && reply == env.complete(p.world, ModelCall(true, s.messages))
  }

  /** The hooks left the completion c, with an error or without. */
  ghost predicate Answered<W>(env: Env<W>, s: State<W>, w: W, c: Completion, err: Option<Error>)
  {
    var reply := env.complete(env.poll(s.world).world, ModelCall(true, s.messages));
    && Asked(env, s, reply) && reply.outcome.Ok?
    && Hooked(env.completionHooks, reply.world, reply.outcome.value) == HookReply(w, c, err)
  }

  /** The turn failed with an error: the model's, or that of a hook. */
  ghost predicate Failed<W>(env: Env<W>, s: State<W>, w: W, err: Error)
  {
    var reply := env.complete(env.poll(s.world).world, ModelCall(true, s.messages));
    && Asked(env, s, reply)
    && match reply.outcome
       case Err(e) => w == reply.world && err == e
       case Ok(c) =>
         var h := Hooked(env.completionHooks, reply.world, c);
         w == h.world && h.err == Some(err)
  }

  /** A done context stops the run before the model is asked. */
  lemma CancelledTurn<W>(env: Env<W>, s: State<W>, err: Error)
    requires env.poll(s.world).err == Some(err)
    ensures Stops(Turn(env, s), s, env.poll(s.world).world, [], err)
  {
  }

  /** An overflow anywhere in the error's chain is answered with a compaction: of its context if it
      succeeds, of its error if it does not. */
  lemma OverflowTurn<W>(env: Env<W>, s: State<W>, w: W, err: Error)
    requires Failed(env, s, w, err) && ContextOverflow in Chain(err)
    ensures var r := DoCompact(env, w, s.messages);
            match r.outcome
            case Ok(messages) => GoesOn(Turn(env, s), r.world, r.events, messages, s.mistakes)
            case Err(e) => Stops(Turn(env, s), s, r.world, [], Wrapped("unhandled overflow", e))
  {
    ChainHolds(err, ContextOverflow);
  }

  /** Any other error with a mistake in its chain is the agent's: it is shown its own words and the first
      mistake's message, three times; the fourth mistake stops the run. */
  lemma MistakenTurn<W>(env: Env<W>, s: State<W>, w: W, c: Completion, err: Error, i: nat)
    requires Answered(env, s, w, c, Some(err)) && ContextOverflow !in Chain(err)
    requires i < |Chain(err)| && IsFirstMistake(Chain(err), i)
    ensures if s.mistakes >= 3 then Stops(Turn(env, s), s, w, [CompletionMistakeEvent(err)], TooManyMistakes)
            else
              var told := [AgentMessage([ContentPart(c.content, "")], []),
                           UserMessage([ContentPart(Chain(err)[i].message, "")])];
              GoesOn(Turn(env, s), w, [CompletionMistakeEvent(err)], s.messages + told, s.mistakes + 1)
  {
    ChainHolds(err, ContextOverflow);
    ChainBlames(err);
  }

  /** Every error that is neither stops the run. */
  lemma FailedTurn<W>(env: Env<W>, s: State<W>, w: W, err: Error)
    requires Failed(env, s, w, err) && ContextOverflow !in Chain(err) && forall e <- Chain(err) :: !e.AgentMistake?
    ensures Stops(Turn(env, s), s, w, [], Wrapped("completion", err))
  {
    ChainHolds(err, ContextOverflow);
    ChainBlames(err);
  }

  /** The calls of an accepted completion run on a conversation, and the turn ends with their results. */
  ghost predicate EndsWithCalls<W>(t: Step<W>, env: Env<W>, w: W, before: seq<Event>, context: seq<Message>,
                                   c: Completion, mistakes: nat)
  {
    var batch := Batch(env, w, c.toolCalls);
    && t.state.world == batch.world && t.state.messages == context + batch.messages
    && t.state.mistakes == mistakes && t.exited == c.done
    && t.events == before + batch.events + (if c.done then [LoopExitEvent(None)] else [])
  }

  /** An accepted completion is told first and joins the conversation with its calls. Below the threshold
      the calls run on that; above it on its compaction, and if that fails the run stops and no call runs. */
  lemma AcceptedTurn<W>(env: Env<W>, s: State<W>, w: W, c: Completion)
    requires Answered(env, s, w, c, None)
    ensures var context := s.messages + [AgentMessage([ContentPart(c.content, "")], c.toolCalls)];
            var t := Turn(env, s);
            if !env.overThreshold(c.inputTokens, c.completionTokens)
            then EndsWithCalls(t, env, w, [CompleteEvent(c)], context, c, s.mistakes)
            else
              var r := DoCompact(env, w, context);
              match r.outcome
              case Ok(shorter) => EndsWithCalls(t, env, r.world, [CompleteEvent(c)] + r.events, shorter, c, s.mistakes)
              case Err(e) =>
                Stops(t, s.(messages := context), r.world, [CompleteEvent(c)], Wrapped("thereshold compaction", e))
  {
    var context := s.messages + [AgentMessage([ContentPart(c.content, "")], c.toolCalls)];
    assert context == s.messages + [NewAgentMessage(c)];
    var r := DoCompact(env, w, context);
    EventsOfCalls(env, w, [CompleteEvent(c)], c);
    EventsOfCalls(env, r.world, [CompleteEvent(c)] + r.events, c);
  }

  lemma EventsOfCalls<W>(env: Env<W>, w: W, before: seq<Event>, c: Completion)
    ensures var events := Batch(env, w, c.toolCalls).events;
            && before + (events + [LoopExitEvent(None)]) == before + events + [LoopExitEvent(None)]
            && before + events + [] == before + events
  {
  }
}
