/** Every model call sees a conversation in which each tool call has its one result. */
module AnsweredCalls {
  import opened Basics
  import opened Messages
  import opened Sessions
  import opened Compaction
  import opened Conversation
  import opened Runtime
  import opened Runs

  /** The hooks' side of the bargain: a call keeps its ID, a result the ID of its call. */
  ghost predicate HooksKeepIDs<W(!new)>(env: Env<W>)
  {
    && (forall h <- env.callHooks, w, c :: h(w, c).err == None ==> h(w, c).event.id == c.id)
    && (forall h <- env.resultHooks, w, a :: h(w, a).err == None ==> h(w, a).event.result.id == a.result.id)
  }

  lemma {:induction false} CallHooksKeepID<W(!new)>(hooks: seq<(W, ToolCall) -> HookReply<W, ToolCall>>, w: W,
                                                    c: ToolCall)
    requires forall h <- hooks, w, c :: h(w, c).err == None ==> h(w, c).event.id == c.id
    ensures Hooked(hooks, w, c).err == None ==> Hooked(hooks, w, c).event.id == c.id
  {
    if hooks != [] {
      assert hooks[0] in hooks;
      var r := hooks[0](w, c);
      CallHooksKeepID(hooks[1..], r.world, r.event);
    }
  }

  lemma {:induction false} ResultHooksKeepID<W(!new)>(hooks: seq<(W, AfterToolCall) -> HookReply<W, AfterToolCall>>,
                                                      w: W, a: AfterToolCall)
    requires forall h <- hooks, w, a :: h(w, a).err == None ==> h(w, a).event.result.id == a.result.id
    ensures Hooked(hooks, w, a).err == None ==> Hooked(hooks, w, a).event.result.id == a.result.id
  {
    if hooks != [] {
      assert hooks[0] in hooks;
      var r := hooks[0](w, a);
      ResultHooksKeepID(hooks[1..], r.world, r.event);
    }
  }

  lemma CallResultID<W(!new)>(env: Env<W>, w: W, call: ToolCall)
    requires HooksKeepIDs(env)
    ensures var r := ProcessToolCall(env, w, call); r.outcome.Ok? ==> r.outcome.value.id == call.id
  {
    CallHooksKeepID(env.callHooks, w, call);
    var pre := Hooked(env.callHooks, w, call);
    if pre.err == None {
      var reply := env.callTool(pre.world, call.toolName, pre.event.arguments);
      if reply.outcome.Returned? {
        ResultHooksKeepID(env.resultHooks, reply.world,
                          AfterToolCall(pre.event, ToolResult(pre.event.id, reply.outcome.content)));
      }
    }
  }

  /** Whatever tools and hooks do (fail, panic, be unknown), a batch answers its calls one for one. */
  lemma {:induction false} BatchAnswers<W(!new)>(env: Env<W>, w: W, calls: seq<ToolCall>)
    requires HooksKeepIDs(env)
    ensures Answers(Batch(env, w, calls).messages, calls)
  {
    if calls != [] {
      CallResultID(env, w, calls[0]);
      var first := OneCall(env, w, calls[0]);
      BatchAnswers(env, first.world, calls[1..]);
      assert |first.messages| == 1 && first.messages[0].toolCallID == calls[0].id;
    }
  }

  /** A successful compaction is a cut with some summary, announced by exactly one event. */
  lemma CompactedBy<W>(env: Env<W>, w: W, msgs: seq<Message>) returns (summary: string)
    requires DoCompact(env, w, msgs).outcome.Ok?
    ensures |msgs| >= 2
    ensures DoCompact(env, w, msgs).outcome.value == CompactedContext(msgs, env.divide, summary)
    ensures |DoCompact(env, w, msgs).events| == 1
    ensures DoCompact(env, w, msgs).events[0].CompactionEvent?
    ensures DoCompact(env, w, msgs).events[0].compactedContext == DoCompact(env, w, msgs).outcome.value
  {
    var reply := env.complete(w, ModelCall(false,
      [SystemMessage(Text(env.compactionPrompt)),
       UserMessage(Text(StringifyConversation(Candidates(msgs, env.divide))))]));
    summary := env.explainSummary(reply.outcome.value.content);
  }

  /** The pending calls of the last message get their results. */
  lemma ToolStepAnswered<W(!new)>(env: Env<W>, s: State<W>, c: Completion)
    requires HooksKeepIDs(env)
    requires s.messages != [] && Answered(Front(s.messages)) && Last(s.messages) == NewAgentMessage(c)
    ensures Answered(ToolStep(env, s, c).state.messages)
  {
    BatchAnswers(env, s.world, c.toolCalls);
    AnsweredExtend(Front(s.messages), NewAgentMessage(c), Batch(env, s.world, c.toolCalls).messages);
    assert Front(s.messages) + [NewAgentMessage(c)] == s.messages;
  }

  lemma CompleteStepAnswered<W(!new)>(env: Env<W>, s: State<W>, w: W, c: Completion)
    requires HooksKeepIDs(env) && Answered(s.messages)
    ensures var t := CompleteStep(env, s, w, c); !t.exited ==> Answered(t.state.messages)
  {
    var s1 := State(w, s.messages + [NewAgentMessage(c)], s.mistakes, s.injected + [false]);
    assert Front(s1.messages) == s.messages;
    if env.overThreshold(c.inputTokens, c.completionTokens) {
      var r := DoCompact(env, w, s1.messages);
      if r.outcome.Ok? {
        var summary := CompactedBy(env, w, s1.messages);
        CompactionKeepsPending(s1.messages, env.divide, summary);
        ToolStepAnswered(env, State(r.world, r.outcome.value, s.mistakes, Unmarked(|r.outcome.value|)), c);
      }
    } else {
      ToolStepAnswered(env, s1, c);
    }
  }

  lemma OverflowStepAnswered<W>(env: Env<W>, s: State<W>, w: W)
    requires Answered(s.messages)
    ensures var t := OverflowStep(env, s, w); !t.exited ==> Answered(t.state.messages)
  {
    if DoCompact(env, w, s.messages).outcome.Ok? {
      var summary := CompactedBy(env, w, s.messages);
      CompactionKeepsAnswered(s.messages, env.divide, summary);
    }
  }

  lemma MistakePairAnswered(ms: seq<Message>, content: seq<ContentPart>, caution: seq<ContentPart>)
    requires Answered(ms)
    ensures Answered(ms + [AgentMessage(content, []), UserMessage(caution)])
  {
    AnsweredPending(ms, AgentMessage(content, []));
    AnsweredPrepend([UserMessage(caution)], []);
    assert [UserMessage(caution)] + [] == [UserMessage(caution)];
    AnsweredConcat(ms + [AgentMessage(content, [])], [UserMessage(caution)]);
    assert ms + [AgentMessage(content, []), UserMessage(caution)]
        == (ms + [AgentMessage(content, [])]) + [UserMessage(caution)];
  }

  lemma TurnAnswered<W(!new)>(env: Env<W>, s: State<W>)
    requires HooksKeepIDs(env) && Answered(s.messages)
    ensures !Turn(env, s).exited ==> Answered(Turn(env, s).state.messages)
  {
    var p := env.poll(s.world);
    if p.err == None {
      match ProcessCompletion(env, p.world, s.messages) {
        case Completed(w, c) => CompleteStepAnswered(env, s, w, c);
        case ModelFailed(w, e) => OverflowStepAnswered(env, s, w);
        case Rejected(w, c, e) =>
          OverflowStepAnswered(env, s, w);
          if MistakeOf(e).Some? {
            MistakePairAnswered(s.messages, Text(c.content), Text(MistakeOf(e).value));
          }
      }
    }
  }

  /** The context of every turn's model call is answered, across any number of compactions,
      mistakes, failing tools and panics, if the initial context is. */
  lemma EveryModelCallAnswered<W(!new)>(env: Env<W>, w: W, initial: seq<Message>, k: nat)
    requires HooksKeepIDs(env) && Answered(initial)
    ensures var s := After(TurnOf(env), Start(w, initial), k); s.Some? ==> Answered(s.value.messages)
  {
    var inv: State<W> -> bool := (s: State<W>) => Answered(s.messages);
    forall p | inv(p) && !TurnOf(env)(p).exited ensures inv(TurnOf(env)(p).state) {
      TurnAnswered(env, p);
    }
    AfterKeeps(TurnOf(env), inv, Start(w, initial), k);
  }
}
