/** How much a run, with everything it delegates, can cost. */
module Costs {
  import opened Messages
  import opened Sessions
  import opened Runtime
  import opened Chat
  import opened Delegation

  /** n times c, by repeated addition. */
  function Times(n: nat, c: nat): nat
  {
    if n == 0 then 0 else c + Times(n - 1, c)
  }

  lemma {:induction false} TimesIsProduct(n: nat, c: nat)
    ensures Times(n, c) == n * c
  {
    if n > 0 {
      TimesIsProduct(n - 1, c);
      assert n * c == c + (n - 1) * c;
    }
  }

  lemma {:induction false} TimesMonotone(n: nat, m: nat, c: nat)
    requires n <= m
    ensures Times(n, c) <= Times(m, c)
  {
    if n < m {
      TimesMonotone(n, m - 1, c);
    }
  }

  /** count is a meter in the world. A model call may advance it by weight, a tool call by nested,
      nothing else advances it; and a completion asks for at most batch calls (any number, if tool
      calls cost nothing). */
  ghost predicate Metered<W(!new)>(env: Env<W>, count: W -> nat, weight: nat, batch: nat, nested: nat)
  {
    && (forall w {:trigger count(env.poll(w).world)} :: count(env.poll(w).world) <= count(w))
    && (forall w, call {:trigger count(env.complete(w, call).world)} ::
          count(env.complete(w, call).world) <= count(w) + weight)
    && (forall h <- env.completionHooks, w, c {:trigger count(h(w, c).world)} :: count(h(w, c).world) <= count(w))
    && (forall h <- env.callHooks, w, c {:trigger count(h(w, c).world)} :: count(h(w, c).world) <= count(w))
    && (forall h <- env.resultHooks, w, a {:trigger count(h(w, a).world)} :: count(h(w, a).world) <= count(w))
    && (forall w, name, args {:trigger count(env.callTool(w, name, args).world)} ::
          count(env.callTool(w, name, args).world) <= count(w) + nested)
    && (nested == 0 || SmallBatches(env, batch))
  }

  ghost predicate SmallBatches<W(!new)>(env: Env<W>, batch: nat)
  {
    forall w, messages :: ProcessCompletion(env, w, messages).Completed? ==>
      |ProcessCompletion(env, w, messages).completion.toolCalls| <= batch
  }

  lemma {:induction false} HookedFree<W(!new), T(!new)>(hooks: seq<(W, T) -> HookReply<W, T>>, w: W, ev: T,
                                                        count: W -> nat)
    requires forall h <- hooks, w, ev {:trigger count(h(w, ev).world)} :: count(h(w, ev).world) <= count(w)
    ensures count(Hooked(hooks, w, ev).world) <= count(w)
  {
    if hooks != [] {
      assert hooks[0] in hooks;
      var r := hooks[0](w, ev);
      HookedFree(hooks[1..], r.world, r.event, count);
    }
  }

  lemma ToolCallCost<W(!new)>(env: Env<W>, count: W -> nat, weight: nat, batch: nat, nested: nat, w: W, call: ToolCall)
    requires Metered(env, count, weight, batch, nested)
    ensures count(ProcessToolCall(env, w, call).world) <= count(w) + nested
  {
    HookedFree(env.callHooks, w, call, count);
    var pre := Hooked(env.callHooks, w, call);
    var reply := env.callTool(pre.world, call.toolName, pre.event.arguments);
    assert count(reply.world) <= count(pre.world) + nested;
    if reply.outcome.Returned? {
      HookedFree(env.resultHooks, reply.world,
                 AfterToolCall(pre.event, ToolResult(pre.event.id, reply.outcome.content)), count);
    }
  }

  lemma {:induction false} BatchCost<W(!new)>(env: Env<W>, count: W -> nat, nested: nat, w: W, calls: seq<ToolCall>)
    requires forall w, call {:trigger count(ProcessToolCall(env, w, call).world)} ::
               count(ProcessToolCall(env, w, call).world) <= count(w) + nested
    ensures count(Batch(env, w, calls).world) <= count(w) + Times(|calls|, nested)
  {
    if calls != [] {
      var first := OneCall(env, w, calls[0]);
      assert first.world == ProcessToolCall(env, w, calls[0]).world;
      BatchCost(env, count, nested, first.world, calls[1..]);
    }
  }

  lemma CompactCost<W(!new)>(env: Env<W>, count: W -> nat, weight: nat, batch: nat, nested: nat, w: W,
                             msgs: seq<Message>)
    requires Metered(env, count, weight, batch, nested)
    ensures count(DoCompact(env, w, msgs).world) <= count(w) + weight
  {
  }

  lemma CompletionCost<W(!new)>(env: Env<W>, count: W -> nat, weight: nat, batch: nat, nested: nat, w: W,
                                msgs: seq<Message>)
    requires Metered(env, count, weight, batch, nested)
    ensures count(ProcessCompletion(env, w, msgs).world) <= count(w) + weight
  {
    var reply := env.complete(w, ModelCall(true, msgs));
    if reply.outcome.Ok? {
      HookedFree(env.completionHooks, reply.world, reply.outcome.value, count);
    }
  }

  lemma ToolStepCost<W(!new)>(env: Env<W>, count: W -> nat, weight: nat, batch: nat, nested: nat, s: State<W>,
                              c: Completion)
    requires Metered(env, count, weight, batch, nested) && (nested == 0 || |c.toolCalls| <= batch)
    ensures count(ToolStep(env, s, c).state.world) <= count(s.world) + Times(batch, nested)
  {
    forall w, call ensures count(ProcessToolCall(env, w, call).world) <= count(w) + nested {
      ToolCallCost(env, count, weight, batch, nested, w, call);
    }
    BatchCost(env, count, nested, s.world, c.toolCalls);
    if nested == 0 {
      TimesIsProduct(|c.toolCalls|, 0);
    } else {
      TimesMonotone(|c.toolCalls|, batch, nested);
    }
  }

  lemma CompleteStepCost<W(!new)>(env: Env<W>, count: W -> nat, weight: nat, batch: nat, nested: nat,
                                  s: State<W>, w: W, c: Completion)
    requires Metered(env, count, weight, batch, nested) && (nested == 0 || |c.toolCalls| <= batch)
    ensures count(CompleteStep(env, s, w, c).state.world) <= count(w) + weight + Times(batch, nested)
  {
    var s1 := State(w, s.messages + [NewAgentMessage(c)], s.mistakes, s.injected + [false]);
    CompactCost(env, count, weight, batch, nested, w, s1.messages);
    var r := DoCompact(env, w, s1.messages);
    if env.overThreshold(c.inputTokens, c.completionTokens) {
      if r.outcome.Ok? {
        var messages := r.outcome.value;
        ToolStepCost(env, count, weight, batch, nested, State(r.world, messages, s.mistakes, Unmarked(|messages|)), c);
      }
    } else {
      ToolStepCost(env, count, weight, batch, nested, s1, c);
    }
  }

  lemma TurnCost<W(!new)>(env: Env<W>, count: W -> nat, weight: nat, batch: nat, nested: nat, s: State<W>)
    requires Metered(env, count, weight, batch, nested)
    ensures count(Turn(env, s).state.world) <= count(s.world) + (2 * weight + Times(batch, nested))
  {
    var p := env.poll(s.world);
    assert count(p.world) <= count(s.world);
    CompletionCost(env, count, weight, batch, nested, p.world, s.messages);
    var r := ProcessCompletion(env, p.world, s.messages);
    CompactCost(env, count, weight, batch, nested, r.world, s.messages);
    if r.Completed? {
      CompleteStepCost(env, count, weight, batch, nested, s, r.world, r.completion);
    }
  }

  /** No turn advances the meter by more than cost. */
  ghost predicate TurnsCost<W(!new)>(turn: State<W> -> Step<W>, count: W -> nat, cost: nat)
  {
    forall p {:trigger count(turn(p).state.world)} :: count(turn(p).state.world) <= count(p.world) + cost
  }

  lemma {:induction false} RunCost<W(!new)>(turn: State<W> -> Step<W>, count: W -> nat, cost: nat, s: State<W>,
                                            turns: nat)
    requires TurnsCost(turn, count, cost)
    ensures count(Run(turn, s, turns).state.world) <= count(s.world) + Times(turns, cost)
    decreases turns
  {
    if turns > 0 && !turn(s).exited {
      RunCost(turn, count, cost, turn(s).state, turns - 1);
    }
  }

  lemma MeteredTurns<W(!new)>(env: Env<W>, count: W -> nat, weight: nat, batch: nat, nested: nat, cost: nat)
    requires Metered(env, count, weight, batch, nested) && cost == 2 * weight + Times(batch, nested)
    ensures TurnsCost(TurnOf(env), count, cost)
  {
    forall p ensures count(TurnOf(env)(p).state.world) <= count(p.world) + cost {
      TurnCost(env, count, weight, batch, nested, p);
    }
  }

  /** No run in this environment advances the meter by more than cost per turn. */
  ghost predicate RunsCost<W(!new)>(env: Env<W>, count: W -> nat, cost: nat)
  {
    forall w, initial {:trigger Loop(env, w, initial)} ::
      count(Loop(env, w, initial).state.world) <= count(w) + Times(Turns(env.settings), cost)
  }

  lemma TurnsCostRuns<W(!new)>(env: Env<W>, count: W -> nat, cost: nat)
    requires TurnsCost(TurnOf(env), count, cost)
    ensures RunsCost(env, count, cost)
  {
    forall w, initial
      ensures count(Loop(env, w, initial).state.world) <= count(w) + Times(Turns(env.settings), cost)
    {
      RunCost(TurnOf(env), count, cost, Start(w, initial), Turns(env.settings));
    }
  }

  /** A run advances the meter by at most two model calls and one batch of tool calls per turn. */
  lemma LoopCost<W(!new)>(env: Env<W>, count: W -> nat, weight: nat, batch: nat, nested: nat, cost: nat)
    requires Metered(env, count, weight, batch, nested) && cost == 2 * weight + Times(batch, nested)
    ensures RunsCost(env, count, cost)
  {
    MeteredTurns(env, count, weight, batch, nested, cost);
    TurnsCostRuns(env, count, cost);
  }

  /** A run calls the model at most twice per turn, 2 * max(0, max_turns) times in all (TimesIsProduct). */
  lemma ModelCallsBounded<W(!new)>(env: Env<W>, calls: W -> nat)
    requires Metered(env, calls, 1, 0, 0)
    ensures RunsCost(env, calls, 2)
  {
    LoopCost(env, calls, 1, 0, 0, 2);
  }

  // ----- delegation -----------------------------------------------------------------------

  /** The bound for a chat at a depth: its own turns, and for every call of every turn a chat one
      level deeper, down to the deepest level, where call_agent is refused. */
  function Bound(weight: nat -> nat, turns: nat, batch: nat, depth: nat): nat
    decreases MAX_SUB_AGENT_DEPTH - depth
  {
    Times(turns, 2 * weight(depth) + Times(batch, Nested(weight, turns, batch, depth)))
  }

  function Nested(weight: nat -> nat, turns: nat, batch: nat, depth: nat): nat
    decreases MAX_SUB_AGENT_DEPTH - depth, 0
  {
    if depth >= MAX_SUB_AGENT_DEPTH then 0 else Bound(weight, turns, batch, depth + 1)
  }

  /** Nothing but model calls is metered, and a model call at depth d weighs at most weight(d). */
  ghost predicate MeteredByDepth<W(!new)>(svc: Services<W>, count: W -> nat, weight: nat -> nat)
  {
    && CreatingIsFree(svc, count)
    && SavingIsFree(svc, count)
    && (forall w, stack, a, id, m {:trigger count(svc.prepare(w, stack, a, id, m).world)} ::
          count(svc.prepare(w, stack, a, id, m).world) <= count(w))
    && (forall w, stack, a, id, m :: svc.prepare(w, stack, a, id, m).outcome.Ok? ==>
          Metered(svc.prepare(w, stack, a, id, m).outcome.value.env, count, weight(|stack|), 0, 0))
  }

  /** Every agent has at most turns turns, and its model asks for at most batch calls per completion. */
  ghost predicate BoundedServices<W(!new)>(svc: Services<W>, turns: nat, batch: nat)
  {
    forall w, stack, a, id, m :: svc.prepare(w, stack, a, id, m).outcome.Ok? ==>
      var env := svc.prepare(w, stack, a, id, m).outcome.value.env;
      SmallBatches(env, batch) && Turns(env.settings) <= turns
  }

  ghost predicate CreatingIsFree<W(!new)>(svc: Services<W>, count: W -> nat)
  {
    forall w, a {:trigger count(svc.createSession(w, a).world)} :: count(svc.createSession(w, a).world) <= count(w)
  }

  ghost predicate SavingIsFree<W(!new)>(svc: Services<W>, count: W -> nat)
  {
    forall w, a, id, sess {:trigger count(svc.save(w, a, id, sess))} :: count(svc.save(w, a, id, sess)) <= count(w)
  }

  ghost predicate DelegationCosts<W(!new)>(svc: Services<W>, stack: Stack, count: W -> nat, nested: nat)
  {
    forall w, args {:trigger count(CallAgent(svc, stack, w, args).world)} ::
      count(CallAgent(svc, stack, w, args).world) <= count(w) + nested
  }

  lemma DelegatingMetered<W(!new)>(svc: Services<W>, stack: Stack, env: Env<W>, count: W -> nat, weight: nat,
                                   batch: nat, nested: nat)
    requires Metered(env, count, weight, 0, 0) && (nested > 0 ==> SmallBatches(env, batch))
    requires DelegationCosts(svc, stack, count, nested)
    ensures Metered(DelegatingEnv(svc, stack, env), count, weight, batch, nested)
  {
    if nested > 0 {
      DelegatingBatches(svc, stack, env, batch);
    }
  }

  lemma DelegatingBatches<W(!new)>(svc: Services<W>, stack: Stack, env: Env<W>, batch: nat)
    requires SmallBatches(env, batch)
    ensures SmallBatches(DelegatingEnv(svc, stack, env), batch)
  {
    var d := DelegatingEnv(svc, stack, env);
    forall w, messages
      ensures ProcessCompletion(d, w, messages).Completed? ==>
                |ProcessCompletion(d, w, messages).completion.toolCalls| <= batch
    {
      assert ProcessCompletion(d, w, messages) == ProcessCompletion(env, w, messages);
    }
  }

  /** No chat at this depth advances the meter by more than cost. */
  ghost predicate ChatsCost<W(!new)>(svc: Services<W>, stack: Stack, count: W -> nat, cost: nat)
  {
    forall w, agentID, sessID, m {:trigger ChatAt(svc, stack, w, agentID, sessID, m)} ::
      count(ChatAt(svc, stack, w, agentID, sessID, m).world) <= count(w) + cost
  }

  /** Whatever the agents say to each other, a chat at a depth costs at most the bound for that depth. */
  lemma {:induction false} ChatCost<W(!new)>(svc: Services<W>, stack: Stack, count: W -> nat, weight: nat -> nat,
                                             turns: nat, batch: nat, cost: nat)
    requires MeteredByDepth(svc, count, weight) && BoundedServices(svc, turns, batch)
    requires cost == Bound(weight, turns, batch, |stack|)
    ensures ChatsCost(svc, stack, count, cost)
    decreases MAX_SUB_AGENT_DEPTH - |stack|, 1
  {
    var nested := Nested(weight, turns, batch, |stack|);
    AllDelegationCosts(svc, stack, count, weight, turns, batch, nested);
    PreparationCost(svc, stack, count, weight, turns, batch, nested, cost);
    ChatsFromPrepared(svc, stack, count, cost);
  }

  /** Preparing, running and saving one chat. */
  ghost predicate PreparedCosts<W(!new)>(svc: Services<W>, stack: Stack, w: W, agentID: string, sessID: string,
                                         m: Message, count: W -> nat, cost: nat)
  {
    var r := svc.prepare(w, stack, agentID, sessID, m);
    && count(r.world) <= count(w)
    && SavingIsFree(svc, count)
    && (r.outcome.Ok? ==> RunsAtMost(DelegatingEnv(svc, stack, r.outcome.value.env), count, cost))
  }

  ghost predicate RunsAtMost<W(!new)>(env: Env<W>, count: W -> nat, cost: nat)
  {
    forall w, initial {:trigger Loop(env, w, initial)} :: count(Loop(env, w, initial).state.world) <= count(w) + cost
  }

  lemma FewerTurns<W(!new)>(env: Env<W>, count: W -> nat, turns: nat, perTurn: nat, cost: nat)
    requires RunsCost(env, count, perTurn) && Turns(env.settings) <= turns && cost == Times(turns, perTurn)
    ensures RunsAtMost(env, count, cost)
  {
    TimesMonotone(Turns(env.settings), turns, perTurn);
  }

  ghost predicate AllPreparedCosts<W(!new)>(svc: Services<W>, stack: Stack, count: W -> nat, cost: nat)
  {
    forall w, agentID, sessID, m :: PreparedCosts(svc, stack, w, agentID, sessID, m, count, cost)
  }

  lemma PreparationCost<W(!new)>(svc: Services<W>, stack: Stack, count: W -> nat, weight: nat -> nat, turns: nat,
                                 batch: nat, nested: nat, cost: nat)
    requires MeteredByDepth(svc, count, weight) && BoundedServices(svc, turns, batch)
    requires DelegationCosts(svc, stack, count, nested)
    requires cost == Times(turns, 2 * weight(|stack|) + Times(batch, nested))
    ensures AllPreparedCosts(svc, stack, count, cost)
  {
    forall w, agentID, sessID, m ensures PreparedCosts(svc, stack, w, agentID, sessID, m, count, cost) {
      OnePreparationCost(svc, stack, w, agentID, sessID, m, count, weight, turns, batch, nested, cost);
    }
  }

  lemma OnePreparationCost<W(!new)>(svc: Services<W>, stack: Stack, w: W, agentID: string, sessID: string, m: Message,
                                    count: W -> nat, weight: nat -> nat, turns: nat, batch: nat, nested: nat, cost: nat)
    requires MeteredByDepth(svc, count, weight) && BoundedServices(svc, turns, batch)
    requires DelegationCosts(svc, stack, count, nested)
    requires cost == Times(turns, 2 * weight(|stack|) + Times(batch, nested))
    ensures PreparedCosts(svc, stack, w, agentID, sessID, m, count, cost)
  {
    var r := svc.prepare(w, stack, agentID, sessID, m);
    PreparedEnv(svc, stack, w, agentID, sessID, m, count, weight, turns, batch);
    if r.outcome.Ok? {
      DelegatingCost(svc, stack, r.outcome.value.env, count, weight(|stack|), turns, batch, nested, cost);
    }
    ThesePreparedCosts(svc, stack, w, agentID, sessID, m, count, cost);
  }

  lemma PreparedEnv<W(!new)>(svc: Services<W>, stack: Stack, w: W, agentID: string, sessID: string, m: Message,
                             count: W -> nat, weight: nat -> nat, turns: nat, batch: nat)
    requires MeteredByDepth(svc, count, weight) && BoundedServices(svc, turns, batch)
    ensures var r := svc.prepare(w, stack, agentID, sessID, m);
            && count(r.world) <= count(w)
            && (r.outcome.Ok? ==>
                  && Metered(r.outcome.value.env, count, weight(|stack|), 0, 0)
                  && SmallBatches(r.outcome.value.env, batch) && Turns(r.outcome.value.env.settings) <= turns)
  {
  }

  lemma ThesePreparedCosts<W(!new)>(svc: Services<W>, stack: Stack, w: W, agentID: string, sessID: string, m: Message,
                                    count: W -> nat, cost: nat)
    requires SavingIsFree(svc, count)
    requires count(svc.prepare(w, stack, agentID, sessID, m).world) <= count(w)
    requires svc.prepare(w, stack, agentID, sessID, m).outcome.Ok? ==>
               RunsAtMost(DelegatingEnv(svc, stack, svc.prepare(w, stack, agentID, sessID, m).outcome.value.env),
                          count, cost)
    ensures PreparedCosts(svc, stack, w, agentID, sessID, m, count, cost)
  {
  }

  lemma DelegatingCost<W(!new)>(svc: Services<W>, stack: Stack, env: Env<W>, count: W -> nat, weight: nat, turns: nat,
                                batch: nat, nested: nat, cost: nat)
    requires Metered(env, count, weight, 0, 0) && SmallBatches(env, batch) && Turns(env.settings) <= turns
    requires DelegationCosts(svc, stack, count, nested)
    requires cost == Times(turns, 2 * weight + Times(batch, nested))
    ensures RunsAtMost(DelegatingEnv(svc, stack, env), count, cost)
  {
    DelegatingMetered(svc, stack, env, count, weight, batch, nested);
    MeteredRuns(DelegatingEnv(svc, stack, env), count, weight, turns, batch, nested, cost);
  }

  lemma MeteredRuns<W(!new)>(env: Env<W>, count: W -> nat, weight: nat, turns: nat, batch: nat, nested: nat, cost: nat)
    requires Metered(env, count, weight, batch, nested) && Turns(env.settings) <= turns
    requires cost == Times(turns, 2 * weight + Times(batch, nested))
    ensures RunsAtMost(env, count, cost)
  {
    var perTurn := 2 * weight + Times(batch, nested);
    LoopCost(env, count, weight, batch, nested, perTurn);
    FewerTurns(env, count, turns, perTurn, cost);
  }

  lemma ChatsFromPrepared<W(!new)>(svc: Services<W>, stack: Stack, count: W -> nat, cost: nat)
    requires AllPreparedCosts(svc, stack, count, cost)
    ensures ChatsCost(svc, stack, count, cost)
  {
    forall w, agentID, sessID, m ensures count(ChatAt(svc, stack, w, agentID, sessID, m).world) <= count(w) + cost {
      var r := svc.prepare(w, stack, agentID, sessID, m);
      assert PreparedCosts(svc, stack, w, agentID, sessID, m, count, cost);
      if r.outcome.Ok? {
        var p := r.outcome.value;
        var env := DelegatingEnv(svc, stack, p.env);
        var session := SavedSession(env, r.world, p.stored, m, p.system);
        var world := ChatRun(env, r.world, p.stored, m, p.system).state.world;
        assert count(world) <= count(r.world) + cost;
        assert count(svc.save(world, agentID, sessID, session)) <= count(world);
      }
    }
  }

  lemma {:induction false} AllDelegationCosts<W(!new)>(svc: Services<W>, stack: Stack, count: W -> nat,
                                                       weight: nat -> nat, turns: nat, batch: nat, nested: nat)
    requires MeteredByDepth(svc, count, weight) && BoundedServices(svc, turns, batch)
    requires nested == Nested(weight, turns, batch, |stack|)
    ensures DelegationCosts(svc, stack, count, nested)
    decreases MAX_SUB_AGENT_DEPTH - |stack|, 0
  {
    if |stack| < MAX_SUB_AGENT_DEPTH {
      forall agentID: string ensures ChatsCost(svc, [agentID] + stack, count, nested) {
        ChatCost(svc, [agentID] + stack, count, weight, turns, batch, nested);
      }
    }
    DelegationFromChats(svc, stack, count, nested);
  }

  /** call_agent costs nothing by itself, and nothing at all at the deepest level. */
  lemma DelegationFromChats<W(!new)>(svc: Services<W>, stack: Stack, count: W -> nat, nested: nat)
    requires CreatingIsFree(svc, count)
    requires |stack| < MAX_SUB_AGENT_DEPTH ==>
               forall agentID: string :: ChatsCost(svc, [agentID] + stack, count, nested)
    ensures DelegationCosts(svc, stack, count, nested)
  {
    forall w, args ensures count(CallAgent(svc, stack, w, args).world) <= count(w) + nested {
      var a := svc.unwrapArgs(args);
      if a.Some? {
        SubAgentCost(svc, stack, w, a.value.name, a.value.request, count, nested);
      }
    }
  }

  lemma SubAgentCost<W(!new)>(svc: Services<W>, stack: Stack, w: W, agentID: string, request: string,
                              count: W -> nat, nested: nat)
    requires CreatingIsFree(svc, count)
    requires |stack| < MAX_SUB_AGENT_DEPTH ==> ChatsCost(svc, [agentID] + stack, count, nested)
    ensures count(SubAgentCall(svc, stack, w, agentID, request).world) <= count(w) + nested
  {
    if |stack| < MAX_SUB_AGENT_DEPTH {
      var created := svc.createSession(w, agentID);
      assert count(created.world) <= count(w);
      if created.outcome.Ok? {
        var chat := ChatAt(svc, [agentID] + stack, created.world, agentID, created.outcome.value,
                           UserMessage(Text(request)));
        assert count(chat.world) <= count(created.world) + nested;
      }
    }
  }

  // ----- the depth limit ------------------------------------------------------------------

  /** No chain of delegations nests deeper than three: a meter of the model calls made below depth
      three never moves, however many turns the agents have and tool calls the models ask for. */
  lemma NoModelCallBelowDepthThree<W(!new)>(svc: Services<W>, below: W -> nat)
    requires MeteredByDepth(svc, below, d => if d > 3 then 1 else 0)
    ensures ChatsCost(svc, [], below, 0)
  {
    FreeChats(svc, [], below, d => if d > 3 then 1 else 0);
  }

  lemma {:induction false} FreeChats<W(!new)>(svc: Services<W>, stack: Stack, count: W -> nat, weight: nat -> nat)
    requires MeteredByDepth(svc, count, weight) && forall d: nat | d <= MAX_SUB_AGENT_DEPTH :: weight(d) == 0
    ensures ChatsCost(svc, stack, count, 0)
    decreases MAX_SUB_AGENT_DEPTH - |stack|
  {
    if |stack| < MAX_SUB_AGENT_DEPTH {
      forall agentID: string ensures ChatsCost(svc, [agentID] + stack, count, 0) {
        FreeChats(svc, [agentID] + stack, count, weight);
      }
    }
    DelegationFromChats(svc, stack, count, 0);
    forall w, agentID, sessID, m ensures PreparedCosts(svc, stack, w, agentID, sessID, m, count, 0) {
      FreePreparation(svc, stack, w, agentID, sessID, m, count, weight);
    }
    ChatsFromPrepared(svc, stack, count, 0);
  }

  lemma FreePreparation<W(!new)>(svc: Services<W>, stack: Stack, w: W, agentID: string, sessID: string, m: Message,
                                 count: W -> nat, weight: nat -> nat)
    requires MeteredByDepth(svc, count, weight) && weight(|stack|) == 0 && DelegationCosts(svc, stack, count, 0)
    ensures PreparedCosts(svc, stack, w, agentID, sessID, m, count, 0)
  {
    var r := svc.prepare(w, stack, agentID, sessID, m);
    assert count(r.world) <= count(w);
    if r.outcome.Ok? {
      FreeRuns(svc, stack, r.outcome.value.env, count);
    }
    ThesePreparedCosts(svc, stack, w, agentID, sessID, m, count, 0);
  }

  lemma FreeRuns<W(!new)>(svc: Services<W>, stack: Stack, env: Env<W>, count: W -> nat)
    requires Metered(env, count, 0, 0, 0) && DelegationCosts(svc, stack, count, 0)
    ensures RunsAtMost(DelegatingEnv(svc, stack, env), count, 0)
  {
    var d := DelegatingEnv(svc, stack, env);
    DelegatingMetered(svc, stack, env, count, 0, 0, 0);
    TimesIsProduct(Turns(d.settings), 0);
    MeteredRuns(d, count, 0, Turns(d.settings), 0, 0, 0);
  }
}
