/** The hook that does not let an agent finish with undone todos (internal/hooks/completion.go:69-161),
    and its budget against the loop's own mistake budget. */
module TodoHook {
  import opened Basics
  import opened Messages
  import opened Sessions
  import opened Runtime
  import opened Runs

  const MAX_INCOMPLETED_TODO_ATTEMPTS := 3

  datatype Status = Pending | InProgress | Done | Declined

  datatype TodoItem = TodoItem(id: int, title: string, status: Status)

  type Attempts = map<string, nat>

  function Undone(items: seq<TodoItem>): seq<TodoItem>
  {
    if items == [] then []
    else Undone(Front(items)) + (if Last(items).status.Done? || Last(items).status.Declined? then [] else [Last(items)])
  }

  lemma UndoneSnoc(items: seq<TodoItem>, last: TodoItem)
    ensures Undone(items + [last]) ==
            if last.status == Done || last.status == Declined then Undone(items) else Undone(items) + [last]
  {
    assert Front(items + [last]) == items;
  }

  predicate CountsUndone(items: seq<TodoItem>, t: TodoItem)
  {
    Times(Undone(items), t) == if t.status != Done && t.status != Declined then Times(items, t) else 0
  }

  lemma CountsOneMore(items: seq<TodoItem>, last: TodoItem, t: TodoItem)
    requires CountsUndone(items, t)
    ensures CountsUndone(items + [last], t)
  {
    UndoneSnoc(items, last);
    OneMore(items, last, t);
    OneMore(Undone(items), last, t);
  }

  lemma {:induction false} TimesUndone(items: seq<TodoItem>, t: TodoItem)
    ensures CountsUndone(items, t)
  {
    if items != [] {
      TimesUndone(Front(items), t);
      CountsOneMore(Front(items), Last(items), t);
      assert items == Front(items) + [Last(items)];
    }
  }

  /** How often an item is listed. */
  function Times(items: seq<TodoItem>, t: TodoItem): nat
  {
    multiset(items)[t]
  }

  lemma OneMore(items: seq<TodoItem>, last: TodoItem, t: TodoItem)
    ensures Times(items + [last], t) == Times(items, t) + (if last == t then 1 else 0)
  {
  }

  /** The undone items are those neither done nor declined, each as often as it is listed. */
  lemma UndoneItems(items: seq<TodoItem>, t: TodoItem)
    ensures Times(Undone(items), t) == if t.status != Done && t.status != Declined then Times(items, t) else 0
    ensures t in Undone(items) <==> t in items && t.status != Done && t.status != Declined
  {
    TimesUndone(items, t);
    InMultiset(Undone(items), t);
    InMultiset(items, t);
  }

  lemma InMultiset(items: seq<TodoItem>, t: TodoItem)
    ensures t in items <==> Times(items, t) > 0
  {
    assert t in items <==> t in multiset(items);
  }

  /** And they keep their order. */
  lemma {:induction false} UndoneInOrder(a: seq<TodoItem>, b: seq<TodoItem>)
    ensures Undone(a + b) == Undone(a) + Undone(b)
  {
    if b == [] {
      assert a + b == a;
    } else {
      FrontOfConcat(a, b);
      UndoneInOrder(a, Front(b));
    }
  }

  predicate AllSettled(items: seq<TodoItem>)
  {
    forall t <- items :: t.status == Done || t.status == Declined
  }

  lemma NothingUndone(items: seq<TodoItem>)
    ensures Undone(items) == [] <==> AllSettled(items)
  {
    forall t ensures t in Undone(items) <==> t in items && t.status != Done && t.status != Declined {
      UndoneItems(items, t);
    }
    if Undone(items) != [] {
      assert Undone(items)[0] in Undone(items);
    }
  }

  function Count(attempts: Attempts, sessID: string): nat
  {
    if sessID in attempts then attempts[sessID] else 0
  }

  datatype Verdict = Verdict(attempts: Attempts, completion: Completion, err: Option<Error>)

  /** The hook as a function of its counters, the session in the context, its todos and the completion. */
  function Judge(attempts: Attempts, sessID: Option<string>, items: seq<TodoItem>, caution: seq<TodoItem> -> string,
                 c: Completion): Verdict
  {
    if !c.done then Verdict(attempts, c, None) else
    match sessID
    case None => Verdict(attempts, c, Some(Failure("todo hook: has no session ID")))
    case Some(id) =>
      var undone := Undone(items);
      if undone == [] then Verdict(attempts - {id}, c, None)
      else if Count(attempts, id) >= MAX_INCOMPLETED_TODO_ATTEMPTS then
        Verdict(attempts - {id}, c, Some(Failure("agent can't handle with undone tasks")))
      else
        Verdict(attempts[id := Count(attempts, id) + 1], c.(done := false), Some(AgentMistake(caution(undone))))
  }

  /** The verdict by the todos' statuses: an agent may finish exactly when every todo is done or declined. Else it
      is sent back with the undone ones, at most three times in a row; then the hook gives up. */
  lemma Judged(attempts: Attempts, id: string, items: seq<TodoItem>, caution: seq<TodoItem> -> string, c: Completion)
    ensures var v := Judge(attempts, Some(id), items, caution, c);
            var before := if id in attempts then attempts[id] else 0;
            && (!c.done ==> v == Verdict(attempts, c, None))
            && (c.done && AllSettled(items) ==> v == Verdict(attempts - {id}, c, None))
            && (c.done && !AllSettled(items) && before < 3 ==>
                  v == Verdict(attempts[id := before + 1], c.(done := false),
                               Some(AgentMistake(caution(Undone(items))))))
            && (c.done && !AllSettled(items) && before >= 3 ==>
                  v == Verdict(attempts - {id}, c, Some(Failure("agent can't handle with undone tasks"))))
    ensures Judge(attempts, None, items, caution, c)
            == Verdict(attempts, c, if c.done then Some(Failure("todo hook: has no session ID")) else None)
  {
    NothingUndone(items);
  }

  class UndoneTodoHook {
    var attemptCounter: Attempts

    constructor ()
      ensures attemptCounter == map[]
    {
      attemptCounter := map[];
    }

    method ExtractUndoneTodos(items: seq<TodoItem>) returns (undone: seq<TodoItem>)
      ensures undone == Undone(items)
      ensures forall t :: t in undone <==> t in items && t.status != Done && t.status != Declined
    {
      undone := [];
      for i := 0 to |items|
        invariant undone == Undone(items[..i])
      {
        assert Front(items[..i + 1]) == items[..i];
        if !items[i].status.Done? && !items[i].status.Declined? {
          undone := undone + [items[i]];
        }
      }
      assert items[..|items|] == items;
      forall t ensures t in undone <==> t in items && t.status != Done && t.status != Declined {
        UndoneItems(items, t);
      }
    }

    method Apply(sessID: Option<string>, items: seq<TodoItem>, caution: seq<TodoItem> -> string, c: Completion)
      returns (out: Completion, err: Option<Error>)
      modifies this
      ensures Verdict(attemptCounter, out, err) == Judge(old(attemptCounter), sessID, items, caution, c)
    {
      out, err := c, None;
      if !c.done {
        return;
      }
      if sessID.None? {
        err := Some(Failure("todo hook: has no session ID"));
        return;
      }
      var undone := ExtractUndoneTodos(items);
      if |undone| > 0 {
        var canNotHandle := Count(attemptCounter, sessID.value) >= MAX_INCOMPLETED_TODO_ATTEMPTS;
        if canNotHandle {
          attemptCounter := attemptCounter - {sessID.value};
          err := Some(Failure("agent can't handle with undone tasks"));
          return;
        }
        attemptCounter := attemptCounter[sessID.value := Count(attemptCounter, sessID.value) + 1];
        out := c.(done := false);
        err := Some(AgentMistake(caution(undone)));
        return;
      }
      attemptCounter := attemptCounter - {sessID.value};
    }
  }

  // ----- the hook in the loop ------------------------------------------------------------

  /** The world of a chat: the hook's counters and everything else. */
  datatype World<U> = World(attempts: Attempts, user: U)

  /** The chat hook set on completions: the todo hook, then the masking of secrets in the content. */
  datatype HookSet<!U> = HookSet(
    sessID: string,
    list: (U, string) -> seq<TodoItem>,
    caution: seq<TodoItem> -> string,
    mask: string -> string)

  function TodoHookOf<U>(h: HookSet<U>): (World<U>, Completion) -> HookReply<World<U>, Completion>
  {
    (w: World<U>, c) =>
      var v := Judge(w.attempts, Some(h.sessID), h.list(w.user, h.sessID), h.caution, c);
      HookReply(w.(attempts := v.attempts), v.completion, v.err)
  }

  function MaskHookOf<U>(h: HookSet<U>): (World<U>, Completion) -> HookReply<World<U>, Completion>
  {
    (w, c: Completion) => HookReply(w, c.(content := h.mask(c.content)), None)
  }

  function ChatEnv<U>(env: Env<World<U>>, h: HookSet<U>): Env<World<U>>
  {
    env.(completionHooks := [TodoHookOf(h), MaskHookOf(h)])
  }

  function Budget<U>(w: World<U>, id: string): nat
  {
    Count(w.attempts, id)
  }

  /** While a run is going on nobody else touches the session's counter: one run per session at a time.
      Delegated runs use other sessions. */
  ghost predicate LeavesBudget<U(!new)>(env: Env<World<U>>, id: string)
  {
    && (forall w :: Budget(env.poll(w).world, id) == Budget(w, id))
    && (forall w, call :: Budget(env.complete(w, call).world, id) == Budget(w, id))
    && (forall h <- env.callHooks, w, c :: Budget(h(w, c).world, id) == Budget(w, id))
    && (forall h <- env.resultHooks, w, a :: Budget(h(w, a).world, id) == Budget(w, id))
    && (forall w, name, args :: Budget(env.callTool(w, name, args).world, id) == Budget(w, id))
  }

  /** What the two hooks together do to a completion. */
  lemma ChatHooks<U>(h: HookSet<U>, w: World<U>, c: Completion)
    ensures var v := Judge(w.attempts, Some(h.sessID), h.list(w.user, h.sessID), h.caution, c);
            var r := Hooked([TodoHookOf(h), MaskHookOf(h)], w, c);
            && r.err == v.err && r.world == w.(attempts := v.attempts)
            && r.event == (if v.err == None then v.completion.(content := h.mask(c.content)) else v.completion)
  {
    var hooks := [TodoHookOf(h), MaskHookOf(h)];
    assert hooks[1..] == [MaskHookOf(h)] && hooks[1..][1..] == [];
    var r := TodoHookOf(h)(w, c);
    if r.err == None {
      assert Hooked(hooks[1..][1..], MaskHookOf(h)(r.world, r.event).world,
                    MaskHookOf(h)(r.world, r.event).event).err == None;
    }
  }

  lemma {:induction false} ToolHooksLeave<U(!new), T(!new)>(hooks: seq<(World<U>, T) -> HookReply<World<U>, T>>,
                                                            id: string, w: World<U>, ev: T)
    requires forall h <- hooks, w, ev :: Budget(h(w, ev).world, id) == Budget(w, id)
    ensures Budget(Hooked(hooks, w, ev).world, id) == Budget(w, id)
  {
    if hooks != [] {
      assert hooks[0] in hooks;
      var r := hooks[0](w, ev);
      ToolHooksLeave(hooks[1..], id, r.world, r.event);
    }
  }

  lemma CallLeaves<U(!new)>(env: Env<World<U>>, id: string, w: World<U>, call: ToolCall)
    requires LeavesBudget(env, id)
    ensures Budget(ProcessToolCall(env, w, call).world, id) == Budget(w, id)
  {
    ToolHooksLeave(env.callHooks, id, w, call);
    var pre := Hooked(env.callHooks, w, call);
    var reply := env.callTool(pre.world, call.toolName, pre.event.arguments);
    assert Budget(reply.world, id) == Budget(pre.world, id);
    if reply.outcome.Returned? {
      ToolHooksLeave(env.resultHooks, id, reply.world,
                     AfterToolCall(pre.event, ToolResult(pre.event.id, reply.outcome.content)));
    }
  }

  lemma {:induction false} BatchLeaves<U(!new)>(env: Env<World<U>>, id: string, w: World<U>, calls: seq<ToolCall>)
    requires LeavesBudget(env, id)
    ensures Budget(Batch(env, w, calls).world, id) == Budget(w, id)
    decreases calls
  {
    if calls != [] {
      CallLeaves(env, id, w, calls[0]);
      BatchLeaves(env, id, OneCall(env, w, calls[0]).world, calls[1..]);
    }
  }

  lemma CompactLeaves<U(!new)>(env: Env<World<U>>, id: string, w: World<U>, msgs: seq<Message>)
    requires LeavesBudget(env, id)
    ensures Budget(DoCompact(env, w, msgs).world, id) == Budget(w, id)
  {
  }

  /** Everything after an accepted completion leaves the counter alone and sends no mistake. */
  lemma CompleteStepLeaves<U(!new)>(env: Env<World<U>>, id: string, s: State<World<U>>, w: World<U>, c: Completion)
    requires LeavesBudget(env, id)
    ensures var t := CompleteStep(env, s, w, c);
            && Budget(t.state.world, id) == Budget(w, id)
            && t.state.mistakes == s.mistakes
            && (c.done ==> t.exited)
            && (t.exited ==> && t.events != [] && Last(t.events).LoopExitEvent?
                             && Last(t.events).exit != Some(TooManyMistakes)
                             && (Last(t.events).exit == None ==> c.done))
  {
    var s1 := State(w, s.messages + [NewAgentMessage(c)], s.mistakes, s.injected + [false]);
    CompactLeaves(env, id, w, s1.messages);
    var r := DoCompact(env, w, s1.messages);
    BatchLeaves(env, id, w, c.toolCalls);
    BatchLeaves(env, id, r.world, c.toolCalls);
  }

  /** Between turns every mistake of this run has been counted by the hook, and the hook counts to three. */
  ghost predicate WithinBudget<U>(s: State<World<U>>, id: string)
  {
    s.mistakes <= Budget(s.world, id) <= MAX_INCOMPLETED_TODO_ATTEMPTS
  }

  ghost predicate GoodTurn<U>(t: Step<World<U>>, id: string)
  {
    && Budget(t.state.world, id) <= MAX_INCOMPLETED_TODO_ATTEMPTS
    && (!t.exited ==> WithinBudget(t.state, id))
    && (t.exited ==> && t.events != [] && Last(t.events).LoopExitEvent?
                     && Last(t.events).exit != Some(TooManyMistakes)
                     && (Last(t.events).exit == None ==> Budget(t.state.world, id) == 0))
  }

  /** A completion as the loop gets it: accepted ones that end the run cleared the counter, and every
      mistake was counted. */
  ghost predicate CountedReply<U>(reply: CompletionReply<World<U>>, w: World<U>, id: string)
  {
    match reply
    case Completed(w', c) => if c.done then Budget(w', id) == 0 else Budget(w', id) == Budget(w, id)
    case ModelFailed(w', _) => Budget(w', id) == Budget(w, id)
    case Rejected(w', _, e) =>
      && !Is(e, ContextOverflow)
      && Budget(w', id) <= MAX_INCOMPLETED_TODO_ATTEMPTS
      && (MistakeOf(e).Some? ==> Budget(w', id) == Budget(w, id) + 1)
  }

  lemma ChatCompletion<U(!new)>(env: Env<World<U>>, h: HookSet<U>, w: World<U>, messages: seq<Message>)
    requires LeavesBudget(ChatEnv(env, h), h.sessID) && Budget(w, h.sessID) <= MAX_INCOMPLETED_TODO_ATTEMPTS
    ensures CountedReply(ProcessCompletion(ChatEnv(env, h), w, messages), w, h.sessID)
  {
    var e := ChatEnv(env, h);
    var reply := e.complete(w, ModelCall(true, messages));
    assert Budget(reply.world, h.sessID) == Budget(w, h.sessID);
    if reply.outcome.Ok? {
      ChatHooks(h, reply.world, reply.outcome.value);
    }
  }

  lemma OverflowGood<U(!new)>(env: Env<World<U>>, id: string, s: State<World<U>>, w: World<U>)
    requires LeavesBudget(env, id) && s.mistakes <= Budget(w, id) <= MAX_INCOMPLETED_TODO_ATTEMPTS
    ensures GoodTurn(OverflowStep(env, s, w), id)
  {
    CompactLeaves(env, id, w, s.messages);
  }

  lemma CompleteGood<U(!new)>(env: Env<World<U>>, id: string, s: State<World<U>>, w: World<U>, c: Completion)
    requires LeavesBudget(env, id) && Budget(w, id) <= MAX_INCOMPLETED_TODO_ATTEMPTS
    requires if c.done then Budget(w, id) == 0 else s.mistakes <= Budget(w, id)
    ensures GoodTurn(CompleteStep(env, s, w, c), id)
  {
    CompleteStepLeaves(env, id, s, w, c);
  }

  lemma TurnWithinBudget<U(!new)>(env: Env<World<U>>, h: HookSet<U>, s: State<World<U>>)
    requires LeavesBudget(ChatEnv(env, h), h.sessID) && WithinBudget(s, h.sessID)
    ensures GoodTurn(Turn(ChatEnv(env, h), s), h.sessID)
  {
    var e, id := ChatEnv(env, h), h.sessID;
    var p := e.poll(s.world);
    assert Budget(p.world, id) == Budget(s.world, id);
    if p.err == None {
      ChatCompletion(env, h, p.world, s.messages);
      match ProcessCompletion(e, p.world, s.messages) {
        case Completed(w, c) => CompleteGood(e, id, s, w, c);
        case ModelFailed(w, _) => OverflowGood(e, id, s, w);
        case Rejected(_, _, _) =>
      }
    }
  }

  ghost predicate StaysGood<U(!new)>(turn: State<World<U>> -> Step<World<U>>, id: string)
  {
    forall s {:trigger GoodTurn(turn(s), id)} :: WithinBudget(s, id) ==> GoodTurn(turn(s), id)
  }

  lemma {:induction false} RunWithinBudget<U(!new)>(turn: State<World<U>> -> Step<World<U>>, id: string,
                                                    s: State<World<U>>, turns: nat)
    requires StaysGood(turn, id) && WithinBudget(s, id)
    ensures GoodTurn(Run(turn, s, turns), id)
    decreases turns
  {
    if turns > 0 {
      assert GoodTurn(turn(s), id);
      if !turn(s).exited {
        RunWithinBudget(turn, id, turn(s).state, turns - 1);
      }
    }
  }

  /** Whatever a run inherits from interrupted ones, it keeps the counter in 0..3, never ends with
      ErrTooManyMistakes (the hook gives up first), and clears the counter when it ends well. */
  lemma LoopWithinBudget<U(!new)>(env: Env<World<U>>, h: HookSet<U>, w: World<U>, initial: seq<Message>)
    requires LeavesBudget(ChatEnv(env, h), h.sessID) && Budget(w, h.sessID) <= MAX_INCOMPLETED_TODO_ATTEMPTS
    ensures GoodTurn(Loop(ChatEnv(env, h), w, initial), h.sessID)
  {
    forall s | WithinBudget(s, h.sessID) ensures GoodTurn(TurnOf(ChatEnv(env, h))(s), h.sessID) {
      TurnWithinBudget(env, h, s);
    }
    RunWithinBudget(TurnOf(ChatEnv(env, h)), h.sessID, Start(w, initial), Turns(env.settings));
  }

  datatype RunSpec<!U> = RunSpec(env: Env<World<U>>, hooks: HookSet<U>, initial: seq<Message>)

  /** One run after the other on the same session, finished, failed or interrupted. */
  function AllRuns<U>(w: World<U>, rs: seq<RunSpec<U>>): (World<U>, seq<Option<Error>>)
  {
    if rs == [] then (w, []) else
    var (w1, exits) := AllRuns(w, Front(rs));
    var run := Loop(ChatEnv(Last(rs).env, Last(rs).hooks), w1, Last(rs).initial);
    var exited := run.events != [] && Last(run.events).LoopExitEvent?;
    (run.state.world, exits + (if exited then [Last(run.events).exit] else []))
  }

  /** Over any history of runs from a fresh hook the counter stays in 0..3 and no run ends with
      ErrTooManyMistakes. */
  lemma {:induction false} HistoryWithinBudget<U(!new)>(w: World<U>, rs: seq<RunSpec<U>>, id: string)
    requires Budget(w, id) == 0
    requires forall r <- rs :: r.hooks.sessID == id && LeavesBudget(ChatEnv(r.env, r.hooks), id)
    ensures var (w', exits) := AllRuns(w, rs);
            && Budget(w', id) <= MAX_INCOMPLETED_TODO_ATTEMPTS
            && |exits| == |rs| && Some(TooManyMistakes) !in exits
  {
    if rs != [] {
      var r := Last(rs);
      assert r in rs;
      HistoryWithinBudget(w, Front(rs), id);
      LoopWithinBudget(r.env, r.hooks, AllRuns(w, Front(rs)).0, r.initial);
    }
  }

  /** The turn's completion was marked done while every todo was done or declined. */
  predicate DoneWhenSettled<U>(env: Env<World<U>>, h: HookSet<U>, s: State<World<U>>)
  {
    var reply := env.complete(env.poll(s.world).world, ModelCall(true, s.messages));
    reply.outcome.Ok? && reply.outcome.value.done && AllSettled(h.list(reply.world.user, h.sessID))
  }

  lemma NilTurnMeansNoUndone<U(!new)>(env: Env<World<U>>, h: HookSet<U>, s: State<World<U>>)
    requires LeavesBudget(ChatEnv(env, h), h.sessID)
    ensures NilMeans(Turn(ChatEnv(env, h), s), DoneWhenSettled(env, h, s))
  {
    var e, id := ChatEnv(env, h), h.sessID;
    var p := e.poll(s.world);
    if p.err == None {
      var reply := e.complete(p.world, ModelCall(true, s.messages));
      if reply.outcome.Ok? {
        ChatHooks(h, reply.world, reply.outcome.value);
        NothingUndone(h.list(reply.world.user, h.sessID));
        var r := Hooked(e.completionHooks, reply.world, reply.outcome.value);
        if r.err == None {
          CompleteStepLeaves(e, id, s, r.world, r.event);
        }
      }
    }
  }

  /** A turn that ends the run without error is a good one. */
  ghost predicate NilMeans<U>(t: Step<World<U>>, good: bool)
  {
    t.exited ==> t.events != [] && (Last(t.events) == LoopExitEvent(None) ==> good)
  }

  /** A run that ends without error ends with a turn that exits and is good. */
  lemma RunNilMeans<U(!new)>(turn: State<World<U>> -> Step<World<U>>, good: State<World<U>> -> bool,
                             s: State<World<U>>, turns: nat)
    requires forall s :: NilMeans(turn(s), good(s))
    ensures var events := Run(turn, s, turns).events;
            && events != []
            && (Last(events) == LoopExitEvent(None) ==> exists k: nat :: k < turns && EndsWith(turn, good, s, turns, k))
  {
    var k, last := RunEnds(turn, s, turns);
    assert NilMeans(turn(last), good(last));
    assert k < turns && good(last) ==> EndsWith(turn, good, s, turns, k);
  }

  /** The run ends with its k-th turn, which meets a condition. */
  ghost predicate EndsWith<U>(turn: State<World<U>> -> Step<World<U>>, good: State<World<U>> -> bool,
                              s: State<World<U>>, turns: nat, k: nat)
  {
    && HoldsAfter(turn, good, s, k) && turn(After(turn, s, k).value).exited
    && Run(turn, s, turns).events == Sent(turn, s, k) + turn(After(turn, s, k).value).events
    && Run(turn, s, turns).state == turn(After(turn, s, k).value).state
  }

  /** The turn that ends the run has a completion that was marked done while every todo was done
      or declined. */
  ghost predicate EndsDone<U>(env: Env<World<U>>, h: HookSet<U>, w: World<U>, initial: seq<Message>)
  {
    var good: State<World<U>> -> bool := s => DoneWhenSettled(env, h, s);
    exists k: nat :: k < Turns(env.settings) &&
      EndsWith(TurnOf(ChatEnv(env, h)), good, Start(w, initial), Turns(env.settings), k)
  }

  /** A run that ends without error ends with a completion that was marked done while every listed todo was
      done or declined, and leaves the session's counter cleared. */
  lemma NilExitMeansNoUndone<U(!new)>(env: Env<World<U>>, h: HookSet<U>, w: World<U>, initial: seq<Message>)
    requires LeavesBudget(ChatEnv(env, h), h.sessID) && Budget(w, h.sessID) <= MAX_INCOMPLETED_TODO_ATTEMPTS
    ensures var run := Loop(ChatEnv(env, h), w, initial);
            && run.events != []
            && (Last(run.events) == LoopExitEvent(None) ==>
                  EndsDone(env, h, w, initial) && Budget(run.state.world, h.sessID) == 0)
  {
    LoopWithinBudget(env, h, w, initial);
    var good: State<World<U>> -> bool := s => DoneWhenSettled(env, h, s);
    forall s ensures NilMeans(TurnOf(ChatEnv(env, h))(s), good(s)) {
      NilTurnMeansNoUndone(env, h, s);
    }
    RunNilMeans(TurnOf(ChatEnv(env, h)), good, Start(w, initial), Turns(env.settings));
  }
}
