/** The grammar of a run's events, as an automaton, and what follows from it. */
module Traces {
  import opened Basics
  import opened Messages
  import opened Sessions
  import opened Runtime
  import AnsweredCalls

  /** Where in its grammar a trace is.
      Idle: between turns. Struck: after the fourth mistake. Working: after a completion, with the calls
      still without a result; recent until something else follows, failed once the first call has failed. */
  datatype Phase =
    | Idle(mistakes: nat)
    | Struck
    | Working(calls: seq<ToolCall>, done: bool, recent: bool, failed: bool, mistakes: nat)
    | Closed
    | Bad

  /** The errors with which a run can end between turns. */
  predicate IsTurnExit(e: Error)
  {
    || e == Canceled || e == DeadlineExceeded || e == MaxTurnsExceeded
    || (e.Wrapped? && (e.text == "completion" || e.text == "unhandled overflow"))
  }

  predicate IsThresholdExit(e: Error)
  {
    e.Wrapped? && e.text == "thereshold compaction"
  }

  function NextFromIdle(m: nat, ev: Event): Phase
  {
    match ev
    case CompactionEvent(_, _) => Idle(m)
    case CompletionMistakeEvent(_) => if m < MAX_COMPLETION_MISTAKES then Idle(m + 1) else Struck
    case CompleteEvent(c) => Working(c.toolCalls, c.done, true, false, m)
    case LoopExitEvent(exit) => if exit.Some? && IsTurnExit(exit.value) then Closed else Bad
    case _ => Bad
  }

  function Next(p: Phase, ev: Event): Phase
  {
    match p
    case Idle(m) => NextFromIdle(m, ev)
    case Struck => if ev == LoopExitEvent(Some(TooManyMistakes)) then Closed else Bad
    case Closed => Bad
    case Bad => Bad
    case Working(calls, done, recent, failed, m) =>
      if ev.CompactionEvent? && recent then
        p.(recent := false)
      else if ev.LoopExitEvent? && ev.exit.Some? && IsThresholdExit(ev.exit.value) then
        if recent then Closed else Bad
      else if calls == [] then
        if !done then NextFromIdle(m, ev)
        else if ev == LoopExitEvent(None) then Closed else Bad
      else if ev.ToolCallErrEvent? && !failed
              && ev.toolName == calls[0].toolName && ev.arguments == calls[0].arguments then
        p.(recent := false, failed := true)
      else if ev.ToolResultEvent? && ev.call == calls[0] then
        Working(calls[1..], done, false, false, m)
      else Bad
  }

  function Parse(p: Phase, events: seq<Event>): Phase
  {
    if events == [] then p else Next(Parse(p, Front(events)), Last(events))
  }

  lemma {:induction false} ParseConcat(p: Phase, a: seq<Event>, b: seq<Event>)
    ensures Parse(p, a + b) == Parse(Parse(p, a), b)
  {
    if b == [] {
      assert a + b == a;
    } else {
      assert Front(a + b) == a + Front(b);
      ParseConcat(p, a, Front(b));
    }
  }

  lemma ParseOne(p: Phase, ev: Event)
    ensures Parse(p, [ev]) == Next(p, ev)
  {
    assert Front([ev]) == [];
  }

  lemma ParseTwo(p: Phase, a: Event, b: Event)
    ensures Parse(p, [a, b]) == Next(Next(p, a), b)
  {
    assert Front([a, b]) == [a];
    ParseOne(p, a);
  }

  /** Between turns, with m mistakes behind. */
  predicate Boundary(p: Phase, m: nat)
  {
    m <= MAX_COMPLETION_MISTAKES &&
    (p == Idle(m) || (p.Working? && p.calls == [] && !p.done && p.mistakes == m))
  }

  lemma OneCallParses<W>(env: Env<W>, w: W, p: Phase)
    requires p.Working? && p.calls != [] && !p.failed
    ensures Parse(p, OneCall(env, w, p.calls[0]).events) == Working(p.calls[1..], p.done, false, false, p.mistakes)
  {
    var events := OneCall(env, w, p.calls[0]).events;
    if |events| == 1 {
      ParseOne(p, events[0]);
      assert events == [events[0]];
    } else {
      ParseTwo(p, events[0], events[1]);
      assert events == [events[0], events[1]];
    }
  }

  lemma {:induction false} BatchParses<W>(env: Env<W>, w: W, p: Phase)
    requires p.Working? && !p.failed
    ensures var q := Parse(p, Batch(env, w, p.calls).events);
            q.Working? && q.calls == [] && q.done == p.done && q.mistakes == p.mistakes
    decreases if p.Working? then |p.calls| else 0
  {
    if p.calls != [] {
      OneCallParses(env, w, p);
      var first := OneCall(env, w, p.calls[0]);
      var q := Working(p.calls[1..], p.done, false, false, p.mistakes);
      BatchParses(env, first.world, q);
      ParseConcat(p, first.events, Batch(env, first.world, p.calls[1..]).events);
    }
  }

  /** What a turn may do to the phase. */
  ghost predicate TurnParses<W>(t: Step<W>, p: Phase)
  {
    if t.exited then Parse(p, t.events) == Closed
    else Boundary(Parse(p, t.events), t.state.mistakes)
  }

  lemma ToolStepParses<W>(env: Env<W>, s: State<W>, c: Completion, p: Phase)
    requires s.mistakes <= MAX_COMPLETION_MISTAKES
    requires p.Working? && !p.failed && p.calls == c.toolCalls && p.done == c.done && p.mistakes == s.mistakes
    ensures TurnParses(ToolStep(env, s, c), p)
  {
    BatchParses(env, s.world, p);
    var events := Batch(env, s.world, c.toolCalls).events;
    if c.done {
      ParseConcat(p, events, [LoopExitEvent(None)]);
      ParseOne(Parse(p, events), LoopExitEvent(None));
    }
  }

  lemma CompleteStepParses<W>(env: Env<W>, s: State<W>, w: W, c: Completion, p: Phase)
    requires Boundary(p, s.mistakes)
    ensures TurnParses(CompleteStep(env, s, w, c), p)
  {
    var s1 := State(w, s.messages + [NewAgentMessage(c)], s.mistakes, s.injected + [false]);
    var q := Working(c.toolCalls, c.done, true, false, s.mistakes);
    ParseOne(p, CompleteEvent(c));
    if env.overThreshold(c.inputTokens, c.completionTokens) {
      var r := DoCompact(env, w, s1.messages);
      match r.outcome {
        case Err(e) =>
          ParseTwo(p, CompleteEvent(c), LoopExitEvent(Some(Wrapped("thereshold compaction", e))));
        case Ok(messages) =>
          var _ := AnsweredCalls.CompactedBy(env, w, s1.messages);
          assert r.events == [r.events[0]];
          ParseOne(q, r.events[0]);
          var s2 := State(r.world, messages, s.mistakes, Unmarked(|messages|));
          ParseConcat(p, [CompleteEvent(c)], r.events);
          ParseConcat(p, [CompleteEvent(c)] + r.events, ToolStep(env, s2, c).events);
          ToolStepParses(env, s2, c, q.(recent := false));
      }
    } else {
      ParseConcat(p, [CompleteEvent(c)], ToolStep(env, s1, c).events);
      ToolStepParses(env, s1, c, q);
    }
  }

  lemma OverflowStepParses<W>(env: Env<W>, s: State<W>, w: W, p: Phase)
    requires Boundary(p, s.mistakes)
    ensures TurnParses(OverflowStep(env, s, w), p)
  {
    var r := DoCompact(env, w, s.messages);
    match r.outcome {
      case Err(e) => ParseOne(p, LoopExitEvent(Some(Wrapped("unhandled overflow", e))));
      case Ok(messages) =>
        var _ := AnsweredCalls.CompactedBy(env, w, s.messages);
        assert r.events == [r.events[0]];
        ParseOne(p, r.events[0]);
    }
  }

  lemma MistakeStepParses<W>(s: State<W>, w: W, c: Completion, e: Error, caution: string, p: Phase)
    requires Boundary(p, s.mistakes)
    ensures TurnParses(MistakeStep(s, w, c, e, caution), p)
  {
    ParseOne(p, CompletionMistakeEvent(e));
    ParseTwo(p, CompletionMistakeEvent(e), LoopExitEvent(Some(TooManyMistakes)));
  }

  lemma ExitParses<W>(s: State<W>, w: W, e: Error, p: Phase)
    requires Boundary(p, s.mistakes) && IsTurnExit(e)
    ensures TurnParses(Exit(s, w, Some(e)), p)
  {
    ParseOne(p, LoopExitEvent(Some(e)));
  }

  lemma TurnFollowsGrammar<W>(env: Env<W>, s: State<W>, p: Phase)
    requires Boundary(p, s.mistakes)
    ensures TurnParses(Turn(env, s), p)
  {
    var poll := env.poll(s.world);
    if poll.err.Some? {
      ExitParses(s, poll.world, poll.err.value, p);
    } else {
      match ProcessCompletion(env, poll.world, s.messages) {
        case Completed(w, c) => CompleteStepParses(env, s, w, c, p);
        case ModelFailed(w, e) =>
          if Is(e, ContextOverflow) {
            OverflowStepParses(env, s, w, p);
          } else {
            ExitParses(s, w, Wrapped("completion", e), p);
          }
        case Rejected(w, c, e) =>
          if Is(e, ContextOverflow) {
            OverflowStepParses(env, s, w, p);
          } else if MistakeOf(e).Some? {
            MistakeStepParses(s, w, c, e, MistakeOf(e).value, p);
          } else {
            ExitParses(s, w, Wrapped("completion", e), p);
          }
      }
    }
  }

  ghost predicate FollowsGrammar<W(!new)>(turn: State<W> -> Step<W>)
  {
    forall s: State<W>, p: Phase {:trigger TurnParses(turn(s), p)} :: Boundary(p, s.mistakes) ==> TurnParses(turn(s), p)
  }

  lemma {:induction false} RunParses<W(!new)>(turn: State<W> -> Step<W>, s: State<W>, turns: nat, p: Phase)
    requires FollowsGrammar(turn) && Boundary(p, s.mistakes)
    ensures Parse(p, Run(turn, s, turns).events) == Closed
    decreases turns
  {
    if turns == 0 {
      ParseOne(p, LoopExitEvent(Some(MaxTurnsExceeded)));
    } else {
      var t := turn(s);
      assert TurnParses(t, p);
      if !t.exited {
        RunParses(turn, t.state, turns - 1, Parse(p, t.events));
        ParseConcat(p, t.events, Run(turn, t.state, turns - 1).events);
      }
    }
  }

  /** Every run's trace is a complete sentence of the grammar, whatever the environment does. */
  lemma LoopFollowsGrammar<W(!new)>(env: Env<W>, w: W, initial: seq<Message>)
    ensures Parse(Idle(0), Loop(env, w, initial).events) == Closed
  {
    forall s: State<W>, p: Phase | Boundary(p, s.mistakes) ensures TurnParses(TurnOf(env)(s), p) {
      TurnFollowsGrammar(env, s, p);
    }
    RunParses(TurnOf(env), Start(w, initial), Turns(env.settings), Idle(0));
  }

  // ----- what the grammar implies ----------------------------------------------------

  function Mistakes(events: seq<Event>): nat
  {
    if events == [] then 0 else Mistakes(Front(events)) + (if Last(events).CompletionMistakeEvent? then 1 else 0)
  }

  /** The calls of all completions, in order. */
  function Requested(events: seq<Event>): seq<ToolCall>
  {
    if events == [] then [] else
    Requested(Front(events)) + (if Last(events).CompleteEvent? then Last(events).completion.toolCalls else [])
  }

  /** The calls of all tool results, in order. */
  function Resolved(events: seq<Event>): seq<ToolCall>
  {
    if events == [] then [] else
    Resolved(Front(events)) + (if Last(events).ToolResultEvent? then [Last(events).call] else [])
  }

  predicate SingleExit(events: seq<Event>)
  {
    && events != [] && Last(events).LoopExitEvent?
    && forall i :: 0 <= i < |events| - 1 ==> !events[i].LoopExitEvent?
  }

  function Exits(events: seq<Event>): nat
  {
    if events == [] then 0 else Exits(Front(events)) + (if Last(events).LoopExitEvent? then 1 else 0)
  }

  datatype Tally = Tally(exits: nat, mistakes: nat, requested: seq<ToolCall>, resolved: seq<ToolCall>,
                         last: Option<Event>)

  function TallyOf(events: seq<Event>): Tally
  {
    Tally(Exits(events), Mistakes(events), Requested(events), Resolved(events),
          if events == [] then None else Some(Last(events)))
  }

  function Counted(t: Tally, ev: Event): Tally
  {
    Tally(t.exits + (if ev.LoopExitEvent? then 1 else 0),
          t.mistakes + (if ev.CompletionMistakeEvent? then 1 else 0),
          if ev.CompleteEvent? then t.requested + ev.completion.toolCalls else t.requested,
          if ev.ToolResultEvent? then t.resolved + [ev.call] else t.resolved,
          Some(ev))
  }

  /** What holds of the events that lead to a phase. Before the exit, the calls still pending are those
      without a result. */
  ghost predicate Explains(p: Phase, t: Tally)
  {
    match p
    case Idle(m) => t.exits == 0 && t.mistakes == m <= MAX_COMPLETION_MISTAKES && t.requested == t.resolved
    case Struck => t.exits == 0 && t.mistakes == MAX_COMPLETION_MISTAKES + 1 && t.requested == t.resolved
    case Working(calls, _, _, _, m) =>
      t.exits == 0 && t.mistakes == m <= MAX_COMPLETION_MISTAKES && t.requested == t.resolved + calls
    case Closed => ExplainsExit(t)
    case Bad => true
  }

  ghost predicate ExplainsExit(t: Tally)
  {
    && t.last.Some? && t.last.value.LoopExitEvent? && t.exits == 1
    && t.mistakes <= MAX_COMPLETION_MISTAKES + 1
    && (t.last.value.exit == Some(TooManyMistakes) <==> t.mistakes == MAX_COMPLETION_MISTAKES + 1)
    && (t.requested == t.resolved
        || (t.last.value.exit.Some? && IsThresholdExit(t.last.value.exit.value) && t.resolved <= t.requested))
  }

  lemma IdleNext(m: nat, t: Tally, ev: Event)
    requires Explains(Idle(m), t)
    ensures Explains(NextFromIdle(m, ev), Counted(t, ev))
  {
  }

  lemma ExplainsNext(p: Phase, t: Tally, ev: Event)
    requires Explains(p, t)
    ensures Explains(Next(p, ev), Counted(t, ev))
  {
    match p {
      case Idle(m) => IdleNext(m, t, ev);
      case Working(calls, _, _, _, m) =>
        CallsNext(t.resolved, calls);
        if calls == [] {
          IdleNext(m, t, ev);
        }
      case _ =>
    }
  }

  lemma CallsNext(resolved: seq<ToolCall>, calls: seq<ToolCall>)
    ensures calls == [] ==> resolved + calls == resolved
    ensures calls != [] ==> resolved + calls == (resolved + [calls[0]]) + calls[1..]
    ensures resolved <= resolved + calls
  {
  }

  lemma {:induction false} ParseExplains(events: seq<Event>)
    ensures Explains(Parse(Idle(0), events), TallyOf(events))
  {
    if events != [] {
      ParseExplains(Front(events));
      ExplainsNext(Parse(Idle(0), Front(events)), TallyOf(Front(events)), Last(events));
      assert TallyOf(events) == Counted(TallyOf(Front(events)), Last(events));
    }
  }

  lemma {:induction false} NoExits(events: seq<Event>)
    requires Exits(events) == 0
    ensures forall i :: 0 <= i < |events| ==> !events[i].LoopExitEvent?
  {
    if events != [] {
      NoExits(Front(events));
      assert events == Front(events) + [Last(events)];
    }
  }

  /** For every environment: a run has exactly one loop exit and it is its last event; it makes at most
      four mistakes and ends with ErrTooManyMistakes exactly when it makes the fourth; and every call is
      resolved once, in order, unless a failed threshold compaction stopped the run. */
  lemma TraceOfLoop<W(!new)>(env: Env<W>, w: W, initial: seq<Message>)
    ensures var events := Loop(env, w, initial).events;
            && SingleExit(events)
            && Mistakes(events) <= 4
            && (Last(events).exit == Some(TooManyMistakes) <==> Mistakes(events) == 4)
            && (Requested(events) == Resolved(events)
                || (Last(events).exit.Some? && IsThresholdExit(Last(events).exit.value)
                    && Resolved(events) <= Requested(events)))
  {
    LoopFollowsGrammar(env, w, initial);
    OfClosed(Loop(env, w, initial).events);
  }

  lemma OfClosed(events: seq<Event>)
    requires Parse(Idle(0), events) == Closed
    ensures SingleExit(events) && ExplainsExit(TallyOf(events))
  {
    ParseExplains(events);
    NoExits(Front(events));
    assert events == Front(events) + [Last(events)];
  }
}
