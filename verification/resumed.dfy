/** The system message in saved sessions: a compacted context takes it along, and the next chat puts its
    own in front of it (internal/chat/service.go:140-155, internal/runtime/compaction.go:16-68). */
module ResumedSessions {
  import opened Basics
  import opened Messages
  import opened Sessions
  import opened Compaction
  import opened Runtime
  import opened Runs
  import opened AnsweredCalls
  import opened Chat
  import opened Mirror
  import opened SavedSessions

  function SystemsOf(ms: seq<Message>): seq<Message>
  {
    if ms == [] then [] else SystemsOf(Front(ms)) + (if Last(ms).SystemMessage? then [Last(ms)] else [])
  }

  predicate StartsWith(ms: seq<Message>, system: Message)
  {
    ms != [] && ms[0] == system
  }

  lemma SystemsSnoc(ms: seq<Message>, m: Message)
    ensures SystemsOf(ms + [m]) == SystemsOf(ms) + (if m.SystemMessage? then [m] else [])
  {
    assert Front(ms + [m]) == ms;
  }

  lemma {:induction false} StartIsSystem(ms: seq<Message>, system: Message)
    requires StartsWith(ms, system) && system.SystemMessage?
    ensures SystemsOf(ms) != []
  {
    if |ms| > 1 {
      StartIsSystem(Front(ms), system);
    }
  }

  lemma PushKeepsSystems(ms: seq<Message>, m: Message)
    requires m.UserMessage?
    ensures SystemsOf(Push(ms, m)) == SystemsOf(ms)
  {
    if ms != [] && MergeMatchedPair(Last(ms), m).Ok? {
      var front, x := Front(ms), Last(ms);
      SnocOfFront(ms);
      SystemsSnoc(front, x);
      SystemsSnoc(front, MergeMatchedPair(x, m).value);
    } else {
      SystemsSnoc(ms, m);
    }
  }

  lemma SnocOfFront(ms: seq<Message>)
    requires ms != []
    ensures ms == Front(ms) + [Last(ms)]
  {
  }

  lemma PushKeepsStart(ms: seq<Message>, m: Message, system: Message)
    requires m.UserMessage? && system.SystemMessage? && StartsWith(ms, system)
    ensures StartsWith(Push(ms, m), system)
  {
  }

  lemma ReceivedIsPush(stored: SessionState, m: Message)
    ensures Received(stored, m).messages == Push(stored.messages, m)
  {
    assert Front([m]) == [];
    assert PushAll(stored.messages, []) == stored.messages;
  }

  // ----- which turns compact --------------------------------------------------------

  /** The context overflows, or the completion is accepted and exceeds the threshold; and the compaction
      succeeds. */
  predicate Compacts<W>(env: Env<W>, s: State<W>)
  {
    var p := env.poll(s.world);
    p.err == None &&
    match ProcessCompletion(env, p.world, s.messages)
    case Completed(w, c) =>
      && env.overThreshold(c.inputTokens, c.completionTokens)
      && DoCompact(env, w, s.messages + [NewAgentMessage(c)]).outcome.Ok?
    case ModelFailed(w, e) => Is(e, ContextOverflow) && DoCompact(env, w, s.messages).outcome.Ok?
    case Rejected(w, _, e) => Is(e, ContextOverflow) && DoCompact(env, w, s.messages).outcome.Ok?
  }

  /** Every compaction announces a context that starts with the system message. */
  predicate AllStartWith(events: seq<Event>, system: Message)
  {
    forall ev <- events :: ev.CompactionEvent? ==> StartsWith(ev.compactedContext, system)
  }

  /** What a turn on a context that starts with the system message does. */
  ghost predicate KeepsSystem<W>(t: Step<W>, compacts: bool, system: Message)
  {
    && StartsWith(t.state.messages, system) && AllStartWith(t.events, system)
    && (Compacted(t.events) <==> compacts)
  }

  lemma CompactionStarts<W>(env: Env<W>, w: W, msgs: seq<Message>, system: Message)
    requires StartsWith(msgs, system) && system.SystemMessage?
    ensures var r := DoCompact(env, w, msgs);
            && (r.outcome.Ok? <==> Compacted(r.events)) && AllStartWith(r.events, system)
            && (r.outcome.Ok? ==> StartsWith(r.outcome.value, system))
  {
    var r := DoCompact(env, w, msgs);
    if r.outcome.Ok? {
      var summary := CompactedBy(env, w, msgs);
      CompactionKeeps(msgs, env.divide, summary);
      assert Pre(msgs)[0] == system;
      assert r.events[0] in r.events;
    }
  }

  lemma EventsConcat(a: seq<Event>, b: seq<Event>, system: Message)
    ensures Compacted(a + b) <==> Compacted(a) || Compacted(b)
    ensures AllStartWith(a, system) && AllStartWith(b, system) ==> AllStartWith(a + b, system)
  {
    forall ev ensures ev in a + b <==> ev in a || ev in b {
    }
  }

  lemma ToolStepKeepsSystem<W>(env: Env<W>, s: State<W>, c: Completion, system: Message)
    requires StartsWith(s.messages, system)
    ensures KeepsSystem(ToolStep(env, s, c), false, system)
  {
    var batch := Batch(env, s.world, c.toolCalls);
    FoldBatch(env, s.world, c.toolCalls, SessionState([], 0, 0));
    EventsConcat(batch.events, [LoopExitEvent(None)], system);
  }

  lemma CompleteStepKeepsSystem<W>(env: Env<W>, s: State<W>, w: W, c: Completion, system: Message)
    requires StartsWith(s.messages, system) && system.SystemMessage?
    ensures var compacts := env.overThreshold(c.inputTokens, c.completionTokens)
                            && DoCompact(env, w, s.messages + [NewAgentMessage(c)]).outcome.Ok?;
            KeepsSystem(CompleteStep(env, s, w, c), compacts, system)
  {
    var s1 := State(w, s.messages + [NewAgentMessage(c)], s.mistakes, s.injected + [false]);
    if env.overThreshold(c.inputTokens, c.completionTokens) {
      var r := DoCompact(env, w, s1.messages);
      CompactionStarts(env, w, s1.messages, system);
      if r.outcome.Ok? {
        var s2 := State(r.world, r.outcome.value, s.mistakes, Unmarked(|r.outcome.value|));
        ToolStepKeepsSystem(env, s2, c, system);
        EventsConcat([CompleteEvent(c)], r.events, system);
        EventsConcat([CompleteEvent(c)] + r.events, ToolStep(env, s2, c).events, system);
      }
    } else {
      ToolStepKeepsSystem(env, s1, c, system);
      EventsConcat([CompleteEvent(c)], ToolStep(env, s1, c).events, system);
    }
  }

  lemma TurnKeepsSystem<W>(env: Env<W>, s: State<W>, system: Message)
    requires StartsWith(s.messages, system) && system.SystemMessage?
    ensures KeepsSystem(Turn(env, s), Compacts(env, s), system)
  {
    var p := env.poll(s.world);
    if p.err == None {
      match ProcessCompletion(env, p.world, s.messages) {
        case Completed(w, c) => CompleteStepKeepsSystem(env, s, w, c, system);
        case ModelFailed(w, _) => CompactionStarts(env, w, s.messages, system);
        case Rejected(w, _, _) => CompactionStarts(env, w, s.messages, system);
      }
    }
  }

  // ----- runs -----------------------------------------------------------------------

  ghost predicate AlwaysKeepsSystem<W(!new)>(turn: State<W> -> Step<W>, compacts: State<W> -> bool, system: Message)
  {
    forall s: State<W> {:trigger KeepsSystem(turn(s), compacts(s), system)} ::
      StartsWith(s.messages, system) ==> KeepsSystem(turn(s), compacts(s), system)
  }

  lemma {:induction false} SentKeepsSystem<W(!new)>(turn: State<W> -> Step<W>, compacts: State<W> -> bool,
                                                    s: State<W>, k: nat, system: Message)
    requires AlwaysKeepsSystem(turn, compacts, system) && StartsWith(s.messages, system)
    ensures After(turn, s, k).Some? ==> StartsWith(After(turn, s, k).value.messages, system)
    ensures AllStartWith(Sent(turn, s, k), system)
    ensures Compacted(Sent(turn, s, k)) <==> SomeTurn(turn, compacts, s, k)
  {
    if k > 0 {
      SentKeepsSystem(turn, compacts, s, k - 1, system);
      var p := After(turn, s, k - 1);
      if p.Some? {
        assert KeepsSystem(turn(p.value), compacts(p.value), system);
        EventsConcat(Sent(turn, s, k - 1), turn(p.value).events, system);
      }
      assert SomeTurn(turn, compacts, s, k) <==>
             SomeTurn(turn, compacts, s, k - 1) || HoldsAfter(turn, compacts, s, k - 1);
    }
  }

  lemma RunKeepsSystem<W(!new)>(turn: State<W> -> Step<W>, compacts: State<W> -> bool, s: State<W>, turns: nat,
                                system: Message)
    requires AlwaysKeepsSystem(turn, compacts, system) && StartsWith(s.messages, system)
    ensures AllStartWith(Run(turn, s, turns).events, system)
    ensures Compacted(Run(turn, s, turns).events) <==> SomeTurn(turn, compacts, s, turns)
  {
    var k, last := RunEnds(turn, s, turns);
    if k == turns {
      SentKeepsSystem(turn, compacts, s, k, system);
      EventsConcat(Sent(turn, s, k), [LoopExitEvent(Some(MaxTurnsExceeded))], system);
    } else {
      SentKeepsSystem(turn, compacts, s, k + 1, system);
      assert Sent(turn, s, k + 1) == Run(turn, s, turns).events;
      forall j: nat | k < j && After(turn, s, j).Some? ensures false {
        StillRunning(turn, s, k + 1, j);
      }
      assert SomeTurn(turn, compacts, s, turns) <==> SomeTurn(turn, compacts, s, k + 1) by {
        assert forall j: nat :: HoldsAfter(turn, compacts, s, j) ==> j <= k;
      }
    }
  }

  // ----- sessions -------------------------------------------------------------------

  lemma {:induction false} FoldKeepsSystem(sess: SessionState, events: seq<Event>, system: Message)
    requires AllStartWith(events, system)
    ensures if Compacted(events) then StartsWith(Fold(sess, events).messages, system)
            else SystemsOf(Fold(sess, events).messages) == SystemsOf(sess.messages)
  {
    if events != [] {
      var front, ev := Front(events), Last(events);
      assert events == front + [ev];
      FoldKeepsSystem(sess, front, system);
      var before := Fold(sess, front);
      match ev {
        case CompleteEvent(c) =>
          SystemsSnoc(before.messages, NewAgentMessage(c));
        case ToolResultEvent(_, result) =>
          PushResult(before.messages, NewToolResultMessage(result));
          SystemsSnoc(before.messages, NewToolResultMessage(result));
        case _ =>
      }
    }
  }

  /** Some turn of the chat compacts. */
  ghost predicate ChatCompacts<W>(r: Request<W>, w: W, stored: SessionState)
  {
    var compacts: State<W> -> bool := s => Compacts(r.env, s);
    SomeTurn(TurnOf(r.env), compacts, Start(w, AgentContext(r.system, Received(stored, r.userMessage))),
             Turns(r.env.settings))
  }

  /** A chat in which a turn compacts saves a session that starts with the chat's system message; every
      other chat saves just the system messages that were stored before. */
  lemma ChatSavesSystem<W(!new)>(r: Request<W>, w: W, stored: SessionState)
    requires r.userMessage.UserMessage? && r.system.SystemMessage?
    ensures var saved := SavedSession(r.env, w, stored, r.userMessage, r.system).messages;
            if ChatCompacts(r, w, stored) then StartsWith(saved, r.system)
            else SystemsOf(saved) == SystemsOf(stored.messages)
  {
    var sess := Received(stored, r.userMessage);
    var start := Start(w, AgentContext(r.system, sess));
    var compacts: State<W> -> bool := s => Compacts(r.env, s);
    forall s: State<W> | StartsWith(s.messages, r.system) ensures KeepsSystem(TurnOf(r.env)(s), compacts(s), r.system) {
      TurnKeepsSystem(r.env, s, r.system);
    }
    RunKeepsSystem(TurnOf(r.env), compacts, start, Turns(r.env.settings), r.system);
    FoldKeepsSystem(sess, ChatRun(r.env, w, stored, r.userMessage, r.system).events, r.system);
    ReceivedIsPush(stored, r.userMessage);
    PushKeepsSystems(stored.messages, r.userMessage);
  }

  /** A session that held no system message holds one after a chat if and only if a turn compacted. */
  lemma SavedSystemMeansCompacted<W(!new)>(r: Request<W>, w: W, stored: SessionState)
    requires r.userMessage.UserMessage? && r.system.SystemMessage? && SystemsOf(stored.messages) == []
    ensures SystemsOf(SavedSession(r.env, w, stored, r.userMessage, r.system).messages) != []
            <==> ChatCompacts(r, w, stored)
  {
    ChatSavesSystem(r, w, stored);
    var saved := SavedSession(r.env, w, stored, r.userMessage, r.system).messages;
    if ChatCompacts(r, w, stored) {
      StartIsSystem(saved, r.system);
    }
  }

  /** Some chat of a history has a turn that compacts. */
  ghost predicate SomeCompacts<W>(w: W, stored: SessionState, rs: seq<Request<W>>)
  {
    rs != [] &&
    var h := Chats(w, stored, Front(rs));
    SomeCompacts(w, stored, Front(rs)) || ChatCompacts(Last(rs), h.world, h.session)
  }

  /** Some session saved on the way holds a system message. */
  ghost predicate SomeHolds<W>(w: W, stored: SessionState, rs: seq<Request<W>>)
  {
    || (rs != [] && SomeHolds(w, stored, Front(rs)))
    || SystemsOf(Chats(w, stored, rs).session.messages) != []
  }

  /** Over any history of chats, from a session without system message, some saved session holds one if
      and only if some chat had a turn that compacted. */
  lemma {:induction false} HistoryHoldsSystem<W(!new)>(w: W, stored: SessionState, rs: seq<Request<W>>)
    requires SystemsOf(stored.messages) == []
    requires forall r <- rs :: r.userMessage.UserMessage? && r.system.SystemMessage?
    ensures SomeHolds(w, stored, rs) <==> SomeCompacts(w, stored, rs)
    ensures !SomeHolds(w, stored, rs) ==> SystemsOf(Chats(w, stored, rs).session.messages) == []
  {
    if rs != [] {
      assert Last(rs) in rs;
      HistoryHoldsSystem(w, stored, Front(rs));
      var h := Chats(w, stored, Front(rs));
      if !SomeHolds(w, stored, Front(rs)) {
        NextChatHolds(Last(rs), h, Chats(w, stored, rs));
      }
    }
  }

  lemma NextChatHolds<W(!new)>(r: Request<W>, h: History<W>, next: History<W>)
    requires r.userMessage.UserMessage? && r.system.SystemMessage? && SystemsOf(h.session.messages) == []
    requires next.session == SavedSession(r.env, h.world, h.session, r.userMessage, r.system)
    ensures SystemsOf(next.session.messages) != [] <==> ChatCompacts(r, h.world, h.session)
  {
    SavedSystemMeansCompacted(r, h.world, h.session);
  }

  /** After such a chat the next one starts with two system messages, its own and the saved one. */
  lemma NextChatSeesTwo<W(!new)>(r: Request<W>, w: W, stored: SessionState, userMessage: Message, system: Message)
    requires r.userMessage.UserMessage? && r.system.SystemMessage? && ChatCompacts(r, w, stored)
    requires userMessage.UserMessage?
    ensures var saved := SavedSession(r.env, w, stored, r.userMessage, r.system);
            var context := AgentContext(system, Received(saved, userMessage));
            |context| >= 2 && context[0] == system && context[1] == r.system
  {
    ChatSavesSystem(r, w, stored);
    var saved := SavedSession(r.env, w, stored, r.userMessage, r.system);
    ReceivedIsPush(saved, userMessage);
    PushKeepsStart(saved.messages, userMessage, r.system);
  }

  /** A model that answers at once, with too many tokens, and can summarise. */
  const TALKATIVE: Env<int> := Env(
    w => Poll(w, None), (w, call: ModelCall) => ModelReply(w, Ok(Completion([], "a", true, 1, 1))), [], [], [], {},
    (w, name, args) => ToolReply(w, Returned([])), n => 7 * n / 10, (i, o) => true, "", s => s, map[])

  lemma TalkativeCompacts(s: State<int>)
    requires s.messages != []
    ensures Compacts(TALKATIVE, s)
  {
    var c := Completion([], "a", true, 1, 1);
    assert ProcessCompletion(TALKATIVE, s.world, s.messages) == Completed(s.world, c);
    assert TALKATIVE.overThreshold(c.inputTokens, c.completionTokens);
  }

  /** Two short chats on an empty session: the second sends the same system message twice. */
  lemma SystemCanBeDoubled()
    ensures var system, q := SystemMessage(Text("s")), UserMessage(Text("q"));
            var saved := SavedSession(TALKATIVE, 0, SessionState([], 0, 0), q, system);
            var context := AgentContext(system, Received(saved, q));
            |context| >= 2 && context[0] == context[1] == system
  {
    var r := Request(TALKATIVE, UserMessage(Text("q")), SystemMessage(Text("s")));
    var stored := SessionState([], 0, 0);
    var start := Start(0, AgentContext(r.system, Received(stored, r.userMessage)));
    var compacts: State<int> -> bool := s => Compacts(r.env, s);
    TalkativeCompacts(start);
    assert ResolveMaxTurns(TALKATIVE.settings) == DEFAULT_TURNS_LIMIT;
    assert HoldsAfter(TurnOf(r.env), compacts, start, 0);
    NextChatSeesTwo(r, 0, stored, r.userMessage, r.system);
  }
}
