/** When the saved session is a conversation the next chat can start from. */
module SavedSessions {
  import opened Basics
  import opened Messages
  import opened Sessions
  import opened Compaction
  import opened Conversation
  import opened Runtime
  import opened Runs
  import opened AnsweredCalls
  import opened Chat
  import opened Mirror

  /** The turn fails between an agent message with calls and their results: the completion is accepted,
      asks for tools, exceeds the threshold, and the context cannot be compacted. */
  predicate FailsBeforeTools<W>(env: Env<W>, s: State<W>)
  {
    var p := env.poll(s.world);
    p.err == None &&
    match ProcessCompletion(env, p.world, s.messages)
    case Completed(w, c) =>
      && c.toolCalls != [] && env.overThreshold(c.inputTokens, c.completionTokens)
      && DoCompact(env, w, s.messages + [NewAgentMessage(c)]).outcome.Err?
    case _ => false
  }

  /** Some turn of the run fails so. */
  ghost predicate StopsBeforeTools<W>(env: Env<W>, w: W, initial: seq<Message>)
  {
    var fails: State<W> -> bool := s => FailsBeforeTools(env, s);
    SomeTurn(TurnOf(env), fails, Start(w, initial), Turns(env.settings))
  }

  /** What one turn does to an answered session: it stays answered, unless the turn fails before its
      tools; and then it is not. */
  ghost predicate TurnOutcome<W>(t: Step<W>, fails: bool, sess: SessionState)
  {
    && (fails ==> t.exited)
    && (Answered(Fold(sess, t.events).messages) <==> !fails)
  }

  lemma ExitOutcome<W>(s: State<W>, w: W, err: Option<Error>, sess: SessionState)
    requires Answered(sess.messages)
    ensures TurnOutcome(Exit(s, w, err), false, sess)
  {
    FoldOne(sess, LoopExitEvent(err));
  }

  lemma OverflowOutcome<W>(env: Env<W>, s: State<W>, w: W, sess: SessionState)
    requires Answered(s.messages) && Answered(sess.messages)
    ensures TurnOutcome(OverflowStep(env, s, w), false, sess)
  {
    var r := DoCompact(env, w, s.messages);
    match r.outcome {
      case Err(e) => ExitOutcome(s, r.world, Some(Wrapped("unhandled overflow", e)), sess);
      case Ok(_) =>
        CompactionMirrors(env, w, s.messages, sess);
        OverflowStepAnswered(env, s, w);
    }
  }

  lemma MistakeOutcome<W>(s: State<W>, w: W, c: Completion, e: Error, caution: string, sess: SessionState)
    requires Answered(sess.messages)
    ensures TurnOutcome(MistakeStep(s, w, c, e, caution), false, sess)
  {
    FoldOne(sess, CompletionMistakeEvent(e));
    FoldSnoc(sess, [CompletionMistakeEvent(e)], LoopExitEvent(Some(TooManyMistakes)));
    assert [CompletionMistakeEvent(e)] + [LoopExitEvent(Some(TooManyMistakes))]
        == [CompletionMistakeEvent(e), LoopExitEvent(Some(TooManyMistakes))];
  }

  /** The tools ran: the session ends with the answered agent message. */
  lemma ToolOutcomeAnswered<W(!new)>(env: Env<W>, s: State<W>, c: Completion, sess: SessionState)
    requires HooksKeepIDs(env)
    requires sess.messages != [] && Answered(Front(sess.messages)) && Last(sess.messages) == NewAgentMessage(c)
    ensures Answered(Fold(sess, ToolStep(env, s, c).events).messages)
  {
    var batch := Batch(env, s.world, c.toolCalls);
    FoldBatch(env, s.world, c.toolCalls, sess);
    FoldSnoc(sess, batch.events, LoopExitEvent(None));
    BatchAnswers(env, s.world, c.toolCalls);
    AnsweredExtend(Front(sess.messages), NewAgentMessage(c), batch.messages);
    assert Front(sess.messages) + [NewAgentMessage(c)] == sess.messages;
  }

  lemma CompleteOutcome<W(!new)>(env: Env<W>, s: State<W>, w: W, c: Completion, sess: SessionState)
    requires HooksKeepIDs(env) && Answered(s.messages) && Answered(sess.messages)
    ensures var fails := c.toolCalls != [] && env.overThreshold(c.inputTokens, c.completionTokens)
                         && DoCompact(env, w, s.messages + [NewAgentMessage(c)]).outcome.Err?;
            TurnOutcome(CompleteStep(env, s, w, c), fails, sess)
  {
    var s1 := State(w, s.messages + [NewAgentMessage(c)], s.mistakes, s.injected + [false]);
    var ev, sess1 := CompleteEvent(c), sess.ApplyCompletion(c);
    FoldOne(sess, ev);
    assert Front(sess1.messages) == sess.messages && Front(s1.messages) == s.messages;
    if env.overThreshold(c.inputTokens, c.completionTokens) {
      var r := DoCompact(env, w, s1.messages);
      match r.outcome {
        case Err(e) => FailedCompactionOutcome(c, e, sess);
        case Ok(compacted) =>
          var summary := CompactedBy(env, w, s1.messages);
          CompactionKeepsPending(s1.messages, env.divide, summary);
          CompactionMirrors(env, w, s1.messages, sess1);
          var s2 := State(r.world, compacted, s.mistakes, Unmarked(|compacted|));
          ToolOutcomeAnswered(env, s2, c, Fold(sess1, r.events));
          FoldConcat(sess, [ev], r.events);
          FoldConcat(sess, [ev] + r.events, ToolStep(env, s2, c).events);
      }
    } else {
      ToolOutcomeAnswered(env, s1, c, sess1);
      FoldConcat(sess, [ev], ToolStep(env, s1, c).events);
    }
  }

  lemma FailedCompactionOutcome(c: Completion, e: Error, sess: SessionState)
    requires Answered(sess.messages)
    ensures var events := [CompleteEvent(c), LoopExitEvent(Some(Wrapped("thereshold compaction", e)))];
            Answered(Fold(sess, events).messages) <==> c.toolCalls == []
  {
    var exit := LoopExitEvent(Some(Wrapped("thereshold compaction", e)));
    FoldOne(sess, CompleteEvent(c));
    FoldSnoc(sess, [CompleteEvent(c)], exit);
    assert [CompleteEvent(c)] + [exit] == [CompleteEvent(c), exit];
    AnsweredPending(sess.messages, NewAgentMessage(c));
  }

  lemma TurnOutcomes<W(!new)>(env: Env<W>, s: State<W>, sess: SessionState)
    requires HooksKeepIDs(env) && Answered(s.messages) && Answered(sess.messages)
    ensures TurnOutcome(Turn(env, s), FailsBeforeTools(env, s), sess)
  {
    var p := env.poll(s.world);
    if p.err.Some? {
      ExitOutcome(s, p.world, p.err, sess);
    } else {
      match ProcessCompletion(env, p.world, s.messages) {
        case Completed(w, c) => CompleteOutcome(env, s, w, c, sess);
        case ModelFailed(w, e) =>
          OverflowOutcome(env, s, w, sess);
          ExitOutcome(s, w, Some(Wrapped("completion", e)), sess);
        case Rejected(w, c, e) =>
          OverflowOutcome(env, s, w, sess);
          ExitOutcome(s, w, Some(Wrapped("completion", e)), sess);
          if MistakeOf(e).Some? {
            MistakeOutcome(s, w, c, e, MistakeOf(e).value, sess);
          }
      }
    }
  }

  ghost predicate KeepsAnswered<W(!new)>(turn: State<W> -> Step<W>, fails: State<W> -> bool)
  {
    forall s: State<W>, sess: SessionState {:trigger TurnOutcome(turn(s), fails(s), sess)} ::
      Answered(s.messages) && Answered(sess.messages) ==>
        TurnOutcome(turn(s), fails(s), sess) && (!turn(s).exited ==> Answered(turn(s).state.messages))
  }

  lemma {:induction false} BoundaryAnswered<W(!new)>(turn: State<W> -> Step<W>, fails: State<W> -> bool,
                                                     s: State<W>, sess: SessionState, k: nat)
    requires KeepsAnswered(turn, fails) && Answered(s.messages) && Answered(sess.messages)
    ensures After(turn, s, k).Some? ==>
              Answered(After(turn, s, k).value.messages) && Answered(Fold(sess, Sent(turn, s, k)).messages)
  {
    if k > 0 {
      BoundaryAnswered(turn, fails, s, sess, k - 1);
      var p, sent := After(turn, s, k - 1), Sent(turn, s, k - 1);
      if p.Some? {
        assert TurnOutcome(turn(p.value), fails(p.value), Fold(sess, sent));
        FoldConcat(sess, sent, turn(p.value).events);
      }
    }
  }

  lemma RunSavesAnswered<W(!new)>(turn: State<W> -> Step<W>, fails: State<W> -> bool,
                                  s: State<W>, sess: SessionState, turns: nat)
    requires KeepsAnswered(turn, fails) && Answered(s.messages) && Answered(sess.messages)
    ensures Answered(Fold(sess, Run(turn, s, turns).events).messages) <==> !SomeTurn(turn, fails, s, turns)
  {
    var k, last := RunEnds(turn, s, turns);
    var sent := Sent(turn, s, k);
    forall j: nat | j < turns && j != k && After(turn, s, j).Some? ensures !HoldsAfter(turn, fails, s, j) {
      NotTheLast(turn, s, turns, j, k);
      BoundaryAnswered(turn, fails, s, sess, j);
      assert TurnOutcome(turn(After(turn, s, j).value), fails(After(turn, s, j).value), Fold(sess, Sent(turn, s, j)));
    }
    BoundaryAnswered(turn, fails, s, sess, k);
    assert k < turns && fails(last) ==> HoldsAfter(turn, fails, s, k);
    if k == turns {
      FoldSnoc(sess, sent, LoopExitEvent(Some(MaxTurnsExceeded)));
    } else {
      assert TurnOutcome(turn(last), fails(last), Fold(sess, sent));
      FoldConcat(sess, sent, turn(last).events);
    }
  }

  /** On every exit of every run that starts answered, the saved session is answered if and only if no
      turn of the run failed before its tools. */
  lemma LoopSavesAnswered<W(!new)>(env: Env<W>, w: W, initial: seq<Message>, sess: SessionState)
    requires HooksKeepIDs(env) && Answered(initial) && Answered(sess.messages)
    ensures Answered(Fold(sess, Loop(env, w, initial).events).messages) <==> !StopsBeforeTools(env, w, initial)
  {
    var fails: State<W> -> bool := s => FailsBeforeTools(env, s);
    forall s: State<W>, sess: SessionState | Answered(s.messages) && Answered(sess.messages)
      ensures TurnOutcome(TurnOf(env)(s), fails(s), sess)
      ensures !TurnOf(env)(s).exited ==> Answered(TurnOf(env)(s).state.messages)
    {
      TurnOutcomes(env, s, sess);
      TurnAnswered(env, s);
    }
    RunSavesAnswered(TurnOf(env), fails, Start(w, initial), sess, Turns(env.settings));
  }

  // ----- the same, seen from outside ----------------------------------------------

  predicate IsThreshold(ev: Event)
  {
    ev.LoopExitEvent? && ev.exit.Some? && ev.exit.value.Wrapped? && ev.exit.value.text == "thereshold compaction"
  }

  /** The events end with a completion that asks for tools and the exit of a failed compaction. */
  predicate ShowsStop(events: seq<Event>)
  {
    && |events| >= 2 && IsThreshold(Last(events))
    && events[|events| - 2].CompleteEvent? && events[|events| - 2].completion.toolCalls != []
  }

  /** A turn shows in its own events whether it failed before its tools. */
  ghost predicate ShowsFailure<W>(t: Step<W>, fails: bool)
  {
    && (fails ==> t.exited)
    && (t.exited ==> t.events != [] && (IsThreshold(Last(t.events)) ==> |t.events| >= 2))
    && (t.exited ==> (ShowsStop(t.events) <==> fails))
  }

  lemma TurnShowsFailure<W>(env: Env<W>, s: State<W>)
    ensures ShowsFailure(Turn(env, s), FailsBeforeTools(env, s))
  {
  }

  lemma ShowsStopSuffix(a: seq<Event>, b: seq<Event>)
    requires b != [] && (IsThreshold(Last(b)) ==> |b| >= 2)
    ensures ShowsStop(a + b) <==> ShowsStop(b)
  {
    assert Last(a + b) == Last(b);
    assert |b| >= 2 ==> (a + b)[|a + b| - 2] == b[|b| - 2];
  }

  lemma RunShowsStop<W(!new)>(turn: State<W> -> Step<W>, fails: State<W> -> bool, s: State<W>, turns: nat)
    requires forall s :: ShowsFailure(turn(s), fails(s))
    ensures ShowsStop(Run(turn, s, turns).events) <==> SomeTurn(turn, fails, s, turns)
  {
    var k, last := RunEnds(turn, s, turns);
    forall j: nat | j < turns && j != k && After(turn, s, j).Some? ensures !HoldsAfter(turn, fails, s, j) {
      NotTheLast(turn, s, turns, j, k);
      assert ShowsFailure(turn(After(turn, s, j).value), fails(After(turn, s, j).value));
    }
    if k == turns {
      ShowsStopSuffix(Sent(turn, s, k), [LoopExitEvent(Some(MaxTurnsExceeded))]);
    } else {
      assert ShowsFailure(turn(last), fails(last));
      assert fails(last) ==> HoldsAfter(turn, fails, s, k);
      ShowsStopSuffix(Sent(turn, s, k), turn(last).events);
    }
  }

  /** The sink can tell: the last two events show whether a turn failed before its tools. */
  lemma LoopShowsStop<W(!new)>(env: Env<W>, w: W, initial: seq<Message>)
    ensures ShowsStop(Loop(env, w, initial).events) <==> StopsBeforeTools(env, w, initial)
  {
    var fails: State<W> -> bool := s => FailsBeforeTools(env, s);
    forall s ensures ShowsFailure(TurnOf(env)(s), fails(s)) {
      TurnShowsFailure(env, s);
    }
    RunShowsStop(TurnOf(env), fails, Start(w, initial), Turns(env.settings));
  }

  // ----- chats --------------------------------------------------------------------

  datatype Request<!W> = Request(env: Env<W>, userMessage: Message, system: Message)

  ghost predicate GoodRequest<W(!new)>(r: Request<W>)
  {
    HooksKeepIDs(r.env) && r.userMessage.UserMessage? && r.system.SystemMessage?
  }

  /** One chat on an answered session. */
  lemma ChatSavesAnswered<W(!new)>(r: Request<W>, w: W, stored: SessionState)
    requires GoodRequest(r) && Answered(stored.messages)
    ensures Answered(SavedSession(r.env, w, stored, r.userMessage, r.system).messages) <==> !ChatStops(r, w, stored)
  {
    assert Front([r.userMessage]) == [];
    assert PushAll(stored.messages, [r.userMessage]) == Push(stored.messages, r.userMessage);
    AnsweredPushUser(stored.messages, r.userMessage);
    var sess := Received(stored, r.userMessage);
    AnsweredPrepend([r.system], sess.messages);
    LoopSavesAnswered(r.env, w, AgentContext(r.system, sess), sess);
  }

  /** The chat's run has a turn that fails before its tools. */
  ghost predicate ChatStops<W>(r: Request<W>, w: W, stored: SessionState)
  {
    StopsBeforeTools(r.env, w, AgentContext(r.system, Received(stored, r.userMessage)))
  }

  datatype History<W> = History(world: W, session: SessionState, clean: bool)

  /** Any number of chats on one session, each on what the previous one saved; clean until one of
      them has a turn that fails before its tools. */
  ghost function Chats<W>(w: W, stored: SessionState, rs: seq<Request<W>>): History<W>
  {
    if rs == [] then History(w, stored, true) else
    var h := Chats(w, stored, Front(rs));
    var r := Last(rs);
    History(ChatRun(r.env, h.world, h.session, r.userMessage, r.system).state.world,
            SavedSession(r.env, h.world, h.session, r.userMessage, r.system),
            h.clean && !ChatStops(r, h.world, h.session))
  }

  /** Every session saved on the way is answered. */
  ghost predicate AllAnswered<W>(w: W, stored: SessionState, rs: seq<Request<W>>)
  {
    && (rs != [] ==> AllAnswered(w, stored, Front(rs)))
    && Answered(Chats(w, stored, rs).session.messages)
  }

  lemma OneMoreChat<W(!new)>(r: Request<W>, h: History<W>, next: History<W>)
    requires GoodRequest(r) && Answered(h.session.messages)
    requires next.session == SavedSession(r.env, h.world, h.session, r.userMessage, r.system)
    requires next.clean == (h.clean && !ChatStops(r, h.world, h.session))
    ensures h.clean ==> (next.clean <==> Answered(next.session.messages))
  {
    ChatSavesAnswered(r, h.world, h.session);
  }

  /** Over any history of chats, whatever models, tools and hooks did, the sessions saved so far are all
      answered if and only if no chat had a turn that failed before its tools. */
  lemma {:induction false} ChatsStayAnswered<W(!new)>(w: W, stored: SessionState, rs: seq<Request<W>>)
    requires Answered(stored.messages) && forall r <- rs :: GoodRequest(r)
    ensures Chats(w, stored, rs).clean <==> AllAnswered(w, stored, rs)
  {
    if rs != [] {
      assert Last(rs) in rs;
      ChatsStayAnswered(w, stored, Front(rs));
      var h := Chats(w, stored, Front(rs));
      if h.clean {
        OneMoreChat(Last(rs), h, Chats(w, stored, rs));
      }
    }
  }

  /** A model that answers with one call and far too many tokens, and then cannot summarise. */
  function StubbornModel(withTools: bool): Result<Completion, ModelError>
  {
    if withTools then Ok(Completion([ToolCall("1", "read", "")], "", false, 1, 1)) else Err(Failure("no"))
  }

  const STUBBORN: Env<int> := Env(
    w => Poll(w, None), (w, call: ModelCall) => ModelReply(w, StubbornModel(call.withTools)), [], [], [], {},
    (w, name, args) => ToolReply(w, Returned([])), n => 7 * n / 10, (i, o) => true, "", s => s, map[])

  lemma StubbornFails(s: State<int>)
    ensures FailsBeforeTools(STUBBORN, s)
  {
    var c := StubbornModel(true).value;
    assert ProcessCompletion(STUBBORN, s.world, s.messages) == Completed(s.world, c);
    assert STUBBORN.overThreshold(c.inputTokens, c.completionTokens);
  }

  /** A chat on an empty session after which the saved session waits for an answer nobody will give. */
  lemma ChatCanBeStoppedBeforeTools()
    ensures var r := Request(STUBBORN, UserMessage(Text("q")), SystemMessage(Text("s")));
            && GoodRequest(r)
            && !Answered(SavedSession(r.env, 0, SessionState([], 0, 0), r.userMessage, r.system).messages)
  {
    var r := Request(STUBBORN, UserMessage(Text("q")), SystemMessage(Text("s")));
    var stored := SessionState([], 0, 0);
    ChatSavesAnswered(r, 0, stored);
    var context := AgentContext(r.system, Received(stored, r.userMessage));
    StubbornFails(Start(0, context));
    assert ResolveMaxTurns(STUBBORN.settings) == DEFAULT_TURNS_LIMIT;
    var fails: State<int> -> bool := s => FailsBeforeTools(STUBBORN, s);
    assert HoldsAfter(TurnOf(STUBBORN), fails, Start(0, context), 0);
  }
}
