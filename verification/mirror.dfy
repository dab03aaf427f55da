/** The session is a faithful copy of the loop's own conversation. */
module Mirror {
  import opened Basics
  import opened Messages
  import opened Sessions
  import opened Runtime
  import opened Runs
  import opened AnsweredCalls
  import opened Chat

  /** The messages that are not part of a mistake/caution pair. */
  function Kept(ms: seq<Message>, injected: seq<bool>): seq<Message>
    requires |ms| == |injected|
  {
    if ms == [] then []
    else Kept(Front(ms), Front(injected)) + (if Last(injected) then [] else [Last(ms)])
  }

  predicate Compacted(events: seq<Event>)
  {
    exists ev <- events :: ev.CompactionEvent?
  }

  /** The loop's messages, without the pairs injected since the last compaction, are the session,
      behind the system message pre as long as nothing was compacted. */
  ghost predicate Mirrors<W>(s: State<W>, sess: SessionState, pre: seq<Message>)
  {
    |s.messages| == |s.injected| && Kept(s.messages, s.injected) == pre + sess.messages
  }

  lemma {:induction false} KeptConcat(a: seq<Message>, ma: seq<bool>, b: seq<Message>, mb: seq<bool>)
    requires |a| == |ma| && |b| == |mb|
    ensures Kept(a + b, ma + mb) == Kept(a, ma) + Kept(b, mb)
  {
    if b == [] {
      assert a + b == a && ma + mb == ma;
    } else {
      assert Front(a + b) == a + Front(b) && Front(ma + mb) == ma + Front(mb);
      KeptConcat(a, ma, Front(b), Front(mb));
    }
  }

  lemma {:induction false} KeptUnmarked(ms: seq<Message>)
    ensures Kept(ms, Unmarked(|ms|)) == ms
  {
    if ms != [] {
      assert Front(Unmarked(|ms| - 1) + [false]) == Unmarked(|ms| - 1);
      KeptUnmarked(Front(ms));
    }
  }

  lemma KeptPair(a: Message, b: Message)
    ensures Kept([a, b], [true, true]) == []
  {
    assert Front([a, b]) == [a] && Front([true, true]) == [true];
    assert Kept([a], [true]) == [] by { assert Front([a]) == [] && Front([true]) == []; }
  }

  /** The events of a tool batch add its results to the session, as the loop adds them to its messages. */
  lemma {:induction false} FoldBatch<W>(env: Env<W>, w: W, calls: seq<ToolCall>, sess: SessionState)
    ensures Fold(sess, Batch(env, w, calls).events)
         == sess.(messages := sess.messages + Batch(env, w, calls).messages)
    ensures !Compacted(Batch(env, w, calls).events)
  {
    if calls == [] {
      assert sess.messages + [] == sess.messages;
    } else {
      var first := OneCall(env, w, calls[0]);
      var rest := Batch(env, first.world, calls[1..]);
      FoldOneCall(env, w, calls[0], sess);
      FoldBatch(env, first.world, calls[1..], sess.(messages := sess.messages + first.messages));
      FoldConcat(sess, first.events, rest.events);
      Associative(sess.messages, first.messages, rest.messages);
    }
  }

  lemma FoldOneCall<W>(env: Env<W>, w: W, call: ToolCall, sess: SessionState)
    ensures Fold(sess, OneCall(env, w, call).events)
         == sess.(messages := sess.messages + OneCall(env, w, call).messages)
    ensures !Compacted(OneCall(env, w, call).events)
  {
    var o := OneCall(env, w, call);
    var result := Last(o.events).result;
    PushResult(sess.messages, NewToolResultMessage(result));
    FoldSnoc(sess, Front(o.events), Last(o.events));
    assert Front(o.events) + [Last(o.events)] == o.events;
    if |o.events| == 2 {
      assert Front(o.events) == [o.events[0]];
      FoldOne(sess, o.events[0]);
    } else {
      assert Front(o.events) == [];
    }
  }

  /** Tool results are never merged. */
  lemma PushResult(ms: seq<Message>, m: Message)
    requires m.ToolResultMessage?
    ensures PushAll(ms, [m]) == ms + [m]
  {
    assert Front([m]) == [];
  }

  lemma KeptAppend(ms: seq<Message>, marks: seq<bool>, more: seq<Message>)
    requires |ms| == |marks|
    ensures Kept(ms + more, marks + Unmarked(|more|)) == Kept(ms, marks) + more
  {
    KeptConcat(ms, marks, more, Unmarked(|more|));
    KeptUnmarked(more);
  }

  lemma AppendMirrors<W>(s: State<W>, s': State<W>, more: seq<Message>, sess: SessionState, pre: seq<Message>)
    requires Mirrors(s, sess, pre)
    requires s'.messages == s.messages + more && s'.injected == s.injected + Unmarked(|more|)
    ensures Mirrors(s', sess.(messages := sess.messages + more), pre)
  {
    var ms, kept, kept' := sess.messages, Kept(s.messages, s.injected), Kept(s'.messages, s'.injected);
    assert kept' == kept + more by {
      KeptAppend(s.messages, s.injected, more);
    }
    Associative(pre, ms, more);
    assert kept == pre + ms;
    assert kept' == pre + (ms + more);
  }

  lemma ToolStepMirrors<W>(env: Env<W>, s: State<W>, c: Completion, sess: SessionState, pre: seq<Message>)
    requires Mirrors(s, sess, pre)
    ensures var t := ToolStep(env, s, c);
            Mirrors(t.state, Fold(sess, t.events), pre) && !Compacted(t.events)
  {
    var batch := Batch(env, s.world, c.toolCalls);
    FoldBatch(env, s.world, c.toolCalls, sess);
    FoldSnoc(sess, batch.events, LoopExitEvent(None));
    AppendMirrors(s, ToolStep(env, s, c).state, batch.messages, sess, pre);
  }

  /** After a compaction the session is the compacted context itself. */
  lemma CompactionMirrors<W>(env: Env<W>, w: W, msgs: seq<Message>, sess: SessionState)
    requires DoCompact(env, w, msgs).outcome.Ok?
    ensures var r := DoCompact(env, w, msgs);
            && Fold(sess, r.events).messages == r.outcome.value
            && Kept(r.outcome.value, Unmarked(|r.outcome.value|)) == [] + Fold(sess, r.events).messages
            && Compacted(r.events)
  {
    var r := DoCompact(env, w, msgs);
    var summary := CompactedBy(env, w, msgs);
    assert r.events == [r.events[0]];
    FoldOne(sess, r.events[0]);
    KeptUnmarked(r.outcome.value);
  }

  lemma CompleteStepMirrors<W>(env: Env<W>, s: State<W>, w: W, c: Completion, sess: SessionState, pre: seq<Message>)
    requires Mirrors(s, sess, pre)
    ensures var t := CompleteStep(env, s, w, c);
            !t.exited ==> Mirrors(t.state, Fold(sess, t.events), if Compacted(t.events) then [] else pre)
  {
    var s1 := State(w, s.messages + [NewAgentMessage(c)], s.mistakes, s.injected + [false]);
    var ev := CompleteEvent(c);
    var sess1 := sess.ApplyCompletion(c);
    FoldOne(sess, ev);
    if env.overThreshold(c.inputTokens, c.completionTokens) {
      var r := DoCompact(env, w, s1.messages);
      if r.outcome.Ok? {
        CompactionMirrors(env, w, s1.messages, sess1);
        var s2 := State(r.world, r.outcome.value, s.mistakes, Unmarked(|r.outcome.value|));
        ToolStepMirrors(env, s2, c, Fold(sess1, r.events), []);
        FoldConcat(sess, [ev], r.events);
        FoldConcat(sess, [ev] + r.events, ToolStep(env, s2, c).events);
      }
    } else {
      assert Unmarked(1) == Unmarked(0) + [false] == [false];
      AppendMirrors(s, s1, [NewAgentMessage(c)], sess, pre);
      ToolStepMirrors(env, s1, c, sess1, pre);
      FoldConcat(sess, [ev], ToolStep(env, s1, c).events);
    }
  }

  lemma OverflowStepMirrors<W>(env: Env<W>, s: State<W>, w: W, sess: SessionState, pre: seq<Message>)
    requires Mirrors(s, sess, pre)
    ensures var t := OverflowStep(env, s, w);
            !t.exited ==> Mirrors(t.state, Fold(sess, t.events), if Compacted(t.events) then [] else pre)
  {
    if DoCompact(env, w, s.messages).outcome.Ok? {
      CompactionMirrors(env, w, s.messages, sess);
    }
  }

  lemma MistakeStepMirrors<W>(s: State<W>, w: W, c: Completion, e: Error, caution: string, sess: SessionState,
                              pre: seq<Message>)
    requires Mirrors(s, sess, pre)
    ensures var t := MistakeStep(s, w, c, e, caution);
            !t.exited ==> Mirrors(t.state, Fold(sess, t.events), pre) && !Compacted(t.events)
  {
    FoldOne(sess, CompletionMistakeEvent(e));
    var agentMsg, cautionMsg := AgentMessage(Text(c.content), []), UserMessage(Text(caution));
    KeptConcat(s.messages, s.injected, [agentMsg, cautionMsg], [true, true]);
    KeptPair(agentMsg, cautionMsg);
  }

  lemma TurnMirrors<W>(env: Env<W>, s: State<W>, sess: SessionState, pre: seq<Message>)
    requires Mirrors(s, sess, pre)
    ensures var t := Turn(env, s);
            !t.exited ==> Mirrors(t.state, Fold(sess, t.events), if Compacted(t.events) then [] else pre)
  {
    var p := env.poll(s.world);
    if p.err == None {
      match ProcessCompletion(env, p.world, s.messages) {
        case Completed(w, c) => CompleteStepMirrors(env, s, w, c, sess, pre);
        case ModelFailed(w, e) => OverflowStepMirrors(env, s, w, sess, pre);
        case Rejected(w, c, e) =>
          OverflowStepMirrors(env, s, w, sess, pre);
          if MistakeOf(e).Some? {
            MistakeStepMirrors(s, w, c, e, MistakeOf(e).value, sess, pre);
          }
      }
    }
  }

  ghost predicate KeepsMirror<W(!new)>(turn: State<W> -> Step<W>)
  {
    forall s, sess, pre :: Mirrors(s, sess, pre) && !turn(s).exited ==>
      Mirrors(turn(s).state, Fold(sess, turn(s).events), if Compacted(turn(s).events) then [] else pre)
  }

  lemma {:induction false} AfterMirrors<W(!new)>(turn: State<W> -> Step<W>, s: State<W>, sess: SessionState,
                                                 pre: seq<Message>, k: nat)
    requires KeepsMirror(turn) && Mirrors(s, sess, pre)
    ensures var p, sent := After(turn, s, k), Sent(turn, s, k);
            p.Some? ==> Mirrors(p.value, Fold(sess, sent), if Compacted(sent) then [] else pre)
  {
    if k > 0 {
      AfterMirrors(turn, s, sess, pre, k - 1);
      var p, sent := After(turn, s, k - 1), Sent(turn, s, k - 1);
      if p.Some? {
        assert Mirrors(p.value, Fold(sess, sent), if Compacted(sent) then [] else pre);
        FoldConcat(sess, sent, turn(p.value).events);
      }
    }
  }

  /** At every turn boundary of a chat, what the session keeper has stored (once it has caught up)
      is what the loop is working on. */
  lemma SessionMirrorsLoop<W(!new)>(env: Env<W>, w: W, system: Message, sess: SessionState, k: nat)
    ensures var p, sent := After(TurnOf(env), Start(w, AgentContext(system, sess)), k),
                           Sent(TurnOf(env), Start(w, AgentContext(system, sess)), k);
            p.Some? ==>
              Mirrors(p.value, Fold(sess, sent), if Compacted(sent) then [] else [system])
  {
    KeptUnmarked(AgentContext(system, sess));
    assert KeepsMirror(TurnOf(env)) by {
      forall s, sess, pre | Mirrors(s, sess, pre) && !Turn(env, s).exited
        ensures Mirrors(Turn(env, s).state, Fold(sess, Turn(env, s).events),
                        if Compacted(Turn(env, s).events) then [] else pre)
      {
        TurnMirrors(env, s, sess, pre);
      }
    }
    AfterMirrors(TurnOf(env), Start(w, AgentContext(system, sess)), sess, [system], k);
  }
}
