/** When the contexts of a run come to hold tool results whose calls were summarised away
    (internal/runtime/loop.go:49-57, 82-101, internal/runtime/compaction.go:16-68). */
module OrphanedResults {
  import opened Basics
  import opened Messages
  import opened Sessions
  import opened Compaction
  import opened Conversation
  import opened Runtime
  import opened Runs
  import opened AnsweredCalls

  lemma HasCallPrefix(a: seq<Message>, b: seq<Message>, i: nat)
    requires i < |a|
    ensures HasCall(a + b, i) <==> HasCall(a, i)
  {
    assert (a + b)[i] == a[i];
    if HasCall(a + b, i) && a[i].ToolResultMessage? {
      var k :| 0 <= k < i && (a + b)[k].AgentMessage? && i <= k + |(a + b)[k].toolCalls|;
      assert a[k] == (a + b)[k];
    }
    if HasCall(a, i) && a[i].ToolResultMessage? {
      var k :| 0 <= k < i && a[k].AgentMessage? && i <= k + |a[k].toolCalls|;
      assert (a + b)[k] == a[k];
    }
  }

  lemma PrefixOrphans(a: seq<Message>, b: seq<Message>)
    requires forall i :: |a| <= i < |a + b| ==> HasCall(a + b, i)
    ensures NoOrphans(a + b) <==> NoOrphans(a)
  {
    forall i | 0 <= i < |a| ensures HasCall(a + b, i) <==> HasCall(a, i) {
      HasCallPrefix(a, b, i);
    }
    assert NoOrphans(a + b) ==> forall i :: 0 <= i < |a| ==> HasCall(a + b, i);
  }

  lemma PlainOrphans(a: seq<Message>, b: seq<Message>)
    requires forall m <- b :: !m.ToolResultMessage?
    ensures NoOrphans(a + b) <==> NoOrphans(a)
  {
    forall i | |a| <= i < |a + b| ensures HasCall(a + b, i) {
      assert (a + b)[i] == b[i - |a|] && b[i - |a|] in b;
    }
    PrefixOrphans(a, b);
  }

  /** The results of the last message's calls have their calls. */
  lemma ResultsHaveCalls(c: seq<Message>, results: seq<Message>)
    requires c != [] && Last(c).AgentMessage? && |results| == |Last(c).toolCalls|
    ensures NoOrphans(c + results) <==> NoOrphans(c)
  {
    forall i | |c| <= i < |c + results| ensures HasCall(c + results, i) {
      assert (c + results)[|c| - 1] == Last(c);
    }
    PrefixOrphans(c, results);
  }

  /** The turn compacts, and the first message it keeps is a tool result. */
  predicate CutsAtResult<W>(env: Env<W>, s: State<W>)
  {
    var p := env.poll(s.world);
    p.err == None &&
    match ProcessCompletion(env, p.world, s.messages)
    case Completed(w, c) =>
      && env.overThreshold(c.inputTokens, c.completionTokens)
      && CompactsAtResult(env, w, s.messages + [NewAgentMessage(c)])
    case ModelFailed(w, e) => Is(e, ContextOverflow) && CompactsAtResult(env, w, s.messages)
    case Rejected(w, _, e) => Is(e, ContextOverflow) && CompactsAtResult(env, w, s.messages)
  }

  predicate CompactsAtResult<W>(env: Env<W>, w: W, msgs: seq<Message>)
  {
    |msgs| >= 2 && DoCompact(env, w, msgs).outcome.Ok? && msgs[Cut(msgs, env.divide)].ToolResultMessage?
  }

  lemma DoCompactOrphans<W>(env: Env<W>, w: W, msgs: seq<Message>)
    requires AnsweredOrPending(msgs) && NoOrphans(msgs) && DoCompact(env, w, msgs).outcome.Ok?
    ensures NoOrphans(DoCompact(env, w, msgs).outcome.value) <==> !CompactsAtResult(env, w, msgs)
  {
    var summary := CompactedBy(env, w, msgs);
    CompactionOrphans(msgs, env.divide, summary);
  }

  lemma ToolStepOrphans<W(!new)>(env: Env<W>, s: State<W>, c: Completion)
    requires HooksKeepIDs(env) && s.messages != [] && Last(s.messages) == NewAgentMessage(c)
    ensures NoOrphans(ToolStep(env, s, c).state.messages) <==> NoOrphans(s.messages)
  {
    BatchAnswers(env, s.world, c.toolCalls);
    ResultsHaveCalls(s.messages, Batch(env, s.world, c.toolCalls).messages);
  }

  lemma CompleteStepOrphans<W(!new)>(env: Env<W>, s: State<W>, w: W, c: Completion)
    requires HooksKeepIDs(env) && Answered(s.messages) && NoOrphans(s.messages)
    requires !CompleteStep(env, s, w, c).exited
    ensures NoOrphans(CompleteStep(env, s, w, c).state.messages) <==>
            !(env.overThreshold(c.inputTokens, c.completionTokens)
              && CompactsAtResult(env, w, s.messages + [NewAgentMessage(c)]))
  {
    var s1 := State(w, s.messages + [NewAgentMessage(c)], s.mistakes, s.injected + [false]);
    PlainOrphans(s.messages, [NewAgentMessage(c)]);
    if env.overThreshold(c.inputTokens, c.completionTokens) {
      var r := DoCompact(env, w, s1.messages);
      assert Front(s1.messages) == s.messages;
      DoCompactOrphans(env, w, s1.messages);
      var summary := CompactedBy(env, w, s1.messages);
      CompactionKeepsPending(s1.messages, env.divide, summary);
      ToolStepOrphans(env, State(r.world, r.outcome.value, s.mistakes, Unmarked(|r.outcome.value|)), c);
    } else {
      ToolStepOrphans(env, s1, c);
    }
  }

  /** A turn that continues leaves no orphaned result, unless it cuts at one. */
  lemma TurnOrphans<W(!new)>(env: Env<W>, s: State<W>)
    requires HooksKeepIDs(env) && Answered(s.messages) && NoOrphans(s.messages) && !Turn(env, s).exited
    ensures NoOrphans(Turn(env, s).state.messages) <==> !CutsAtResult(env, s)
  {
    var p := env.poll(s.world);
    match ProcessCompletion(env, p.world, s.messages) {
      case Completed(w, c) =>
        CompleteStepOrphans(env, s, w, c);
      case ModelFailed(w, e) =>
        DoCompactOrphans(env, w, s.messages);
      case Rejected(w, c, e) =>
        if Is(e, ContextOverflow) {
          DoCompactOrphans(env, w, s.messages);
        } else {
          var pair := [AgentMessage(Text(c.content), []), UserMessage(Text(MistakeOf(e).value))];
          PlainOrphans(s.messages, pair);
        }
    }
  }

  // ----- runs -----------------------------------------------------------------------------

  ghost predicate CleanTurns<W(!new)>(turn: State<W> -> Step<W>, cuts: State<W> -> bool)
  {
    forall s: State<W> {:trigger turn(s), cuts(s)} ::
      Answered(s.messages) && NoOrphans(s.messages) && !turn(s).exited ==>
        Answered(turn(s).state.messages) && (NoOrphans(turn(s).state.messages) <==> !cuts(s))
  }

  /** The context at the k-th turn boundary. */
  predicate CleanAt<W>(turn: State<W> -> Step<W>, s: State<W>, k: nat)
  {
    After(turn, s, k).Some? ==> NoOrphans(After(turn, s, k).value.messages)
  }

  ghost predicate CleanUpTo<W>(turn: State<W> -> Step<W>, s: State<W>, k: nat)
  {
    forall j: nat :: j <= k ==> CleanAt(turn, s, j)
  }

  lemma {:induction false} CleanRuns<W(!new)>(turn: State<W> -> Step<W>, cuts: State<W> -> bool, s: State<W>, k: nat)
    requires CleanTurns(turn, cuts) && Answered(s.messages) && NoOrphans(s.messages) && After(turn, s, k).Some?
    ensures CleanUpTo(turn, s, k) <==> !SomeTurn(turn, cuts, s, k)
    ensures CleanUpTo(turn, s, k) ==> Answered(After(turn, s, k).value.messages)
  {
    if k > 0 {
      CleanRuns(turn, cuts, s, k - 1);
      var p := After(turn, s, k - 1).value;
      assert turn(p).state == After(turn, s, k).value && !turn(p).exited;
      assert CleanUpTo(turn, s, k) <==> CleanUpTo(turn, s, k - 1) && CleanAt(turn, s, k);
      assert SomeTurn(turn, cuts, s, k) <==> SomeTurn(turn, cuts, s, k - 1) || HoldsAfter(turn, cuts, s, k - 1);
      if CleanUpTo(turn, s, k - 1) {
        assert CleanAt(turn, s, k - 1);
        assert CleanAt(turn, s, k) <==> !cuts(p);
      }
    } else {
      assert CleanAt(turn, s, 0);
    }
  }

  /** From a context that is answered and holds no orphaned result, the contexts of all turns up to the
      k-th hold none if and only if no turn before it compacts with a tool result at its cut. */
  lemma ContextsWithoutOrphans<W(!new)>(env: Env<W>, w: W, initial: seq<Message>, k: nat)
    requires HooksKeepIDs(env) && Answered(initial) && NoOrphans(initial)
    requires After(TurnOf(env), Start(w, initial), k).Some?
    ensures var cuts: State<W> -> bool := s => CutsAtResult(env, s);
            CleanUpTo(TurnOf(env), Start(w, initial), k) <==> !SomeTurn(TurnOf(env), cuts, Start(w, initial), k)
  {
    var cuts: State<W> -> bool := s => CutsAtResult(env, s);
    forall s: State<W> | Answered(s.messages) && NoOrphans(s.messages) && !TurnOf(env)(s).exited
      ensures Answered(TurnOf(env)(s).state.messages)
      ensures NoOrphans(TurnOf(env)(s).state.messages) <==> !cuts(s)
    {
      TurnAnswered(env, s);
      TurnOrphans(env, s);
    }
    CleanRuns(TurnOf(env), cuts, Start(w, initial), k);
  }
}
