/** What hooks and a batch of tool calls do, said without the functions that compute it
    (internal/runtime/hook.go:21-38, loop.go:139-244). */
module ToolCalls {
  import opened Basics
  import opened Messages
  import opened Runtime

  // ----- hooks ------------------------------------------------------------------

  /** These two laws leave nothing open: no hooks change nothing and one hook is itself; and a row of
      hooks is its first part and then, unless that failed, the rest on what the first part left. */
  lemma FewHooks<W, T>(h: (W, T) -> HookReply<W, T>, w: W, event: T)
    ensures Hooked([], w, event) == HookReply(w, event, None)
    ensures Hooked([h], w, event) == h(w, event)
  {
    var r := h(w, event);
    assert [h][1..] == [];
    assert Hooked([], r.world, r.event) == HookReply(r.world, r.event, None);
  }

  lemma {:induction false} HooksInOrder<W, T>(a: seq<(W, T) -> HookReply<W, T>>, b: seq<(W, T) -> HookReply<W, T>>,
                                              w: W, event: T)
    ensures var first := Hooked(a, w, event);
            Hooked(a + b, w, event) == if first.err.Some? then first else Hooked(b, first.world, first.event)
  {
    if a == [] {
      assert a + b == b;
    } else {
      var r := a[0](w, event);
      assert (a + b)[1..] == a[1..] + b;
      HooksInOrder(a[1..], b, r.world, r.event);
    }
  }

  // ----- error chains -----------------------------------------------------------

  /** An error and its causes, outermost first. */
  function Chain(e: Error): seq<Error>
  {
    [e] + (if e.Wrapped? then Chain(e.cause) else [])
  }

  predicate IsFirstMistake(chain: seq<Error>, i: nat)
    requires i < |chain|
  {
    chain[i].AgentMistake? && forall j :: 0 <= j < i ==> !chain[j].AgentMistake?
  }

  lemma {:induction false} ChainHolds(e: Error, target: Error)
    ensures Is(e, target) <==> target in Chain(e)
  {
    if e.Wrapped? {
      ChainHolds(e.cause, target);
    }
  }

  lemma {:induction false} ChainBlames(e: Error)
    ensures MistakeOf(e) == None <==> forall c <- Chain(e) :: !c.AgentMistake?
    ensures forall i :: 0 <= i < |Chain(e)| && IsFirstMistake(Chain(e), i) ==> MistakeOf(e) == Some(Chain(e)[i].message)
  {
    if e.Wrapped? {
      ChainBlames(e.cause);
      forall i | 0 <= i < |Chain(e)| && IsFirstMistake(Chain(e), i) ensures MistakeOf(e) == Some(Chain(e)[i].message) {
        FirstInCauses(e, Chain(e.cause), i);
      }
    }
  }

  lemma FirstInCauses(e: Error, causes: seq<Error>, i: nat)
    requires e.Wrapped? && i < |[e] + causes| && IsFirstMistake([e] + causes, i)
    ensures i > 0 && IsFirstMistake(causes, i - 1) && causes[i - 1] == ([e] + causes)[i]
  {
    assert forall j :: 0 <= j < |causes| ==> causes[j] == ([e] + causes)[j + 1];
  }

  // ----- calls ------------------------------------------------------------------

  function Opening(timedOut: bool): string
  {
    if timedOut then "toolcall error, timeout error" else "toolcall error"
  }

  /** What a model is told of a failed call: that it timed out exactly if the deadline is in the chain,
      and the first mistake of the chain exactly if it has one. */
  ghost predicate Tells(text: string, err: Error)
  {
    var chain := Chain(err);
    var opening := Opening(DeadlineExceeded in chain);
    && ((forall e <- chain :: !e.AgentMistake?) ==> text == opening)
    && forall i :: 0 <= i < |chain| && IsFirstMistake(chain, i) ==> text == opening + ", " + chain[i].message
  }

  /** The call went wrong: the error is reported, and then the result that tells of it. */
  ghost predicate Fails<W>(b: BatchReply<W>, call: ToolCall, w: W, err: Error)
  {
    exists text :: Tells(text, err) &&
      b == BatchReply(w, [ToolCallErrEvent(call.toolName, call.arguments, err),
                          ToolResultEvent(call, ToolResult(call.id, [ContentPart(text, "")]))],
                      [ToolResultMessage(call.id, [ContentPart(text, "")])])
  }

  ghost predicate Succeeds<W>(b: BatchReply<W>, call: ToolCall, w: W, result: ToolResult)
  {
    b == BatchReply(w, [ToolResultEvent(call, result)], [ToolResultMessage(result.id, result.result)])
  }

  lemma ErrorTells(callID: string, err: Error)
    ensures exists text :: Tells(text, err) && HandleToolCallErr(callID, err) == ToolResult(callID, Text(text))
  {
    var text := HandleToolCallErr(callID, err).result[0].text;
    ChainHolds(err, DeadlineExceeded);
    ChainBlames(err);
    Opens(Is(err, DeadlineExceeded));
    ThisTells(text, err, Opening(Is(err, DeadlineExceeded)), MistakeOf(err));
    assert Tells(text, err);
  }

  lemma Opens(timedOut: bool)
    ensures "toolcall error" + (if timedOut then ", timeout error" else "") == Opening(timedOut)
  {
  }

  lemma ThisTells(text: string, err: Error, opening: string, mistake: Option<string>)
    requires opening == Opening(DeadlineExceeded in Chain(err))
    requires mistake == None <==> forall c <- Chain(err) :: !c.AgentMistake?
    requires forall i :: 0 <= i < |Chain(err)| && IsFirstMistake(Chain(err), i) ==>
               mistake == Some(Chain(err)[i].message)
    requires text == opening + (match mistake case Some(message) => ", " + message case None => "")
    ensures Tells(text, err)
  {
    match mistake {
      case None => assert opening + "" == opening;
      case Some(message) => assert opening + (", " + message) == opening + ", " + message;
    }
  }

  lemma OneCallBatch<W>(env: Env<W>, w: W, call: ToolCall)
    ensures Batch(env, w, [call]) == OneCall(env, w, call)
  {
    assert [call][1..] == [];
    var o := OneCall(env, w, call);
    assert o.events + [] == o.events && o.messages + [] == o.messages;
  }

  lemma {:induction false} CallFails<W>(env: Env<W>, w: W, call: ToolCall, w1: W, err: Error)
    requires ProcessToolCall(env, w, call) == CallReply(w1, Err(err))
    ensures Fails(Batch(env, w, [call]), call, w1, err)
  {
    OneCallBatch(env, w, call);
    ErrorTells(call.id, err);
  }

  /** The tool is not there: nothing runs, the agent is told of its mistake. */
  lemma UnknownTool<W>(env: Env<W>, w: W, call: ToolCall)
    requires call.toolName !in env.toolNames
    ensures Fails(Batch(env, w, [call]), call, w, AgentMistake("tool " + call.toolName + " is not exist"))
    ensures Batch(env, w, [call]).messages ==
            [ToolResultMessage(call.id, [ContentPart("toolcall error, tool " + call.toolName + " is not exist", "")])]
  {
    var mistake := AgentMistake("tool " + call.toolName + " is not exist");
    CallFails(env, w, call, w, mistake);
    assert IsFirstMistake(Chain(mistake), 0);
    assert !exists e :: e in Chain(mistake) && e == DeadlineExceeded;
    assert "toolcall error" + ", " + mistake.message == "toolcall error, tool " + call.toolName + " is not exist";
  }

  /** A hook refuses the call: the tool does not run. */
  lemma {:induction false} CallRefused<W>(env: Env<W>, w: W, call: ToolCall, w1: W, call1: ToolCall, err: Error)
    requires call.toolName in env.toolNames && Hooked(env.callHooks, w, call) == HookReply(w1, call1, Some(err))
    ensures Fails(Batch(env, w, [call]), call, w1, err)
  {
    CallFails(env, w, call, w1, err);
  }

  /** The call as the tool gets it: the tool of the call's name runs on the arguments that the hooks left. */
  ghost predicate Runs<W>(env: Env<W>, w: W, call: ToolCall, hooked: ToolCall, reply: ToolReply<W>)
  {
    var pre := Hooked(env.callHooks, w, call);
    && call.toolName in env.toolNames && pre.err == None && pre.event == hooked
    && reply == env.callTool(pre.world, call.toolName, hooked.arguments)
  }

  /** The tool answers: the model gets what the result hooks make of the answer, or their error. */
  lemma ToolAnswers<W>(env: Env<W>, w: W, call: ToolCall, hooked: ToolCall, w2: W, content: seq<ContentPart>)
    requires Runs(env, w, call, hooked, ToolReply(w2, Returned(content)))
    ensures var post := Hooked(env.resultHooks, w2, AfterToolCall(hooked, ToolResult(hooked.id, content)));
            match post.err
            case None => Succeeds(Batch(env, w, [call]), call, post.world, post.event.result)
            case Some(e) => Fails(Batch(env, w, [call]), call, post.world, e)
  {
    var post := Hooked(env.resultHooks, w2, AfterToolCall(hooked, ToolResult(hooked.id, content)));
    match post.err {
      case None => OneCallBatch(env, w, call);
      case Some(e) => CallFails(env, w, call, post.world, e);
    }
  }

  /** The tool fails or panics: no result hook runs, and the batch goes on all the same. */
  lemma ToolBreaks<W>(env: Env<W>, w: W, call: ToolCall, hooked: ToolCall, w2: W, outcome: ToolOutcome)
    requires Runs(env, w, call, hooked, ToolReply(w2, outcome)) && !outcome.Returned?
    ensures outcome.Failed? ==> Fails(Batch(env, w, [call]), call, w2, outcome.err)
    ensures outcome.Panicked? ==>
              Fails(Batch(env, w, [call]), call, w2, Failure("tool " + call.toolName + " panicked: " + outcome.text))
  {
    var err := if outcome.Failed? then outcome.err
               else Failure("tool " + call.toolName + " panicked: " + outcome.text);
    CallFails(env, w, call, w2, err);
  }

  /** Calls run one after the other, each in the world that the one before left; with the lemmas above
      this determines every batch. */
  lemma {:induction false} BatchInOrder<W>(env: Env<W>, w: W, a: seq<ToolCall>, b: seq<ToolCall>)
    ensures var first := Batch(env, w, a);
            var second := Batch(env, first.world, b);
            Batch(env, w, a + b)
            == BatchReply(second.world, first.events + second.events, first.messages + second.messages)
    ensures Batch(env, w, []) == BatchReply(w, [], [])
    decreases a
  {
    if a == [] {
      assert a + b == b;
      var second := Batch(env, w, b);
      assert [] + second.events == second.events && [] + second.messages == second.messages;
    } else {
      var o := OneCall(env, w, a[0]);
      assert (a + b)[1..] == a[1..] + b;
      BatchInOrder(env, o.world, a[1..], b);
      var first := Batch(env, o.world, a[1..]);
      var second := Batch(env, first.world, b);
      Associative(o.events, first.events, second.events);
      Associative(o.messages, first.messages, second.messages);
    }
  }
}
