/** The session keeper around the loop (internal/chat/service.go): it folds the loop's events into the
    session, saves it when the loop exits, and forwards every event to the caller's sink. */
module Chat {
  import opened Basics
  import opened Messages
  import opened Sessions
  import opened Runtime

  // ----- what one event does ---------------------------------------------------

  function Apply(sess: SessionState, ev: Event): SessionState
  {
    match ev
    case CompactionEvent(_, context) => sess.OverwriteMessages(0, context)
    case CompleteEvent(c) => sess.ApplyCompletion(c)
    case ToolResultEvent(_, result) => sess.AddMessages([NewToolResultMessage(result)])
    case _ => sess
  }

  function Fold(sess: SessionState, events: seq<Event>): SessionState
  {
    if events == [] then sess else Apply(Fold(sess, Front(events)), Last(events))
  }

  /** An interruption is not an error for the caller; everything else is forwarded as it is. */
  function Forward(ev: Event): Event
  {
    match ev
    case LoopExitEvent(Some(e)) => if Is(e, Canceled) then LoopExitEvent(None) else ev
    case _ => ev
  }

  function ForwardAll(events: seq<Event>): (out: seq<Event>)
    ensures |out| == |events|
    ensures forall i :: 0 <= i < |events| ==> out[i] == Forward(events[i])
  {
    if events == [] then [] else ForwardAll(Front(events)) + [Forward(Last(events))]
  }

  /** The session as saved at each loop exit. */
  function Saves(sess: SessionState, events: seq<Event>): seq<SessionState>
  {
    if events == [] then [] else
    Saves(sess, Front(events)) + (if Last(events).LoopExitEvent? then [Fold(sess, Front(events))] else [])
  }

  /** The agent messages reported to the activity log of an observed chat. */
  function Activity(events: seq<Event>): seq<Message>
  {
    if events == [] then [] else
    Activity(Front(events)) + (if Last(events).CompleteEvent? then [NewAgentMessage(Last(events).completion)] else [])
  }

  /** One report for each completion, in order, with its content and calls; nothing else is reported. */
  lemma {:induction false} ActivityInOrder(a: seq<Event>, b: seq<Event>, ev: Event)
    ensures Activity(a + b) == Activity(a) + Activity(b)
    ensures Activity([ev]) == if ev.CompleteEvent?
                              then [AgentMessage([ContentPart(ev.completion.content, "")], ev.completion.toolCalls)]
                              else []
  {
    assert Front([ev]) == [];
    if b == [] {
      assert a + b == a;
    } else {
      FrontOfConcat(a, b);
      ActivityInOrder(a, Front(b), ev);
    }
  }

  /** The body of the loop over the event channel. */
  method HandleEvent(ev: Event, sess: Session, observe: bool)
    returns (outEv: Event, saved: seq<SessionState>, activity: seq<Message>)
    modifies sess
    ensures sess.State() == Apply(old(sess.State()), ev)
    ensures match ev
            case CompactionEvent(_, context) => sess.State() == SessionState(context, 0, 0)
            case CompleteEvent(c) =>
              sess.State()
              == SessionState(old(sess.messages) + [AgentMessage([ContentPart(c.content, "")], c.toolCalls)],
                              c.inputTokens, c.completionTokens)
            case ToolResultEvent(_, result) =>
              sess.State()
              == old(sess.State()).(messages := old(sess.messages) + [ToolResultMessage(result.id, result.result)])
            case _ => sess.State() == old(sess.State())
    ensures outEv == Forward(ev)
    ensures outEv == if ev.LoopExitEvent? && ev.exit.Some? && Is(ev.exit.value, Canceled) then LoopExitEvent(None)
                     else ev
    ensures saved == if ev.LoopExitEvent? then [old(sess.State())] else []
    ensures activity == if observe && ev.CompleteEvent?
                        then [AgentMessage([ContentPart(ev.completion.content, "")], ev.completion.toolCalls)] else []
  {
    outEv, saved, activity := ev, [], [];
    match ev {
      case LoopExitEvent(err) =>
        if err.Some? && Is(err.value, Canceled) {
          outEv := LoopExitEvent(None);
        }
        saved := [sess.State()];
      case CompactionEvent(_, context) =>
        sess.OverwriteMessages(0, context);
      case CompleteEvent(c) =>
        sess.ApplyCompletion(c);
        if observe {
          activity := [NewAgentMessage(c)];
        }
      case ToolResultEvent(_, result) =>
        sess.AddMessages([NewToolResultMessage(result)]);
      case CompletionMistakeEvent(_) =>
      case ToolCallErrEvent(_, _, _) =>
    }
  }

  /** The consumer of the event channel, given what the channel delivers. */
  method RunWithCallbacks(rawEvents: seq<Event>, sess: Session, observe: bool)
    returns (sink: seq<Event>, saved: seq<SessionState>, activity: seq<Message>)
    modifies sess
    ensures sess.State() == Fold(old(sess.State()), rawEvents)
    ensures sink == ForwardAll(rawEvents)
    ensures saved == Saves(old(sess.State()), rawEvents)
    ensures activity == if observe then Activity(rawEvents) else []
  {
    sink, saved, activity := [], [], [];
    for i := 0 to |rawEvents|
      invariant sess.State() == Fold(old(sess.State()), rawEvents[..i])
      invariant sink == ForwardAll(rawEvents[..i])
      invariant saved == Saves(old(sess.State()), rawEvents[..i])
      invariant activity == if observe then Activity(rawEvents[..i]) else []
    {
      var outEv, s, a := HandleEvent(rawEvents[i], sess, observe);
      saved := saved + s;
      activity := activity + a;
      sink := sink + [outEv];
      assert Front(rawEvents[..i + 1]) == rawEvents[..i] && Last(rawEvents[..i + 1]) == rawEvents[i];
    }
    assert rawEvents[..|rawEvents|] == rawEvents;
  }

  lemma {:induction false} FoldConcat(sess: SessionState, a: seq<Event>, b: seq<Event>)
    ensures Fold(sess, a + b) == Fold(Fold(sess, a), b)
  {
    if b == [] {
      assert a + b == a;
    } else {
      assert Front(a + b) == a + Front(b);
      FoldConcat(sess, a, Front(b));
    }
  }

  lemma FoldSnoc(sess: SessionState, events: seq<Event>, ev: Event)
    ensures Fold(sess, events + [ev]) == Apply(Fold(sess, events), ev)
  {
    assert Front(events + [ev]) == events;
  }

  lemma FoldOne(sess: SessionState, ev: Event)
    ensures Fold(sess, [ev]) == Apply(sess, ev)
  {
    FoldSnoc(sess, [], ev);
    assert [] + [ev] == [ev];
  }

  // ----- the context of a run ----------------------------------------------------

  /** The session after storing the request's user message. */
  function Received(stored: SessionState, userMessage: Message): SessionState
  {
    stored.AddMessages([userMessage])
  }

  function AgentContext(system: Message, sess: SessionState): seq<Message>
  {
    [system] + sess.messages
  }

  /** One chat: store the user message, run the loop on the assembled context, fold its events. */
  function ChatRun<W>(env: Env<W>, w: W, stored: SessionState, userMessage: Message, system: Message): Step<W>
  {
    Loop(env, w, AgentContext(system, Received(stored, userMessage)))
  }

  function SavedSession<W>(env: Env<W>, w: W, stored: SessionState, userMessage: Message, system: Message): SessionState
  {
    Fold(Received(stored, userMessage), ChatRun(env, w, stored, userMessage, system).events)
  }
}
