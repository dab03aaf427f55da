/** The loop and the session keeper as two goroutines joined by a bounded channel
    (internal/chat/service.go:197-291), stepping in any order. */
module Pipeline {
  import opened Basics
  import opened Messages
  import opened Sessions
  import opened Runtime
  import opened Chat
  import opened Traces

  const CAPACITY := 16

  datatype Consumer = Receiving | Handling(ev: Event) | Forwarding(out: Event) | Stopped

  /** produced counts the events of the trace that the loop has sent. */
  datatype Net = Net(
    produced: nat, closed: bool, queue: seq<Event>, consumer: Consumer,
    session: SessionState, saved: seq<SessionState>, sink: seq<Event>)

  function Init(sess: SessionState): Net
  {
    Net(0, false, [], Receiving, sess, [], [])
  }

  datatype Action = Produce | Close | Receive | Handle | Send | Stop

  predicate Enabled(trace: seq<Event>, n: Net, a: Action)
  {
    match a
    case Produce => n.produced < |trace| && |n.queue| < CAPACITY
    case Close => n.produced == |trace| && !n.closed
    case Receive => n.consumer.Receiving? && n.queue != []
    case Handle => n.consumer.Handling?
    case Send => n.consumer.Forwarding?
    case Stop => n.consumer.Receiving? && n.queue == [] && n.closed
  }

  function Act(trace: seq<Event>, n: Net, a: Action): Net
    requires Enabled(trace, n, a)
  {
    match a
    case Produce => n.(produced := n.produced + 1, queue := n.queue + [trace[n.produced]])
    case Close => n.(closed := true)
    case Receive => n.(queue := n.queue[1..], consumer := Handling(n.queue[0]))
    case Handle =>
      var ev := n.consumer.ev;
      n.(session := Apply(n.session, ev),
         saved := n.saved + (if ev.LoopExitEvent? then [n.session] else []),
         consumer := Forwarding(Forward(ev)))
    case Send => n.(sink := n.sink + [n.consumer.out], consumer := Receiving)
    case Stop => n.(consumer := Stopped)
  }

  /** A schedule is any sequence of actions, each enabled where it is taken. */
  predicate Schedule(trace: seq<Event>, n: Net, actions: seq<Action>)
    decreases |actions|, 0
  {
    actions == [] ||
    (Schedule(trace, n, Front(actions)) && Enabled(trace, Execute(trace, n, Front(actions)), Last(actions)))
  }

  function Execute(trace: seq<Event>, n: Net, actions: seq<Action>): Net
    requires Schedule(trace, n, actions)
    decreases |actions|, 1
  {
    if actions == [] then n else Act(trace, Execute(trace, n, Front(actions)), Last(actions))
  }

  /** Nobody can move. */
  ghost predicate Quiescent(trace: seq<Event>, n: Net)
  {
    forall a :: !Enabled(trace, n, a)
  }

  /** How many events the consumer has taken into the session. */
  function Folded(n: Net): nat
  {
    |n.sink| + (if n.consumer.Forwarding? then 1 else 0)
  }

  ghost predicate Inv(trace: seq<Event>, sess: SessionState, n: Net)
  {
    var taken := |n.sink| + (if n.consumer.Handling? || n.consumer.Forwarding? then 1 else 0);
    && taken <= n.produced <= |trace|
    && n.queue == trace[taken..n.produced] && |n.queue| <= CAPACITY
    && (n.consumer.Handling? ==> n.consumer.ev == trace[|n.sink|])
    && (n.consumer.Forwarding? ==> n.consumer.out == Forward(trace[|n.sink|]))
    && n.sink == ForwardAll(trace[..|n.sink|])
    && n.session == Fold(sess, trace[..Folded(n)])
    && n.saved == Saves(sess, trace[..Folded(n)])
    && (n.closed ==> n.produced == |trace|)
    && (n.consumer.Stopped? ==> n.closed && n.queue == [])
  }

  lemma Snoc(trace: seq<Event>, k: nat)
    requires k < |trace|
    ensures Front(trace[..k + 1]) == trace[..k] && Last(trace[..k + 1]) == trace[k]
  {
  }

  lemma ProduceKeepsInv(trace: seq<Event>, sess: SessionState, n: Net)
    requires Inv(trace, sess, n) && Enabled(trace, n, Produce)
    ensures Inv(trace, sess, Act(trace, n, Produce))
  {
  }

  lemma ReceiveKeepsInv(trace: seq<Event>, sess: SessionState, n: Net)
    requires Inv(trace, sess, n) && Enabled(trace, n, Receive)
    ensures Inv(trace, sess, Act(trace, n, Receive))
  {
    assert n.queue[0] == trace[|n.sink|];
    assert n.queue[1..] == trace[|n.sink| + 1..n.produced];
  }

  lemma HandleKeepsInv(trace: seq<Event>, sess: SessionState, n: Net)
    requires Inv(trace, sess, n) && Enabled(trace, n, Handle)
    ensures Inv(trace, sess, Act(trace, n, Handle))
  {
    Snoc(trace, |n.sink|);
  }

  lemma SendKeepsInv(trace: seq<Event>, sess: SessionState, n: Net)
    requires Inv(trace, sess, n) && Enabled(trace, n, Send)
    ensures Inv(trace, sess, Act(trace, n, Send))
  {
    Snoc(trace, |n.sink|);
  }

  lemma ActKeepsInv(trace: seq<Event>, sess: SessionState, n: Net, a: Action)
    requires Inv(trace, sess, n) && Enabled(trace, n, a)
    ensures Inv(trace, sess, Act(trace, n, a))
  {
    match a {
      case Produce => ProduceKeepsInv(trace, sess, n);
      case Close =>
      case Receive => ReceiveKeepsInv(trace, sess, n);
      case Handle => HandleKeepsInv(trace, sess, n);
      case Send => SendKeepsInv(trace, sess, n);
      case Stop =>
    }
  }

  lemma {:induction false} ScheduleKeepsInv(trace: seq<Event>, sess: SessionState, actions: seq<Action>)
    requires Schedule(trace, Init(sess), actions)
    ensures Inv(trace, sess, Execute(trace, Init(sess), actions))
  {
    if actions != [] {
      ScheduleKeepsInv(trace, sess, Front(actions));
      ActKeepsInv(trace, sess, Execute(trace, Init(sess), Front(actions)), Last(actions));
    }
  }

  /** Steps still to come: every event is produced, received, handled and forwarded. */
  function Remaining(trace: seq<Event>, n: Net): int
  {
    4 * (|trace| - n.produced) + 3 * |n.queue|
    + (if n.closed then 0 else 1)
    + (match n.consumer case Handling(_) => 3 case Forwarding(_) => 2 case Receiving => 1 case Stopped => 0)
  }

  lemma {:induction false} ScheduleLength(trace: seq<Event>, sess: SessionState, actions: seq<Action>)
    requires Schedule(trace, Init(sess), actions)
    ensures |actions| + Remaining(trace, Execute(trace, Init(sess), actions)) == 4 * |trace| + 2
  {
    if actions != [] {
      ScheduleLength(trace, sess, Front(actions));
    }
  }

  /** No interleaving blocks: while the consumer has not stopped, somebody can move. */
  lemma NeverStuck(trace: seq<Event>, sess: SessionState, actions: seq<Action>)
    requires Schedule(trace, Init(sess), actions)
    ensures var n := Execute(trace, Init(sess), actions);
            n.consumer.Stopped? || !Quiescent(trace, n)
  {
    ScheduleKeepsInv(trace, sess, actions);
    var n := Execute(trace, Init(sess), actions);
    match n.consumer {
      case Handling(_) => assert Enabled(trace, n, Handle);
      case Forwarding(_) => assert Enabled(trace, n, Send);
      case Stopped =>
      case Receiving =>
        if n.queue != [] {
          assert Enabled(trace, n, Receive);
        } else if n.produced < |trace| {
          assert Enabled(trace, n, Produce);
        } else if !n.closed {
          assert Enabled(trace, n, Close);
        } else {
          assert Enabled(trace, n, Stop);
        }
    }
  }

  /** Every complete schedule has the same outcome, that of folding the trace sequentially, and takes the
      same number of steps. */
  lemma PipelineIsDeterministic(trace: seq<Event>, sess: SessionState, actions: seq<Action>)
    requires Schedule(trace, Init(sess), actions)
    requires Quiescent(trace, Execute(trace, Init(sess), actions))
    ensures var n := Execute(trace, Init(sess), actions);
            && n.sink == ForwardAll(trace) && n.session == Fold(sess, trace) && n.saved == Saves(sess, trace)
            && |actions| == 4 * |trace| + 2
  {
    var n := Execute(trace, Init(sess), actions);
    NeverStuck(trace, sess, actions);
    ScheduleKeepsInv(trace, sess, actions);
    ScheduleLength(trace, sess, actions);
    StoppedIsDone(trace, sess, n);
  }

  lemma StoppedIsDone(trace: seq<Event>, sess: SessionState, n: Net)
    requires Inv(trace, sess, n) && n.consumer.Stopped?
    ensures n.sink == ForwardAll(trace) && n.session == Fold(sess, trace) && n.saved == Saves(sess, trace)
    ensures Remaining(trace, n) == 0
  {
    assert |n.sink| == |trace|;
    assert trace[..|trace|] == trace;
  }

  lemma {:induction false} NoExitNoSave(sess: SessionState, events: seq<Event>)
    requires forall ev <- events :: !ev.LoopExitEvent?
    ensures Saves(sess, events) == []
  {
    if events != [] {
      assert Last(events) in events;
      NoExitNoSave(sess, Front(events));
    }
  }

  /** Chatting, end to end: for every environment and every interleaving, once both goroutines are done
      the session was saved exactly once, complete with every update, and the sink got the loop's events
      one for one in order, changed only where a cancelled run's error is cleared. */
  lemma ChatIsDeterministic<W(!new)>(env: Env<W>, w: W, initial: seq<Message>, sess: SessionState, actions: seq<Action>)
    requires Schedule(Loop(env, w, initial).events, Init(sess), actions)
    requires Quiescent(Loop(env, w, initial).events, Execute(Loop(env, w, initial).events, Init(sess), actions))
    ensures var trace := Loop(env, w, initial).events;
            var n := Execute(trace, Init(sess), actions);
            && n.session == Fold(sess, trace)
            && n.saved == [n.session]
            && |n.sink| == |trace|
            && (forall i :: 0 <= i < |trace| - 1 ==> n.sink[i] == trace[i])
            && Last(n.sink) == Forward(Last(trace))
  {
    var trace := Loop(env, w, initial).events;
    PipelineIsDeterministic(trace, sess, actions);
    TraceOfLoop(env, w, initial);
    SavedOnce(trace, sess);
  }

  lemma SavedOnce(trace: seq<Event>, sess: SessionState)
    requires SingleExit(trace)
    ensures Saves(sess, trace) == [Fold(sess, trace)]
    ensures forall i :: 0 <= i < |trace| - 1 ==> ForwardAll(trace)[i] == trace[i]
  {
    forall ev | ev in Front(trace) ensures !ev.LoopExitEvent? {
      var i :| 0 <= i < |Front(trace)| && Front(trace)[i] == ev;
      assert ev == trace[i];
    }
    NoExitNoSave(sess, Front(trace));
  }
}
