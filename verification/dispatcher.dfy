/** One run per session (internal/chat/dispatcher.go): every request swaps itself into a map, cancels
    the request it found there, and waits until that one is done. */
module Dispatching {
  import opened Basics
  import opened Totals

  datatype Key = Key(agentID: string, sessionID: string)

  /** A request is named by the number of its thread, as the original names it by a pointer. */
  type Processes = map<Key, nat>

  function Lookup(processes: Processes, key: Key): Option<nat>
  {
    if key in processes then Some(processes[key]) else None
  }

  function Removed(processes: Processes, key: Key, p: nat): Processes
  {
    if Lookup(processes, key) == Some(p) then processes - {key} else processes
  }

  /** The two critical sections of Chat. */
  class Dispatcher {
    var processes: Processes

    constructor ()
      ensures processes == map[]
    {
      processes := map[];
    }

    method Swap(key: Key, p: nat) returns (prev: Option<nat>)
      modifies this
      ensures processes == old(processes)[key := p] && prev == Lookup(old(processes), key)
    {
      prev := None;
      if key in processes {
        prev := Some(processes[key]);
      }
      processes := processes[key := p];
    }

    method Remove(key: Key, p: nat)
      modifies this
      ensures processes == Removed(old(processes), key, p)
    {
      if key in processes && processes[key] == p {
        processes := processes - {key};
      }
    }
  }

  // ----- threads -------------------------------------------------------------------------

  /** Where a thread is. Running is inside Service.Chat; an interrupting thread holds the mutex while it
      is Canceling or Waiting; done is closed on the way from Closing to Removing. */
  datatype PC =
    | Arriving
    | Canceling(prev: nat)
    | Waiting(prev: nat)
    | Running
    | Leaving
    | Closing
    | Removing
    | Returned

  datatype Thread = Chat(key: Key, pc: PC) | Interrupt(key: Key, pc: PC)

  /** lines remembers of each key all requests that ever swapped themselves in, in that order; the
      program has no such variable and no step reads it. */
  datatype State = State(
    threads: map<nat, Thread>, mu: Option<nat>, processes: Processes,
    cancelled: set<nat>, done: set<nat>, lines: map<Key, seq<nat>>)

  function Line(s: State, key: Key): seq<nat>
  {
    if key in s.lines then s.lines[key] else []
  }

  predicate Init(s: State)
  {
    && (forall t <- s.threads :: s.threads[t].pc == Arriving)
    && s.mu == None && s.processes == map[] && s.cancelled == {} && s.done == {} && s.lines == map[]
  }

  /** Can thread t take its next step? Service.Chat is assumed to return. */
  predicate Enabled(s: State, t: nat)
  {
    t in s.threads &&
    match s.threads[t].pc
    case Arriving => s.mu == None
    case Removing => s.mu == None
    case Waiting(prev) => prev in s.done
    case Returned => false
    case _ => true
  }

  function Moved(s: State, t: nat, pc: PC): State
    requires t in s.threads
  {
    var thread := match s.threads[t] case Chat(k, _) => Chat(k, pc) case Interrupt(k, _) => Interrupt(k, pc);
    s.(threads := s.threads[t := thread])
  }

  /** The next step of thread t. */
  function Next(s: State, t: nat): State
    requires Enabled(s, t)
  {
    var th := s.threads[t];
    match th
    case Chat(key, Arriving) =>
      var s1 := s.(processes := s.processes[key := t], lines := s.lines[key := Line(s, key) + [t]]);
      (match Lookup(s.processes, key)
       case Some(prev) => Moved(s1, t, Canceling(prev))
       case None => Moved(s1, t, Running))
    case Chat(_, Canceling(prev)) => Moved(s.(cancelled := s.cancelled + {prev}), t, Waiting(prev))
    case Chat(_, Waiting(_)) => Moved(s, t, Running)
    case Chat(_, Running) => Moved(s, t, Leaving)
    case Chat(_, Leaving) => Moved(s.(cancelled := s.cancelled + {t}), t, Closing)
    case Chat(_, Closing) => Moved(s.(done := s.done + {t}), t, Removing)
    case Chat(key, Removing) => Moved(s.(processes := Removed(s.processes, key, t)), t, Returned)
    case Interrupt(key, Arriving) =>
      (match Lookup(s.processes, key)
       case Some(prev) => Moved(s.(mu := Some(t)), t, Canceling(prev))
       case None => Moved(s, t, Returned))
    case Interrupt(_, Canceling(prev)) => Moved(s.(cancelled := s.cancelled + {prev}), t, Waiting(prev))
    case Interrupt(_, Waiting(_)) => Moved(s.(mu := None), t, Returned)
    case Interrupt(_, _) => s
  }

  // ----- the invariant ------------------------------------------------------------------------

  predicate Started(pc: PC)
  {
    pc.Running? || pc.Leaving? || pc.Closing? || pc.Removing? || pc.Returned?
  }

  predicate Waits(pc: PC)
  {
    pc.Canceling? || pc.Waiting?
  }

  /** Thread t is the j-th request of the line of its key. */
  predicate Stands(s: State, k: Key, j: nat)
    requires j < |Line(s, k)|
  {
    var t := Line(s, k)[j];
    t in s.threads && s.threads[t].Chat? && s.threads[t].key == k && s.threads[t].pc != Arriving
  }

  ghost predicate LinesAreThreads(s: State)
  {
    && (forall k, j :: 0 <= j < |Line(s, k)| ==> Stands(s, k, j))
    && (forall k, i, j :: 0 <= i < j < |Line(s, k)| ==> Line(s, k)[i] != Line(s, k)[j])
    && (forall t :: t in s.threads && s.threads[t].Chat? && s.threads[t].pc != Arriving ==>
          t in Line(s, s.threads[t].key))
  }

  /** The map names the last request of the line; a missing entry means that all are done. */
  ghost predicate MapIsCurrent(s: State)
  {
    && (forall k :: k in s.processes ==> Line(s, k) != [] && s.processes[k] == Last(Line(s, k)))
    && (forall k, j :: k !in s.processes && 0 <= j < |Line(s, k)| ==> Line(s, k)[j] in s.done)
  }

  /** A waiting request waits for its predecessor; a started one has only done ones before it. */
  ghost predicate Ordered(s: State, k: Key, j: nat)
    requires j < |Line(s, k)| && Stands(s, k, j)
  {
    var pc := s.threads[Line(s, k)[j]].pc;
    && (Waits(pc) ==> j > 0 && pc.prev == Line(s, k)[j - 1])
    && (Started(pc) ==> forall i :: 0 <= i < j ==> Line(s, k)[i] in s.done)
  }

  ghost predicate InLine(s: State)
    requires LinesAreThreads(s)
  {
    forall k, j :: 0 <= j < |Line(s, k)| ==> Ordered(s, k, j)
  }

  predicate Signal(s: State, t: nat)
    requires t in s.threads
  {
    var th := s.threads[t];
    && (t in s.done <==> th.Chat? && (th.pc.Removing? || th.pc.Returned?))
    && (t in s.done || (th.Chat? && th.pc.Closing?) ==> t in s.cancelled)
    && (th.pc.Waiting? ==> th.pc.prev in s.cancelled)
  }

  ghost predicate Signals(s: State)
  {
    && s.done <= s.threads.Keys
    && (forall t :: t in s.threads ==> Signal(s, t))
  }

  predicate Holds(s: State, t: nat)
    requires t in s.threads
  {
    var th := s.threads[t];
    th.Interrupt? ==>
      && (Waits(th.pc) <==> s.mu == Some(t))
      && (Waits(th.pc) ==> Lookup(s.processes, th.key) == Some(th.pc.prev))
      && (th.pc.Arriving? || th.pc.Returned? || Waits(th.pc))
  }

  ghost predicate MutexHeld(s: State)
  {
    && (forall t :: t in s.threads ==> Holds(s, t))
    && (s.mu.Some? ==> s.mu.value in s.threads && s.threads[s.mu.value].Interrupt?)
  }

  ghost predicate Inv(s: State)
  {
    LinesAreThreads(s) && MapIsCurrent(s) && InLine(s) && Signals(s) && MutexHeld(s)
  }

  lemma InitInv(s: State)
    requires Init(s)
    ensures Inv(s)
  {
  }

  // ----- steps keep the invariant ---------------------------------------------------------------

  /** A step changes no thread's kind or key, and a line only by the arrival of a request. */
  lemma StepFrame(s: State, t: nat)
    requires Enabled(s, t)
    ensures var s' := Next(s, t);
            && s'.threads.Keys == s.threads.Keys
            && (forall u :: u in s.threads ==>
                  s'.threads[u].Chat? == s.threads[u].Chat? && s'.threads[u].key == s.threads[u].key
                  && (u != t ==> s'.threads[u] == s.threads[u]))
            && s'.threads[t].pc != Arriving
            && (forall k :: Line(s', k) ==
                  if s.threads[t] == Chat(k, Arriving) then Line(s, k) + [t] else Line(s, k))
  {
    StepLine(s, t);
    StepThread(s, t);
  }

  lemma StepThread(s: State, t: nat)
    requires Enabled(s, t)
    ensures exists pc :: Next(s, t).threads == Moved(s, t, pc).threads && pc != Arriving
  {
    var pc := Next(s, t).threads[t].pc;
    assert Next(s, t).threads == Moved(s, t, pc).threads;
  }

  lemma StepLine(s: State, t: nat)
    requires Enabled(s, t)
    ensures Next(s, t).lines ==
            if s.threads[t].Chat? && s.threads[t].pc.Arriving?
            then s.lines[s.threads[t].key := Line(s, s.threads[t].key) + [t]] else s.lines
  {
  }

  lemma StepLines(s: State, t: nat)
    requires Inv(s) && Enabled(s, t)
    ensures LinesAreThreads(Next(s, t))
  {
    var s' := Next(s, t);
    StepFrame(s, t);
    StepStands(s, t);
    StepDistinct(s, t);
  }

  lemma StepStands(s: State, t: nat)
    requires Inv(s) && Enabled(s, t)
    ensures forall k, j :: 0 <= j < |Line(Next(s, t), k)| ==> Stands(Next(s, t), k, j)
  {
    var s' := Next(s, t);
    StepFrame(s, t);
    forall k, j | 0 <= j < |Line(s', k)| ensures Stands(s', k, j) {
      if j < |Line(s, k)| {
        assert Stands(s, k, j);
      }
    }
  }

  lemma StepDistinct(s: State, t: nat)
    requires Inv(s) && Enabled(s, t)
    ensures forall k, i, j :: 0 <= i < j < |Line(Next(s, t), k)| ==> Line(Next(s, t), k)[i] != Line(Next(s, t), k)[j]
  {
    var s' := Next(s, t);
    StepFrame(s, t);
    forall k, i, j | 0 <= i < j < |Line(s', k)| ensures Line(s', k)[i] != Line(s', k)[j] {
      assert Stands(s, k, i);
    }
  }

  /** The only steps that touch the map. */
  lemma StepProcesses(s: State, t: nat)
    requires Enabled(s, t)
    ensures Next(s, t).processes ==
            if s.threads[t].Chat? && s.threads[t].pc.Arriving? then s.processes[s.threads[t].key := t]
            else if s.threads[t].Chat? && s.threads[t].pc.Removing? then Removed(s.processes, s.threads[t].key, t)
            else s.processes
    ensures s.done <= Next(s, t).done
  {
  }

  lemma StepMap(s: State, t: nat)
    requires Inv(s) && Enabled(s, t)
    ensures MapIsCurrent(Next(s, t))
  {
    var s' := Next(s, t);
    StepFrame(s, t);
    StepProcesses(s, t);
    forall k | k in s'.processes ensures Line(s', k) != [] && s'.processes[k] == Last(Line(s', k)) {
      if s.threads[t] != Chat(k, Arriving) {
        assert k in s.processes && s'.processes[k] == s.processes[k];
      }
    }
    forall k, j | k !in s'.processes && 0 <= j < |Line(s', k)| ensures Line(s', k)[j] in s'.done {
      StepMissing(s, t, k, j);
    }
  }

  lemma StepMissing(s: State, t: nat, k: Key, j: nat)
    requires Inv(s) && Enabled(s, t) && k !in Next(s, t).processes && j < |Line(s, k)|
    ensures Line(Next(s, t), k) == Line(s, k) && Line(s, k)[j] in Next(s, t).done
  {
    StepFrame(s, t);
    StepProcesses(s, t);
    if k in s.processes {
      // t has just removed itself: it was the last of its line, done, and so were all before it
      assert Signal(s, t);
      DoneStarted(s, k, |Line(s, k)| - 1);
    }
  }

  lemma DoneStarted(s: State, k: Key, j: nat)
    requires Inv(s) && j < |Line(s, k)| && Line(s, k)[j] in s.done
    ensures forall i :: 0 <= i <= j ==> Line(s, k)[i] in s.done
  {
    assert Stands(s, k, j) && Ordered(s, k, j) && Signal(s, Line(s, k)[j]);
  }

  /** A place that was in the line before the step. */
  lemma OldPlaceOrdered(s: State, t: nat, k: Key, j: nat)
    requires Inv(s) && Enabled(s, t) && j < |Line(s, k)|
    requires Line(s, k) <= Line(Next(s, t), k) && Stands(Next(s, t), k, j)
    ensures Ordered(Next(s, t), k, j)
  {
    var s' := Next(s, t);
    StepProcesses(s, t);
    assert Stands(s, k, j) && Ordered(s, k, j);
    assert forall i :: 0 <= i <= j ==> Line(s', k)[i] == Line(s, k)[i];
    if Line(s, k)[j] == t && s.threads[t].pc.Waiting? {
      DoneStarted(s, k, j - 1);
    }
  }

  /** The place of a request that has just swapped itself in. */
  lemma NewPlaceOrdered(s: State, t: nat, k: Key)
    requires Inv(s) && Enabled(s, t) && s.threads[t] == Chat(k, Arriving)
    requires Line(Next(s, t), k) == Line(s, k) + [t] && Stands(Next(s, t), k, |Line(s, k)|)
    ensures Ordered(Next(s, t), k, |Line(s, k)|)
  {
    var s', j := Next(s, t), |Line(s, k)|;
    assert forall i :: 0 <= i < j ==> Line(s', k)[i] == Line(s, k)[i];
    assert Line(s', k)[j] == t;
  }

  lemma StepInLine(s: State, t: nat)
    requires Inv(s) && Enabled(s, t)
    ensures LinesAreThreads(Next(s, t)) && InLine(Next(s, t))
  {
    StepLines(s, t);
    StepFrame(s, t);
    var s' := Next(s, t);
    forall k, j | 0 <= j < |Line(s', k)| ensures Ordered(s', k, j) {
      assert Stands(s', k, j);
      if j < |Line(s, k)| {
        OldPlaceOrdered(s, t, k, j);
      } else {
        NewPlaceOrdered(s, t, k);
      }
    }
  }

  lemma StepSignals(s: State, t: nat)
    requires Inv(s) && Enabled(s, t)
    ensures Signals(Next(s, t))
  {
    var s' := Next(s, t);
    forall u | u in s'.threads ensures Signal(s', u) {
      assert Signal(s, u);
    }
  }

  lemma StepMutex(s: State, t: nat)
    requires Inv(s) && Enabled(s, t)
    ensures MutexHeld(Next(s, t))
  {
    var s' := Next(s, t);
    assert Holds(s, t);
    forall u | u in s'.threads ensures Holds(s', u) {
      assert Holds(s, u);
    }
  }

  lemma StepKeepsInv(s: State, t: nat)
    requires Inv(s) && Enabled(s, t)
    ensures Inv(Next(s, t))
  {
    StepLines(s, t);
    StepMap(s, t);
    StepInLine(s, t);
    StepSignals(s, t);
    StepMutex(s, t);
  }

  // ----- runs ---------------------------------------------------------------------------------

  /** An interleaving: which thread moves, step by step. */
  predicate Schedule(s: State, ts: seq<nat>)
    decreases |ts|, 0
  {
    ts == [] || (Schedule(s, Front(ts)) && Enabled(Execute(s, Front(ts)), Last(ts)))
  }

  function Execute(s: State, ts: seq<nat>): State
    requires Schedule(s, ts)
    decreases |ts|, 1
  {
    if ts == [] then s else Next(Execute(s, Front(ts)), Last(ts))
  }

  lemma {:induction false} Reachable(s: State, ts: seq<nat>)
    requires Init(s) && Schedule(s, ts)
    ensures Inv(Execute(s, ts))
  {
    if ts == [] {
      InitInv(s);
    } else {
      Reachable(s, Front(ts));
      StepKeepsInv(Execute(s, Front(ts)), Last(ts));
    }
  }

  lemma RunningIsAlone(s: State, k: Key, j: nat)
    requires Inv(s) && j < |Line(s, k)| && Stands(s, k, j) && s.threads[Line(s, k)[j]].pc.Running?
    ensures forall i :: 0 <= i < j ==> Line(s, k)[i] in s.done && Line(s, k)[i] in s.cancelled
    ensures forall b :: b in s.threads && b != Line(s, k)[j] ==> s.threads[b] != Chat(k, Running)
  {
    assert Ordered(s, k, j);
    forall i | 0 <= i < j ensures Line(s, k)[i] in s.cancelled {
      assert Signal(s, Line(s, k)[i]);
    }
    forall b | b in s.threads && b != Line(s, k)[j] ensures s.threads[b] != Chat(k, Running) {
      assert Signal(s, b) && Signal(s, Line(s, k)[j]);
      if s.threads[b].Chat? && s.threads[b].key == k && s.threads[b].pc != Arriving {
        var i :| 0 <= i < |Line(s, k)| && Line(s, k)[i] == b;
        assert Ordered(s, k, i);
      }
    }
  }

  /** At most one request per (agent, session) is inside Service.Chat, and everything that swapped itself
      in before it has been cancelled and is done. */
  lemma OneRunPerSession(init: State, ts: seq<nat>, a: nat) returns (j: nat)
    requires Init(init) && Schedule(init, ts)
    requires var s := Execute(init, ts); a in s.threads && s.threads[a].Chat? && s.threads[a].pc.Running?
    ensures var s := Execute(init, ts);
            var line := Line(s, s.threads[a].key);
            && (forall b :: b in s.threads && b != a ==> s.threads[b] != s.threads[a])
            && j < |line| && line[j] == a
            && forall i :: 0 <= i < j ==> line[i] in s.done && line[i] in s.cancelled
  {
    Reachable(init, ts);
    var s := Execute(init, ts);
    var k := s.threads[a].key;
    j :| 0 <= j < |Line(s, k)| && Line(s, k)[j] == a;
    RunningIsAlone(s, k, j);
  }

  /** A key without an entry has no request left that swapped itself in and is not done. */
  lemma MissingMeansDone(init: State, ts: seq<nat>, a: nat)
    requires Init(init) && Schedule(init, ts)
    requires var s := Execute(init, ts);
             a in s.threads && s.threads[a].Chat? && s.threads[a].pc != Arriving && s.threads[a].key !in s.processes
    ensures a in Execute(init, ts).done && a in Execute(init, ts).cancelled
  {
    Reachable(init, ts);
    var s := Execute(init, ts);
    assert a in Line(s, s.threads[a].key) && Signal(s, a);
  }

  /** When an interruption returns, every request that had swapped itself in for the key is done, and
      nobody could swap in meanwhile. */
  lemma InterruptStopsAll(init: State, ts: seq<nat>, t: nat)
    requires Init(init) && Schedule(init, ts) && Enabled(Execute(init, ts), t)
    requires var s := Execute(init, ts); s.threads[t].Interrupt? && Next(s, t).threads[t].pc.Returned?
    ensures var s, s' := Execute(init, ts), Next(Execute(init, ts), t);
            && Line(s', s.threads[t].key) == Line(s, s.threads[t].key)
            && forall j :: 0 <= j < |Line(s, s.threads[t].key)| ==> Line(s, s.threads[t].key)[j] in s.done
  {
    Reachable(init, ts);
    var s := Execute(init, ts);
    var k := s.threads[t].key;
    assert Holds(s, t);
    if k in s.processes {
      DoneStarted(s, k, |Line(s, k)| - 1);
    }
  }

  // ----- no deadlock --------------------------------------------------------------------------

  /** Somewhere down the line from a request that is not done, a request can move without the mutex. */
  lemma {:induction false} LineMoves(s: State, k: Key, j: nat) returns (t: nat)
    requires Inv(s) && j < |Line(s, k)| && Line(s, k)[j] !in s.done
    ensures Enabled(s, t)
    decreases j
  {
    t := Line(s, k)[j];
    assert Stands(s, k, j) && Ordered(s, k, j) && Signal(s, t);
    if s.threads[t].pc.Waiting? && s.threads[t].pc.prev !in s.done {
      t := LineMoves(s, k, j - 1);
    }
  }

  /** Interrupt waits for a request while it holds the mutex, and requests need the mutex on their way
      out; still, in every reachable state in which some call has not returned, some thread can move. */
  lemma NeverDeadlocked(init: State, ts: seq<nat>, u: nat) returns (t: nat)
    requires Init(init) && Schedule(init, ts)
    requires var s := Execute(init, ts); u in s.threads && s.threads[u].pc != Returned
    ensures Enabled(Execute(init, ts), t)
  {
    Reachable(init, ts);
    var s := Execute(init, ts);
    t := Mover(s, u);
  }

  lemma Mover(s: State, u: nat) returns (t: nat)
    requires Inv(s) && u in s.threads && s.threads[u].pc != Returned
    ensures Enabled(s, t)
  {
    if s.mu.Some? {
      t := s.mu.value;
      assert Holds(s, t);
      if s.threads[t].pc.Waiting? && s.threads[t].pc.prev !in s.done {
        t := LineMoves(s, s.threads[t].key, |Line(s, s.threads[t].key)| - 1);
      }
    } else {
      t := u;
      assert Signal(s, u) && Holds(s, u);
      if s.threads[u].pc.Waiting? && s.threads[u].pc.prev !in s.done {
        var line := Line(s, s.threads[u].key);
        var j :| 0 <= j < |line| && line[j] == u;
        t := LineMoves(s, s.threads[u].key, j);
      }
    }
  }

  /** Steps a thread may still take. */
  function Left(pc: PC): nat
  {
    match pc
    case Arriving => 7
    case Canceling(_) => 6
    case Waiting(_) => 5
    case Running => 4
    case Leaving => 3
    case Closing => 2
    case Removing => 1
    case Returned => 0
  }

  function Lefts(threads: map<nat, Thread>): map<nat, nat>
  {
    map t | t in threads :: Left(threads[t].pc)
  }

  function Work(threads: map<nat, Thread>): nat
  {
    Total(Lefts(threads))
  }

  lemma StepLeft(s: State, t: nat)
    requires Inv(s) && Enabled(s, t)
    ensures t in Next(s, t).threads && Left(Next(s, t).threads[t].pc) < Left(s.threads[t].pc)
  {
    assert Holds(s, t);
  }

  lemma StepWorks(s: State, t: nat)
    requires Inv(s) && Enabled(s, t)
    ensures Work(Next(s, t).threads) < Work(s.threads)
  {
    StepLeft(s, t);
    StepFrame(s, t);
    var before, after := Lefts(s.threads), Lefts(Next(s, t).threads);
    assert after == before[t := after[t]];
    TotalUpdate(before, t, after[t]);
  }

  lemma {:induction false} ScheduleWorks(s: State, ts: seq<nat>)
    requires Init(s) && Schedule(s, ts)
    ensures |ts| + Work(Execute(s, ts).threads) <= Work(s.threads)
  {
    if ts != [] {
      ScheduleWorks(s, Front(ts));
      Reachable(s, Front(ts));
      StepWorks(Execute(s, Front(ts)), Last(ts));
    }
  }

  /** Every interleaving of any number of chats and interruptions is finite, and one that cannot be
      continued has all calls returned, the mutex free and the map empty. */
  lemma AllCallsReturn(s: State, ts: seq<nat>)
    requires Init(s) && Schedule(s, ts)
    ensures |ts| <= Work(s.threads)
    ensures (forall t :: !Enabled(Execute(s, ts), t)) ==>
              && (forall t :: t in s.threads ==>
                    t in Execute(s, ts).threads && Execute(s, ts).threads[t].pc == Returned)
              && Execute(s, ts).mu == None
              && Execute(s, ts).processes == map[]
  {
    ScheduleWorks(s, ts);
    Reachable(s, ts);
    SameThreads(s, ts);
    var e := Execute(s, ts);
    if forall t :: !Enabled(e, t) {
      forall u | u in e.threads ensures e.threads[u].pc == Returned {
        if e.threads[u].pc != Returned {
          var t := Mover(e, u);
        }
      }
      if e.mu.Some? {
        assert Holds(e, e.mu.value);
      }
      QuietMapEmpty(s, ts);
    }
  }

  lemma {:induction false} SameThreads(s: State, ts: seq<nat>)
    requires Schedule(s, ts)
    ensures Execute(s, ts).threads.Keys == s.threads.Keys
  {
    if ts != [] {
      SameThreads(s, Front(ts));
      StepFrame(Execute(s, Front(ts)), Last(ts));
    }
  }

  ghost predicate NamesUnreturned(s: State)
  {
    forall k :: k in s.processes ==>
      s.processes[k] in s.threads && s.threads[s.processes[k]].key == k && s.threads[s.processes[k]].pc != Returned
  }

  lemma StepNames(s: State, t: nat)
    requires Inv(s) && Enabled(s, t) && NamesUnreturned(s)
    ensures NamesUnreturned(Next(s, t))
  {
    StepFrame(s, t);
    StepProcesses(s, t);
    assert Holds(s, t);
    forall k | k in s.processes ensures s.threads[s.processes[k]].Chat? {
      assert Stands(s, k, |Line(s, k)| - 1);
    }
  }

  /** The map only ever names requests that have not returned. */
  lemma {:induction false} QuietMapEmpty(s: State, ts: seq<nat>)
    requires Init(s) && Schedule(s, ts)
    ensures NamesUnreturned(Execute(s, ts))
  {
    if ts != [] {
      QuietMapEmpty(s, Front(ts));
      Reachable(s, Front(ts));
      StepNames(Execute(s, Front(ts)), Last(ts));
    }
  }
}
