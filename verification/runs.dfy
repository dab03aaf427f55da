/** Reasoning about whole runs of the loop, for any turn function. */
module Runs {
  import opened Basics
  import opened Runtime

  /** The state after k turns, if none of them ended the run. */
  function After<W>(turn: State<W> -> Step<W>, s: State<W>, k: nat): Option<State<W>>
  {
    if k == 0 then Some(s) else
    match After(turn, s, k - 1)
    case None => None
    case Some(p) => if turn(p).exited then None else Some(turn(p).state)
  }

  /** The events of the first k turns. */
  function Sent<W>(turn: State<W> -> Step<W>, s: State<W>, k: nat): seq<Event>
  {
    if k == 0 then [] else
    match After(turn, s, k - 1)
    case None => Sent(turn, s, k - 1)
    case Some(p) => Sent(turn, s, k - 1) + turn(p).events
  }

  lemma {:induction false} AfterShift<W>(turn: State<W> -> Step<W>, s: State<W>, k: nat)
    ensures After(turn, s, k + 1) == if turn(s).exited then None else After(turn, turn(s).state, k)
    ensures Sent(turn, s, k + 1) == turn(s).events + (if turn(s).exited then [] else Sent(turn, turn(s).state, k))
  {
    if k == 0 {
      assert After(turn, s, 0) == Some(s);
    } else {
      AfterShift(turn, s, k - 1);
      if !turn(s).exited {
        var rest := Sent(turn, turn(s).state, k - 1);
        match After(turn, turn(s).state, k - 1) {
          case None =>
          case Some(p) =>
            assert (turn(s).events + rest) + turn(p).events == turn(s).events + (rest + turn(p).events);
        }
      }
    }
  }

  /** How a run ends: by an exiting turn after k others, or with the turn limit after all of them. */
  lemma {:induction false} RunEnds<W>(turn: State<W> -> Step<W>, s: State<W>, turns: nat)
    returns (k: nat, last: State<W>)
    ensures k <= turns && After(turn, s, k) == Some(last)
    ensures if k == turns
            then Run(turn, s, turns).events == Sent(turn, s, k) + [LoopExitEvent(Some(MaxTurnsExceeded))]
                 && Run(turn, s, turns).state == last
            else turn(last).exited && Run(turn, s, turns).events == Sent(turn, s, k) + turn(last).events
                 && Run(turn, s, turns).state == turn(last).state
    decreases turns
  {
    if turns == 0 || turn(s).exited {
      k, last := 0, s;
      assert Run(turn, s, turns).events == [] + Run(turn, s, turns).events;
    } else {
      k, last := RunEnds(turn, turn(s).state, turns - 1);
      AfterShift(turn, s, k);
      var sent := Sent(turn, turn(s).state, k);
      var rest := Run(turn, turn(s).state, turns - 1);
      assert forall e: seq<Event> :: (turn(s).events + sent) + e == turn(s).events + (sent + e);
      k := k + 1;
    }
  }

  /** Some turn of the run meets a condition. */
  ghost predicate SomeTurn<W>(turn: State<W> -> Step<W>, holds: State<W> -> bool, s: State<W>, turns: nat)
  {
    exists k: nat :: k < turns && HoldsAfter(turn, holds, s, k)
  }

  predicate HoldsAfter<W>(turn: State<W> -> Step<W>, holds: State<W> -> bool, s: State<W>, k: nat)
  {
    After(turn, s, k).Some? && holds(After(turn, s, k).value)
  }

  /** Before the turn a run ends with, no turn exits. */
  lemma NotTheLast<W>(turn: State<W> -> Step<W>, s: State<W>, turns: nat, j: nat, k: nat)
    requires j < turns && j != k && k <= turns && After(turn, s, j).Some? && After(turn, s, k).Some?
    requires k < turns ==> turn(After(turn, s, k).value).exited
    ensures !turn(After(turn, s, j).value).exited
  {
    if j < k {
      StillRunning(turn, s, j + 1, k);
    } else {
      StillRunning(turn, s, k + 1, j);
    }
  }

  lemma {:induction false} StillRunning<W>(turn: State<W> -> Step<W>, s: State<W>, j: nat, k: nat)
    requires j <= k && After(turn, s, k).Some?
    ensures After(turn, s, j).Some?
  {
    if j < k {
      StillRunning(turn, s, j, k - 1);
    }
  }

  /** What every turn keeps holds after any number of turns. */
  lemma {:induction false} AfterKeeps<W>(turn: State<W> -> Step<W>, inv: State<W> -> bool, s: State<W>, k: nat)
    requires inv(s)
    requires forall p :: inv(p) && !turn(p).exited ==> inv(turn(p).state)
    ensures After(turn, s, k).Some? ==> inv(After(turn, s, k).value)
  {
    if k > 0 {
      AfterKeeps(turn, inv, s, k - 1);
    }
  }
}
