/** What the setting max_turns means for a run (internal/runtime/loop.go:37, 109, 257-269). */
module TurnLimits {
  import opened Basics
  import opened Messages
  import opened Runtime
  import opened Runs
  import opened Costs

  /** How many turns the model's settings allow: none for a negative number, a hundred if they give none. */
  predicate Allow(settings: map<string, Setting>, turns: nat)
  {
    if "max_turns" in settings && settings["max_turns"].IntSetting?
    then turns == (if settings["max_turns"].value < 0 then 0 else settings["max_turns"].value)
    else turns == 100
  }

  lemma AllowedTurns(settings: map<string, Setting>, turns: nat)
    ensures Allow(settings, turns) <==> turns == Turns(settings)
  {
  }

  ghost predicate ReachesLimit<W>(run: Step<W>)
  {
    run.events != [] && Last(run.events) == LoopExitEvent(Some(MaxTurnsExceeded))
  }

  /** No turn by itself ends with the error of the turn limit. */
  lemma TurnIsNotTheLimit<W>(env: Env<W>, s: State<W>)
    ensures Turn(env, s).exited ==> Turn(env, s).events != [] && !ReachesLimit(Turn(env, s))
  {
  }

  /** The run is k turns that go on and one that ends it. */
  ghost predicate EndsAfter<W>(turn: State<W> -> Step<W>, s: State<W>, k: nat, run: Step<W>)
  {
    var last := After(turn, s, k);
    && last.Some? && turn(last.value).exited && run.state == turn(last.value).state
    && run.events == Sent(turn, s, k) + turn(last.value).events
  }

  /** The run is all the turns allowed and the error of the turn limit, exactly if none of these turns ends
      it. Otherwise an earlier turn does. */
  ghost predicate EndsInTime<W>(turn: State<W> -> Step<W>, s: State<W>, turns: nat, run: Step<W>)
  {
    var after := After(turn, s, turns);
    && (ReachesLimit(run) <==> after.Some?)
    && (after.Some? ==>
          && run.state == after.value
          && run.events == Sent(turn, s, turns) + [LoopExitEvent(Some(MaxTurnsExceeded))])
    && (after == None ==> exists k: nat :: k < turns && EndsAfter(turn, s, k, run))
  }

  lemma RunEndsInTime<W(!new)>(turn: State<W> -> Step<W>, s: State<W>, turns: nat)
    requires forall p: State<W> :: turn(p).exited ==> turn(p).events != [] && !ReachesLimit(turn(p))
    ensures EndsInTime(turn, s, turns, Run(turn, s, turns))
  {
    var k, last := RunEnds(turn, s, turns);
    if k < turns {
      EndsInLast(Sent(turn, s, k), turn(last).events);
      if After(turn, s, turns).Some? {
        StillRunning(turn, s, k + 1, turns);
      }
      assert EndsAfter(turn, s, k, Run(turn, s, turns));
    }
  }

  lemma EndsInLast(a: seq<Event>, b: seq<Event>)
    requires b != []
    ensures a + b != [] && Last(a + b) == Last(b)
  {
  }

  /** For the number of turns that the settings allow, whatever model, tools and hooks do. */
  lemma LimitReached<W(!new)>(env: Env<W>, w: W, initial: seq<Message>, turns: nat)
    requires Allow(env.settings, turns)
    ensures EndsInTime(TurnOf(env), Start(w, initial), turns, Loop(env, w, initial))
  {
    AllowedTurns(env.settings, turns);
    forall p: State<W> | TurnOf(env)(p).exited
      ensures TurnOf(env)(p).events != [] && !ReachesLimit(TurnOf(env)(p))
    {
      TurnIsNotTheLimit(env, p);
    }
    RunEndsInTime(TurnOf(env), Start(w, initial), turns);
  }

  /** However often max_turns or the limit of a hundred turns allows, the model is called at most twice for
      each turn. */
  lemma ModelCallsAllowed<W(!new)>(env: Env<W>, calls: W -> nat, w: W, initial: seq<Message>)
    requires Metered(env, calls, 1, 0, 0)
    ensures var made := calls(Loop(env, w, initial).state.world) - calls(w);
            if "max_turns" in env.settings && env.settings["max_turns"].IntSetting?
            then made <= 2 * (if env.settings["max_turns"].value < 0 then 0 else env.settings["max_turns"].value)
            else made <= 200
  {
    ModelCallsBounded(env, calls);
    TimesIsProduct(Turns(env.settings), 2);
    assert calls(Loop(env, w, initial).state.world) <= calls(w) + Times(Turns(env.settings), 2);
  }
}
