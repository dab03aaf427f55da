/** A one-shot that has executed keeps its entry in the service's map (internal/task/service.go:161-168).
    A reload that finds the task active again, with the same configuration, keeps the dead runtime. */
module DeadRuntimes {
  import opened Basics
  import opened Tasks
  import opened Scheduling
  import opened ReloadWindows

  /** The loop of the goroutine has another execution to come. */
  predicate Due(s: State, g: nat)
  {
    g in s.goroutines &&
    (s.goroutines[g].phase.Selecting? || (s.goroutines[g].phase.Executing? && !s.goroutines[g].config.oneshot))
  }

  /** It is the runtime of a one-shot that has been executed. */
  predicate Spent(s: State, g: nat)
  {
    g in s.goroutines && s.goroutines[g].config.oneshot && s.goroutines[g].executions > 0
  }

  lemma CurrentIsDueOrSpent(s: State, n: string)
    requires Inv(s) && s.mu == None && n in s.runtimes
    ensures var g := s.runtimes[n];
            && (Due(s, g) <==> !Spent(s, g))
            && (Spent(s, g) ==> s.goroutines[g].executions == 1)
  {
    var g := s.runtimes[n];
    assert g in s.goroutines && IsCurrent(s, g);
    assert GoroutineInv(s, g);
  }

  // ----- due means that it can be executed --------------------------------------------------------

  lemma StaysSpent(cron: CronSyntax, s: State, a: Action, g: nat)
    requires Enabled(s, a) && g in s.goroutines && !Due(s, g) && (OfGoroutine(a) || MapInv(s))
    ensures var s' := Next(cron, s, a);
            g in s'.goroutines && !Due(s', g) && s'.goroutines[g].executions == s.goroutines[g].executions
  {
    if a.Visit? {
      var started := VisitEffect(cron, s, a.c, a.name);
    } else if !OfGoroutine(a) {
      ReloadMoves(cron, s, a);
    }
  }

  lemma {:induction false} NeverAgain(cron: CronSyntax, init: State, before: seq<Action>, after: seq<Action>, g: nat)
    requires Init(init) && Schedule(cron, init, before) && Schedule(cron, init, before + after)
    requires g in Execute(cron, init, before).goroutines && !Due(Execute(cron, init, before), g)
    ensures var s, s' := Execute(cron, init, before), Execute(cron, init, before + after);
            g in s'.goroutines && !Due(s', g) && s'.goroutines[g].executions == s.goroutines[g].executions
    decreases |after|
  {
    if after == [] {
      assert before + after == before;
    } else {
      FrontOfConcat(before, after);
      NeverAgain(cron, init, before, Front(after), g);
      Reachable(cron, init, before + Front(after));
      StaysSpent(cron, Execute(cron, init, before + Front(after)), Last(after), g);
    }
  }

  /** There is a way to go on in which the task is executed once more. */
  ghost predicate CanExecute(cron: CronSyntax, init: State, before: seq<Action>, g: nat)
    requires Schedule(cron, init, before) && g in Execute(cron, init, before).goroutines
  {
    exists after :: ExecutesIn(cron, init, before, after, g)
  }

  predicate ExecutesIn(cron: CronSyntax, init: State, before: seq<Action>, after: seq<Action>, g: nat)
    requires Schedule(cron, init, before) && g in Execute(cron, init, before).goroutines
  {
    && Schedule(cron, init, before + after) && g in Execute(cron, init, before + after).goroutines
    && Execute(cron, init, before + after).goroutines[g].executions
       > Execute(cron, init, before).goroutines[g].executions
  }

  lemma OneMore(cron: CronSyntax, init: State, actions: seq<Action>, a: Action)
    requires Schedule(cron, init, actions) && Enabled(Execute(cron, init, actions), a)
    ensures Schedule(cron, init, actions + [a])
    ensures Execute(cron, init, actions + [a]) == Next(cron, Execute(cron, init, actions), a)
  {
    assert Front(actions + [a]) == actions;
  }

  /** A goroutine is due exactly if it may execute its task again; one that is not never does. */
  lemma DueMeansCanExecute(cron: CronSyntax, init: State, before: seq<Action>, g: nat)
    requires Init(init) && Schedule(cron, init, before) && g in Execute(cron, init, before).goroutines
    ensures Due(Execute(cron, init, before), g) <==> CanExecute(cron, init, before, g)
  {
    var s := Execute(cron, init, before);
    if Due(s, g) {
      if s.goroutines[g].phase.Selecting? {
        OneMore(cron, init, before, TimerFires(g));
        assert ExecutesIn(cron, init, before, [TimerFires(g)], g);
      } else {
        OneMore(cron, init, before, ExecuteReturns(g));
        OneMore(cron, init, before + [ExecuteReturns(g)], TimerFires(g));
        assert before + [ExecuteReturns(g)] + [TimerFires(g)] == before + [ExecuteReturns(g), TimerFires(g)];
        assert ExecutesIn(cron, init, before, [ExecuteReturns(g), TimerFires(g)], g);
      }
    } else if CanExecute(cron, init, before, g) {
      var after :| ExecutesIn(cron, init, before, after, g);
      NeverAgain(cron, init, before, after, g);
    }
  }

  // ----- what a reload leaves undone ----------------------------------------------------------------

  function ExecutionsOf(s: State, g: nat): nat
  {
    if g in s.goroutines then s.goroutines[g].executions else 0
  }

  /** Behind a reload that began at s0: the snapshot wants the task executed, but its runtime never will
      again, and did not while the reload went on. */
  predicate Neglected(cron: CronSyntax, s0: State, s: State, tasks: TaskMap, n: string)
  {
    && n in tasks && Runs(cron, tasks[n]) && n in s.runtimes
    && !Due(s, s.runtimes[n]) && ExecutionsOf(s, s.runtimes[n]) == ExecutionsOf(s0, s.runtimes[n])
  }

  /** A reload neglects a task if and only if, when it takes the mutex, the task has a runtime with the
      snapshot's very configuration, and that is the runtime of a one-shot that was executed. */
  lemma ReloadNeglects(cron: CronSyntax, init: State, before: seq<Action>, mid: seq<Action>, c: nat,
                       tasks: TaskMap, n: string)
    requires WholeReload(cron, init, before, mid, c, tasks)
    ensures var s0, s' := Execute(cron, init, before), Unlocked(cron, init, before, mid, c);
            Neglected(cron, s0, s', tasks, n) <==> UpToDate(s0, tasks, n) && Spent(s0, s0.runtimes[n])
  {
    var s0, s' := Execute(cron, init, before), Unlocked(cron, init, before, mid, c);
    Reachable(cron, init, before);
    ReloadEnds(cron, init, before, mid, c, tasks, n);
    ReloadKeepsUpToDate(cron, init, before, mid, c, tasks, n);
    if n in s'.runtimes {
      CurrentIsDueOrSpent(s', n);
    }
    if UpToDate(s0, tasks, n) {
      CurrentIsDueOrSpent(s0, n);
    }
    assert n in s'.runtimes && s'.runtimes[n] in s0.goroutines ==> s'.runtimes[n] < s0.next;
  }

  /** Seen from behind: a task of the snapshot is still to be executed if and only if it is runnable and its
      runtime is not that of a one-shot that was executed, be it before or while the reload went on. */
  lemma ReloadSchedules(cron: CronSyntax, init: State, actions: seq<Action>, c: nat, n: string)
    requires Init(init) && Schedule(cron, init, actions)
    requires var s := Execute(cron, init, actions);
             Enabled(s, NextLoop(c)) && s.reloads[c].Starting? && n in s.reloads[c].tasks
    ensures var s := Execute(cron, init, actions);
            var s', cfg := Next(cron, s, NextLoop(c)), s.reloads[c].tasks[n];
            (n in s'.runtimes && Due(s', s'.runtimes[n])) <==>
            Runs(cron, cfg) && !(n in s'.runtimes && Spent(s', s'.runtimes[n]))
  {
    var s := Execute(cron, init, actions);
    ReloadConverges(cron, init, actions, c);
    Reachable(cron, init, actions);
    StepKeepsInv(cron, s, NextLoop(c));
    if n in Next(cron, s, NextLoop(c)).runtimes {
      CurrentIsDueOrSpent(Next(cron, s, NextLoop(c)), n);
    }
  }

  // ----- an input ---------------------------------------------------------------------------------

  const ONCE := TaskConfig("a", "d", ["x"], "@daily", "r", true, true)

  const SNAPSHOT: TaskMap := map["a" := ONCE]

  const ANY_CRON: CronSyntax := s => true

  /** Two reloads, and the task's goroutine if it was started. */
  function At(first: Reload, second: Reload, mu: Option<nat>, phase: Option<Phase>): State
  {
    State(Runtimes(phase), Goroutines(phase), if phase.Some? then 1 else 0, mu, map[0 := first, 1 := second],
          if phase == Some(Gone) then [0] else [])
  }

  function Runtimes(phase: Option<Phase>): map<string, nat>
  {
    if phase.Some? then map["a" := 0] else map[]
  }

  function Goroutines(phase: Option<Phase>): map<nat, Goroutine>
  {
    match phase
    case None => map[]
    case Some(p) => map[0 := Goroutine(ONCE, false, p, if p.Selecting? then 0 else 1)]
  }

  const FRESH: State := At(Ready, Ready, None, None)

  ghost predicate Leads(actions: seq<Action>, s: State)
  {
    Schedule(ANY_CRON, FRESH, actions) && Execute(ANY_CRON, FRESH, actions) == s
  }

  /** One more action of a schedule. */
  lemma Then(actions: seq<Action>, s: State, a: Action, next: State)
    requires Leads(actions, s) && Enabled(s, a) && Next(ANY_CRON, s, a) == next
    ensures Leads(actions + [a], next)
  {
    assert Front(actions + [a]) == actions;
  }

  /** An action that moves the first or the second reload, and maybe the mutex. */
  lemma Moves(actions: seq<Action>, first: Reload, second: Reload, mu: Option<nat>, phase: Option<Phase>,
              a: Action, c: nat, r: Reload, mu': Option<nat>)
    requires Leads(actions, At(first, second, mu, phase)) && c <= 1
    requires Enabled(At(first, second, mu, phase), a)
    requires Next(ANY_CRON, At(first, second, mu, phase), a) == SetReload(At(first, second, mu', phase), c, r)
    ensures Leads(actions + [a], if c == 0 then At(r, second, mu', phase) else At(first, r, mu', phase))
  {
    Then(actions, At(first, second, mu, phase), a, SetReload(At(first, second, mu', phase), c, r));
    SetAt(first, second, mu', phase, c, r);
  }

  lemma SetAt(first: Reload, second: Reload, mu: Option<nat>, phase: Option<Phase>, c: nat, r: Reload)
    requires c <= 1
    ensures SetReload(At(first, second, mu, phase), c, r) ==
            if c == 0 then At(r, second, mu, phase) else At(first, r, mu, phase)
  {
    assert map[0 := first, 1 := second][c := r] == if c == 0 then map[0 := r, 1 := second] else map[0 := first, 1 := r];
  }

  /** Up to the end of the first loop of a reload: the snapshot has the task, so nothing is stopped. */
  lemma FirstReloadLocks() returns (actions: seq<Action>)
    ensures Leads(actions, At(Deleting(SNAPSHOT, {}), Ready, Some(0), None))
  {
    actions := [];
    Moves(actions, Ready, Ready, None, None, Load(0, SNAPSHOT), 0, Loaded(SNAPSHOT), None);
    actions := actions + [Load(0, SNAPSHOT)];
    assert Runtimes(None).Keys == {};
    Moves(actions, Loaded(SNAPSHOT), Ready, None, None, Lock(0), 0, Deleting(SNAPSHOT, {}), Some(0));
    actions := actions + [Lock(0)];
  }

  lemma FirstReloadDiffs() returns (actions: seq<Action>)
    ensures Leads(actions, At(Starting(SNAPSHOT, SNAPSHOT), Ready, Some(0), None))
  {
    var m, mu := SNAPSHOT, Some(0);
    actions := FirstReloadLocks();
    assert m.Keys == {"a"} && {"a"} - {"a"} == {};
    Moves(actions, Deleting(m, {}), Ready, mu, None, NextLoop(0), 0, Diffing(m, {"a"}, map[]), mu);
    actions := actions + [NextLoop(0)];
    Moves(actions, Diffing(m, {"a"}, map[]), Ready, mu, None, Visit(0, "a"), 0, Diffing(m, {}, m), mu);
    actions := actions + [Visit(0, "a")];
    Moves(actions, Diffing(m, {}, m), Ready, mu, None, NextLoop(0), 0, Starting(m, m), mu);
    actions := actions + [NextLoop(0)];
  }

  /** The first reload starts the task. */
  lemma StartOnce() returns (actions: seq<Action>)
    ensures Leads(actions, At(Done, Ready, None, Some(Selecting)))
  {
    var m, mu := SNAPSHOT, Some(0);
    actions := FirstReloadDiffs();
    var before, after := At(Starting(m, m), Ready, mu, None), At(Starting(m, map[]), Ready, mu, Some(Selecting));
    assert Scheduling.Without(m, "a") == map[];
    assert Next(ANY_CRON, before, Visit(0, "a")).runtimes == after.runtimes;
    assert Next(ANY_CRON, before, Visit(0, "a")).goroutines == after.goroutines;
    assert Next(ANY_CRON, before, Visit(0, "a")).reloads == after.reloads;
    Then(actions, before, Visit(0, "a"), after);
    actions := actions + [Visit(0, "a")];
    Moves(actions, Starting(m, map[]), Ready, mu, Some(Selecting), NextLoop(0), 0, Done, None);
    actions := actions + [NextLoop(0)];
  }

  lemma GoroutineMoves(actions: seq<Action>, a: Action, p: Phase, p': Phase)
    requires Leads(actions, At(Done, Ready, None, Some(p)))
    requires Enabled(At(Done, Ready, None, Some(p)), a)
    requires Next(ANY_CRON, At(Done, Ready, None, Some(p)), a).goroutines == Goroutines(Some(p'))
    requires a == TimerFires(0) || a == ExecuteReturns(0) || a == Close(0) || a == Leave(0)
    requires p' == Gone <==> a == Leave(0)
    ensures Leads(actions + [a], At(Done, Ready, None, Some(p')))
  {
    Then(actions, At(Done, Ready, None, Some(p)), a, At(Done, Ready, None, Some(p')));
  }

  /** The task is executed and its goroutine ends. */
  lemma RunOnce() returns (actions: seq<Action>)
    ensures Leads(actions, At(Done, Ready, None, Some(Gone)))
  {
    actions := StartOnce();
    GoroutineMoves(actions, TimerFires(0), Selecting, Executing);
    actions := actions + [TimerFires(0)];
    GoroutineMoves(actions, ExecuteReturns(0), Executing, Looped);
    actions := actions + [ExecuteReturns(0)];
    GoroutineMoves(actions, Close(0), Looped, Closed);
    actions := actions + [Close(0)];
    GoroutineMoves(actions, Leave(0), Closed, Gone);
    actions := actions + [Leave(0)];
  }

  lemma SecondReloadLocks() returns (actions: seq<Action>)
    ensures Leads(actions, At(Done, Deleting(SNAPSHOT, {}), Some(1), Some(Gone)))
  {
    var m, gone := SNAPSHOT, Some(Gone);
    actions := RunOnce();
    Moves(actions, Done, Ready, None, gone, Load(1, m), 1, Loaded(m), None);
    actions := actions + [Load(1, m)];
    assert Runtimes(gone).Keys == {"a"} && {"a"} - {"a"} == {};
    Moves(actions, Done, Loaded(m), None, gone, Lock(1), 1, Deleting(m, {"a"}), Some(1));
    actions := actions + [Lock(1)];
    Moves(actions, Done, Deleting(m, {"a"}), Some(1), gone, Visit(1, "a"), 1, Deleting(m, {}), Some(1));
    actions := actions + [Visit(1, "a")];
  }

  lemma SecondReloadDiffs() returns (actions: seq<Action>)
    ensures Leads(actions, At(Done, Diffing(SNAPSHOT, {}, map[]), Some(1), Some(Gone)))
  {
    var m, mu, gone := SNAPSHOT, Some(1), Some(Gone);
    actions := SecondReloadLocks();
    assert m.Keys == {"a"} && {"a"} - {"a"} == {};
    Moves(actions, Done, Deleting(m, {}), mu, gone, NextLoop(1), 1, Diffing(m, {"a"}, map[]), mu);
    actions := actions + [NextLoop(1)];
    Moves(actions, Done, Diffing(m, {"a"}, map[]), mu, gone, Visit(1, "a"), 1, Diffing(m, {}, map[]), mu);
    actions := actions + [Visit(1, "a")];
  }

  lemma SecondReloadEnds() returns (actions: seq<Action>)
    ensures Leads(actions, At(Done, Done, None, Some(Gone)))
  {
    var m, mu, gone := SNAPSHOT, Some(1), Some(Gone);
    actions := SecondReloadDiffs();
    Moves(actions, Done, Diffing(m, {}, map[]), mu, gone, NextLoop(1), 1, Starting(m, map[]), mu);
    actions := actions + [NextLoop(1)];
    Moves(actions, Done, Starting(m, map[]), mu, gone, NextLoop(1), 1, Done, None);
    actions := actions + [NextLoop(1)];
  }

  /** The task is still, or again, active in the file when the second reload reads it. The reload ends
      with the map it wants, and the only runnable task will never be executed. */
  lemma ReloadCanKeepTheDead() returns (actions: seq<Action>, s: State)
    ensures Init(FRESH) && Schedule(ANY_CRON, FRESH, actions) && s == Execute(ANY_CRON, FRESH, actions)
    ensures 1 in s.reloads && s.reloads[1] == Done && SettledOn(ANY_CRON, s, SNAPSHOT)
    ensures "a" in SNAPSHOT && Runs(ANY_CRON, SNAPSHOT["a"]) && "a" in s.runtimes && !Due(s, s.runtimes["a"])
  {
    actions := SecondReloadEnds();
    s := At(Done, Done, None, Some(Gone));
  }
}
