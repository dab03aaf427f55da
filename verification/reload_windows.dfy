/** What one reload does between its Lock and its Unlock, while goroutines run beside it
    (internal/task/service.go:72-105). */
module ReloadWindows {
  import opened Basics
  import opened Tasks
  import opened Scheduling

  /** The reload holds the mutex, for this snapshot. */
  predicate InReload(s: State, c: nat, tasks: TaskMap)
  {
    c in s.reloads && HoldsMutex(s.reloads[c]) && s.reloads[c].tasks == tasks
  }

  predicate IsOver(s: State, c: nat)
  {
    c in s.reloads && s.reloads[c].Done?
  }

  /** Goroutines stay, with their configuration, and only ever execute more often. */
  ghost predicate Grown(s: State, s': State)
  {
    && s.next <= s'.next
    && forall g :: g in s.goroutines ==>
         && g in s'.goroutines && s'.goroutines[g].config == s.goroutines[g].config
         && s'.goroutines[g].executions >= s.goroutines[g].executions
  }

  /** The name's runtime is the one from before, or it was started since. */
  predicate SameOrNew(s: State, s': State, n: string)
  {
    n in s'.runtimes ==> (n in s.runtimes && s'.runtimes[n] == s.runtimes[n]) || s'.runtimes[n] >= s.next
  }

  lemma StepGrows(cron: CronSyntax, s: State, a: Action)
    requires Inv(s) && Enabled(s, a)
    ensures Grown(s, Next(cron, s, a)) && forall n :: SameOrNew(s, Next(cron, s, a), n)
  {
    if a.Visit? {
      VisitGrows(cron, s, a.c, a.name);
    } else if OfGoroutine(a) {
      GoroutineGrows(cron, s, a);
    } else {
      ReloadMoves(cron, s, a);
    }
  }

  lemma GoroutineGrows(cron: CronSyntax, s: State, a: Action)
    requires Enabled(s, a) && OfGoroutine(a)
    ensures Grown(s, Next(cron, s, a)) && Next(cron, s, a).runtimes == s.runtimes
  {
  }

  lemma ReloadMoves(cron: CronSyntax, s: State, a: Action)
    requires Enabled(s, a) && !OfGoroutine(a) && !a.Visit?
    ensures var s' := Next(cron, s, a);
            && s'.goroutines == s.goroutines && s'.next == s.next
            && (forall n :: n in s'.runtimes ==> n in s.runtimes && s'.runtimes[n] == s.runtimes[n])
  {
  }

  lemma VisitGrows(cron: CronSyntax, s: State, c: nat, name: string)
    requires Inv(s) && Enabled(s, Visit(c, name))
    ensures Grown(s, Next(cron, s, Visit(c, name)))
    ensures forall n :: SameOrNew(s, Next(cron, s, Visit(c, name)), n)
  {
    var started := VisitEffect(cron, s, c, name);
    VisitNext(cron, s, c, name);
  }

  lemma VisitNext(cron: CronSyntax, s: State, c: nat, name: string)
    requires Enabled(s, Visit(c, name))
    ensures Next(cron, s, Visit(c, name)).next >= s.next
  {
  }

  /** While a reload holds the mutex, no other one gets it. */
  lemma WhoMoves(s: State, a: Action, c: nat)
    requires Inv(s) && c in s.reloads && HoldsMutex(s.reloads[c]) && Enabled(s, a)
    ensures s.mu == Some(c)
    ensures OfGoroutine(a) || a.Load? || a == StopReturns(c) || a == NextLoop(c) || (a.Visit? && a.c == c)
  {
    assert ReloadInv(s, c);
    if !OfGoroutine(a) && a.c in s.reloads {
      assert ReloadInv(s, a.c);
    }
  }

  lemma StaysInReload(cron: CronSyntax, s: State, a: Action, c: nat, tasks: TaskMap)
    requires Inv(s) && InReload(s, c, tasks) && Enabled(s, a)
    ensures InReload(Next(cron, s, a), c, tasks) || IsOver(Next(cron, s, a), c)
    ensures OfGoroutine(a) || a.Load? || a == StopReturns(c) || a == NextLoop(c) || (a.Visit? && a.c == c)
  {
    WhoMoves(s, a, c);
    if OfGoroutine(a) {
      QuietGoroutine(cron, s, a);
    } else if !a.Load? {
      HolderStays(cron, s, a, c, tasks);
    }
  }

  lemma HolderStays(cron: CronSyntax, s: State, a: Action, c: nat, tasks: TaskMap)
    requires InReload(s, c, tasks) && Enabled(s, a)
    requires a == StopReturns(c) || a == NextLoop(c) || (a.Visit? && a.c == c)
    ensures InReload(Next(cron, s, a), c, tasks) || IsOver(Next(cron, s, a), c)
  {
  }

  lemma OverStaysOver(cron: CronSyntax, s: State, a: Action, c: nat)
    requires IsOver(s, c) && Enabled(s, a)
    ensures IsOver(Next(cron, s, a), c)
  {
  }

  // ----- an entry that is up to date ----------------------------------------------------------

  /** It is not the one that is being stopped. */
  predicate Safe(s: State, tasks: TaskMap, n: string)
  {
    UpToDate(s, tasks, n) && Stopping(s) != Some(n)
  }

  lemma VisitKeepsSafe(cron: CronSyntax, s: State, c: nat, name: string, tasks: TaskMap, n: string)
    requires Inv(s) && InReload(s, c, tasks) && Enabled(s, Visit(c, name)) && Safe(s, tasks, n)
    ensures Safe(Next(cron, s, Visit(c, name)), tasks, n)
    ensures Next(cron, s, Visit(c, name)).runtimes[n] == s.runtimes[n]
  {
    assert ReloadInv(s, c);
    VisitConfigs(cron, s, c, name, n);
    if s.reloads[c].Starting? {
      assert n != name;
    }
  }

  lemma StepKeepsSafe(cron: CronSyntax, s: State, a: Action, c: nat, tasks: TaskMap, n: string)
    requires Inv(s) && InReload(s, c, tasks) && Enabled(s, a) && Safe(s, tasks, n)
    ensures Safe(Next(cron, s, a), tasks, n) && Next(cron, s, a).runtimes[n] == s.runtimes[n]
  {
    assert ReloadInv(s, c);
    StaysInReload(cron, s, a, c, tasks);
    match a {
      case Visit(_, name) => VisitKeepsSafe(cron, s, c, name, tasks, n);
      case StopReturns(_) => StopKeepsSafe(cron, s, c, tasks, n);
      case NextLoop(_) => NextLoopKeepsSafe(cron, s, c, tasks, n);
      case _ => OthersKeepConfigs(cron, s, a);
    }
  }

  lemma StopKeepsSafe(cron: CronSyntax, s: State, c: nat, tasks: TaskMap, n: string)
    requires s.mu == Some(c) && Enabled(s, StopReturns(c)) && Safe(s, tasks, n)
    ensures Safe(Next(cron, s, StopReturns(c)), tasks, n) && Next(cron, s, StopReturns(c)).runtimes[n] == s.runtimes[n]
  {
  }

  lemma NextLoopKeepsSafe(cron: CronSyntax, s: State, c: nat, tasks: TaskMap, n: string)
    requires s.mu == Some(c) && Enabled(s, NextLoop(c)) && Safe(s, tasks, n)
    ensures Safe(Next(cron, s, NextLoop(c)), tasks, n) && Next(cron, s, NextLoop(c)).runtimes[n] == s.runtimes[n]
  {
  }

  // ----- the window ---------------------------------------------------------------------------

  /** From s0, where the reload takes the mutex, to s. */
  ghost predicate Window(s0: State, s: State, c: nat, tasks: TaskMap, n: string)
  {
    && InReload(s, c, tasks) && Grown(s0, s) && SameOrNew(s0, s, n)
    && (UpToDate(s0, tasks, n) ==> Safe(s, tasks, n) && s.runtimes[n] == s0.runtimes[n])
  }

  lemma WindowStep(cron: CronSyntax, s0: State, s: State, a: Action, c: nat, tasks: TaskMap, n: string)
    requires Inv(s) && Enabled(s, a) && Window(s0, s, c, tasks, n)
    ensures Window(s0, Next(cron, s, a), c, tasks, n) || IsOver(Next(cron, s, a), c)
    ensures var s' := Next(cron, s, a);
            && Grown(s0, s') && SameOrNew(s0, s', n)
            && (UpToDate(s0, tasks, n) ==> UpToDate(s', tasks, n) && s'.runtimes[n] == s0.runtimes[n])
  {
    StaysInReload(cron, s, a, c, tasks);
    StepGrows(cron, s, a);
    GrowsOn(s0, s, Next(cron, s, a), n);
    if UpToDate(s0, tasks, n) {
      StepKeepsSafe(cron, s, a, c, tasks, n);
    }
  }

  lemma GrowsOn(s0: State, s: State, s': State, n: string)
    requires Grown(s0, s) && SameOrNew(s0, s, n) && Grown(s, s') && SameOrNew(s, s', n)
    ensures Grown(s0, s') && SameOrNew(s0, s', n)
  {
  }

  /** The state in which the reload takes the mutex. */
  predicate Locks(s0: State, c: nat, tasks: TaskMap)
  {
    Enabled(s0, Lock(c)) && s0.reloads[c].tasks == tasks
  }

  lemma {:induction false} WindowRun(cron: CronSyntax, init: State, before: seq<Action>, mid: seq<Action>, c: nat,
                                     tasks: TaskMap, n: string)
    requires Init(init) && Schedule(cron, init, before) && Locks(Execute(cron, init, before), c, tasks)
    requires Schedule(cron, init, before + [Lock(c)] + mid)
    ensures var s := Execute(cron, init, before + [Lock(c)] + mid);
            Window(Execute(cron, init, before), s, c, tasks, n) || IsOver(s, c)
    decreases |mid|
  {
    var locked := before + [Lock(c)];
    if mid == [] {
      assert locked + mid == locked && Front(locked) == before;
      Reachable(cron, init, before);
    } else {
      FrontOfConcat(locked, mid);
      WindowRun(cron, init, before, Front(mid), c, tasks, n);
      Reachable(cron, init, locked + Front(mid));
      var s, a := Execute(cron, init, locked + Front(mid)), Last(mid);
      if IsOver(s, c) {
        OverStaysOver(cron, s, a, c);
      } else {
        WindowStep(cron, Execute(cron, init, before), s, a, c, tasks, n);
      }
    }
  }

  /** The schedule of a whole reload, from its Lock to the step behind which it is done. */
  ghost predicate WholeReload(cron: CronSyntax, init: State, before: seq<Action>, mid: seq<Action>, c: nat,
                              tasks: TaskMap)
  {
    && Init(init) && Schedule(cron, init, before) && Locks(Execute(cron, init, before), c, tasks)
    && Schedule(cron, init, before + [Lock(c)] + mid)
    && var s := Execute(cron, init, before + [Lock(c)] + mid);
       Enabled(s, NextLoop(c)) && s.reloads[c].Starting?
  }

  /** The state behind it. */
  function Unlocked(cron: CronSyntax, init: State, before: seq<Action>, mid: seq<Action>, c: nat): State
    requires Schedule(cron, init, before + [Lock(c)] + mid)
    requires Enabled(Execute(cron, init, before + [Lock(c)] + mid), NextLoop(c))
  {
    Next(cron, Execute(cron, init, before + [Lock(c)] + mid), NextLoop(c))
  }

  lemma ReloadEnds(cron: CronSyntax, init: State, before: seq<Action>, mid: seq<Action>, c: nat,
                   tasks: TaskMap, n: string)
    requires WholeReload(cron, init, before, mid, c, tasks)
    ensures var s0, s' := Execute(cron, init, before), Unlocked(cron, init, before, mid, c);
            && SettledOn(cron, s', tasks) && Inv(s') && s'.mu == None && IsOver(s', c)
            && Grown(s0, s') && SameOrNew(s0, s', n)
            && (UpToDate(s0, tasks, n) ==> UpToDate(s', tasks, n) && s'.runtimes[n] == s0.runtimes[n])
  {
    var all := before + [Lock(c)] + mid;
    var s := Execute(cron, init, all);
    WindowRun(cron, init, before, mid, c, tasks, n);
    ReloadConverges(cron, init, all, c);
    Reachable(cron, init, all);
    StepKeepsInv(cron, s, NextLoop(c));
    WindowStep(cron, Execute(cron, init, before), s, NextLoop(c), c, tasks, n);
  }

  /** A reload keeps exactly the runtimes that were up to date when it took the mutex; every other runtime
      it ends with was started by it. */
  lemma ReloadKeepsUpToDate(cron: CronSyntax, init: State, before: seq<Action>, mid: seq<Action>, c: nat,
                            tasks: TaskMap, n: string)
    requires WholeReload(cron, init, before, mid, c, tasks)
    ensures var s0, s' := Execute(cron, init, before), Unlocked(cron, init, before, mid, c);
            && (n in s'.runtimes <==> n in tasks && Runs(cron, tasks[n]))
            && (UpToDate(s0, tasks, n) ==> n in s'.runtimes && s'.runtimes[n] == s0.runtimes[n])
            && (n in s'.runtimes && !UpToDate(s0, tasks, n) ==> s'.runtimes[n] >= s0.next)
  {
    var s0, s' := Execute(cron, init, before), Unlocked(cron, init, before, mid, c);
    ReloadEnds(cron, init, before, mid, c, tasks, n);
    Reachable(cron, init, before);
    if n in s'.runtimes && s'.runtimes[n] < s0.next {
      assert UpToDate(s', tasks, n);
      assert s'.runtimes[n] in s0.goroutines;
    }
  }

  // ----- a reload that finds everything settled -------------------------------------------------

  /** Nothing was started, stopped or asked to stop. */
  ghost predicate Untouched(s: State, s': State)
  {
    && s'.runtimes == s.runtimes && s'.next == s.next && s'.goroutines.Keys == s.goroutines.Keys
    && forall g :: g in s.goroutines ==>
         s'.goroutines[g].canceled == s.goroutines[g].canceled && s'.goroutines[g].config == s.goroutines[g].config
  }

  lemma QuietVisit(cron: CronSyntax, s: State, c: nat, name: string, tasks: TaskMap)
    requires Inv(s) && Converging(cron, s) && InReload(s, c, tasks) && SettledOn(cron, s, tasks)
    requires Stopping(s) == None && Enabled(s, Visit(c, name))
    ensures var s' := Next(cron, s, Visit(c, name));
            Untouched(s, s') && Stopping(s') == None
  {
    assert ReloadInv(s, c) && Treated(cron, s, s.reloads[c], name);
    if name in s.runtimes {
      assert UpToDate(s, tasks, name);
    }
  }

  lemma QuietStep(cron: CronSyntax, s: State, a: Action, c: nat, tasks: TaskMap)
    requires Inv(s) && Converging(cron, s) && InReload(s, c, tasks) && SettledOn(cron, s, tasks)
    requires Stopping(s) == None && Enabled(s, a)
    ensures var s' := Next(cron, s, a);
            && Untouched(s, s') && SettledOn(cron, s', tasks)
            && ((InReload(s', c, tasks) && Stopping(s') == None) || IsOver(s', c))
  {
    assert ReloadInv(s, c);
    StaysInReload(cron, s, a, c, tasks);
    match a {
      case Visit(_, name) => QuietVisit(cron, s, c, name, tasks);
      case _ => OtherQuietStep(cron, s, a, c);
    }
    SettledStays(cron, s, Next(cron, s, a), tasks);
  }

  lemma OtherQuietStep(cron: CronSyntax, s: State, a: Action, c: nat)
    requires Inv(s) && s.mu == Some(c) && c in s.reloads && Stopping(s) == None && Enabled(s, a)
    requires OfGoroutine(a) || a.Load? || a == StopReturns(c) || a == NextLoop(c)
    ensures Untouched(s, Next(cron, s, a)) && (Next(cron, s, a).mu == None || Stopping(Next(cron, s, a)) == None)
  {
    if OfGoroutine(a) {
      QuietGoroutine(cron, s, a);
    }
  }

  lemma QuietGoroutine(cron: CronSyntax, s: State, a: Action)
    requires Enabled(s, a) && OfGoroutine(a)
    ensures Untouched(s, Next(cron, s, a))
    ensures Next(cron, s, a).mu == s.mu && Next(cron, s, a).reloads == s.reloads
  {
  }

  lemma SettledStays(cron: CronSyntax, s: State, s': State, tasks: TaskMap)
    requires SettledOn(cron, s, tasks) && Untouched(s, s')
    ensures SettledOn(cron, s', tasks)
  {
    forall n ensures ConfigOf(s', n) == ConfigOf(s, n) {
    }
    forall n | n in s'.runtimes ensures UpToDate(s', tasks, n) {
      assert UpToDate(s, tasks, n);
    }
  }

  lemma {:induction false} QuietRun(cron: CronSyntax, init: State, before: seq<Action>, mid: seq<Action>, c: nat,
                                    tasks: TaskMap)
    requires Init(init) && Schedule(cron, init, before) && Locks(Execute(cron, init, before), c, tasks)
    requires Schedule(cron, init, before + [Lock(c)] + mid) && SettledOn(cron, Execute(cron, init, before), tasks)
    ensures var s0, s := Execute(cron, init, before), Execute(cron, init, before + [Lock(c)] + mid);
            || IsOver(s, c)
            || (InReload(s, c, tasks) && Untouched(s0, s) && SettledOn(cron, s, tasks) && Stopping(s) == None)
    decreases |mid|
  {
    var locked := before + [Lock(c)];
    var s0 := Execute(cron, init, before);
    if mid == [] {
      assert locked + mid == locked && Front(locked) == before;
      SettledStays(cron, s0, Execute(cron, init, locked), tasks);
    } else {
      FrontOfConcat(locked, mid);
      QuietRun(cron, init, before, Front(mid), c, tasks);
      Reachable(cron, init, locked + Front(mid));
      AlwaysConverging(cron, init, locked + Front(mid));
      var s, a := Execute(cron, init, locked + Front(mid)), Last(mid);
      if IsOver(s, c) {
        OverStaysOver(cron, s, a, c);
      } else {
        QuietStep(cron, s, a, c, tasks);
      }
    }
  }

  /** A reload that finds just what its snapshot asks for, as a second one of the same snapshot does,
      starts and stops nothing, whatever the goroutines do meanwhile. */
  lemma SettledReloadDoesNothing(cron: CronSyntax, init: State, before: seq<Action>, mid: seq<Action>, c: nat,
                                 tasks: TaskMap)
    requires WholeReload(cron, init, before, mid, c, tasks) && SettledOn(cron, Execute(cron, init, before), tasks)
    ensures Untouched(Execute(cron, init, before), Unlocked(cron, init, before, mid, c))
  {
    var all := before + [Lock(c)] + mid;
    QuietRun(cron, init, before, mid, c, tasks);
    Reachable(cron, init, all);
    AlwaysConverging(cron, init, all);
    QuietStep(cron, Execute(cron, init, all), NextLoop(c), c, tasks);
  }
}
