/** How long a reload can take that holds the mutex (internal/task/service.go:72-127): not longer than the
    timers let it. */
module ReloadReturns {
  import opened Basics
  import opened Totals
  import opened Tasks
  import opened Scheduling
  import opened ReloadWindows

  /** Steps a goroutine can take without a timer. */
  function LeftOf(p: Phase): nat
  {
    match p
    case Executing => 4
    case Selecting => 3
    case Looped => 2
    case Closed => 1
    case Gone => 0
  }

  /** Steps a reload can take, with those of the goroutines it can start. */
  function LeftOfReload(r: Reload): nat
  {
    match r
    case Ready => 1
    case Loaded(_) => 0
    case Deleting(tasks, todo) => 3 + 6 * |tasks| + 2 * |todo|
    case StoppingDeleted(tasks, todo, _) => 4 + 6 * |tasks| + 2 * |todo|
    case Diffing(_, todo, candidates) => 2 + 4 * |candidates| + 6 * |todo|
    case StoppingChanged(_, todo, candidates, _) => 3 + 4 * |candidates| + 6 * |todo|
    case Starting(_, candidates) => 1 + 4 * |candidates|
    case Done => 0
  }

  function GoroutinesLeft(goroutines: map<nat, Goroutine>): map<nat, nat>
  {
    map g | g in goroutines :: LeftOf(goroutines[g].phase)
  }

  function ReloadsLeft(reloads: map<nat, Reload>): map<nat, nat>
  {
    map c | c in reloads :: LeftOfReload(reloads[c])
  }

  function StepsLeft(s: State): nat
  {
    Total(GoroutinesLeft(s.goroutines)) + Total(ReloadsLeft(s.reloads))
  }

  function Timers(actions: seq<Action>): nat
  {
    if actions == [] then 0 else Timers(Front(actions)) + (if Last(actions).TimerFires? then 1 else 0)
  }

  lemma ReloadTotal(s: State, s': State, c: nat)
    requires c in s.reloads && c in s'.reloads && s'.reloads == s.reloads[c := s'.reloads[c]]
    ensures Total(ReloadsLeft(s'.reloads)) + LeftOfReload(s.reloads[c])
         == Total(ReloadsLeft(s.reloads)) + LeftOfReload(s'.reloads[c])
  {
    assert ReloadsLeft(s'.reloads) == ReloadsLeft(s.reloads)[c := LeftOfReload(s'.reloads[c])];
    TotalUpdate(ReloadsLeft(s.reloads), c, LeftOfReload(s'.reloads[c]));
  }

  /** A goroutine steps, or is new. */
  lemma GoroutineTotal(before: map<nat, Goroutine>, g: nat, r: Goroutine)
    ensures Total(GoroutinesLeft(before[g := r])) + (if g in before then LeftOf(before[g].phase) else 0)
         == Total(GoroutinesLeft(before)) + LeftOf(r.phase)
  {
    assert GoroutinesLeft(before[g := r]) == GoroutinesLeft(before)[g := LeftOf(r.phase)];
    TotalUpdate(GoroutinesLeft(before), g, LeftOf(r.phase));
  }

  lemma GoroutineSteps(cron: CronSyntax, s: State, a: Action)
    requires Enabled(s, a) && OfGoroutine(a)
    ensures StepsLeft(Next(cron, s, a)) + 1 <= StepsLeft(s) + (if a.TimerFires? then 2 else 0)
  {
    var s' := Next(cron, s, a);
    GoroutineTotal(s.goroutines, a.g, s'.goroutines[a.g]);
    assert s'.goroutines == s.goroutines[a.g := s'.goroutines[a.g]] && s'.reloads == s.reloads;
  }

  lemma OneName(todo: set<string>, name: string)
    requires name in todo
    ensures |todo - {name}| == |todo| - 1
  {
  }

  lemma OneCandidate(candidates: TaskMap, name: string, cfg: TaskConfig)
    ensures |candidates[name := cfg]| <= |candidates| + 1
    ensures name in candidates ==> |candidates - {name}| == |candidates| - 1
  {
    assert candidates[name := cfg].Keys == candidates.Keys + {name};
    assert (candidates - {name}).Keys == candidates.Keys - {name};
  }

  /** What a visit may make of its reload. */
  predicate Visited(r: Reload, r': Reload, name: string)
  {
    match r
    case Deleting(tasks, todo) =>
      r' == Deleting(tasks, todo - {name}) || r' == StoppingDeleted(tasks, todo - {name}, name)
    case Diffing(tasks, todo, candidates) =>
      || r' == Diffing(tasks, todo - {name}, candidates)
      || (name in tasks && r' == Diffing(tasks, todo - {name}, candidates[name := tasks[name]]))
      || (name in tasks && r' == StoppingChanged(tasks, todo - {name}, candidates[name := tasks[name]], name))
    case Starting(tasks, candidates) => r' == Starting(tasks, candidates - {name})
    case _ => false
  }

  lemma VisitVisits(cron: CronSyntax, s: State, c: nat, name: string)
    requires Enabled(s, Visit(c, name))
    ensures var s' := Next(cron, s, Visit(c, name));
            && c in s'.reloads && Visited(s.reloads[c], s'.reloads[c], name)
            && s'.reloads == s.reloads[c := s'.reloads[c]]
  {
  }

  lemma VisitedGoesDown(r: Reload, r': Reload, name: string)
    requires Visited(r, r', name)
    requires match r
             case Deleting(_, todo) => name in todo
             case Diffing(_, todo, _) => name in todo
             case Starting(_, candidates) => name in candidates
             case _ => false
    ensures LeftOfReload(r') + (if r.Starting? then 4 else 1) <= LeftOfReload(r)
  {
    match r {
      case Deleting(_, todo) => OneName(todo, name);
      case Diffing(tasks, todo, candidates) =>
        OneName(todo, name);
        if name in tasks {
          OneCandidate(candidates, name, tasks[name]);
        }
      case Starting(_, candidates) => OneCandidate(candidates, name, candidates[name]);
    }
  }

  lemma VisitGoroutines(cron: CronSyntax, s: State, c: nat, name: string)
    requires Inv(s) && Enabled(s, Visit(c, name))
    ensures var s' := Next(cron, s, Visit(c, name));
            Total(GoroutinesLeft(s'.goroutines))
            <= Total(GoroutinesLeft(s.goroutines)) + (if s.reloads[c].Starting? then 3 else 0)
  {
    if s.reloads[c].Starting? {
      StartGoroutines(cron, s, s.reloads[c].candidates[name]);
    } else {
      CancelGoroutines(s, name);
    }
  }

  lemma StartGoroutines(cron: CronSyntax, s: State, cfg: TaskConfig)
    requires MapInv(s)
    ensures Total(GoroutinesLeft(Start(cron, s, cfg).goroutines)) <= Total(GoroutinesLeft(s.goroutines)) + 3
  {
    GoroutineTotal(s.goroutines, s.next, Goroutine(cfg, false, Selecting, 0));
  }

  lemma CancelGoroutines(s: State, name: string)
    ensures GoroutinesLeft(Cancel(s, name).goroutines) == GoroutinesLeft(s.goroutines)
  {
  }

  /** The other moves of reloads. */
  predicate Moved(r: Reload, r': Reload)
  {
    match r
    case Ready => r'.Loaded?
    case StoppingDeleted(tasks, todo, _) => r' == Deleting(tasks, todo)
    case StoppingChanged(tasks, todo, candidates, _) => r' == Diffing(tasks, todo, candidates)
    case Deleting(tasks, todo) => r' == Diffing(tasks, tasks.Keys, map[])
    case Diffing(tasks, todo, candidates) => r' == Starting(tasks, candidates)
    case Starting(_, _) => r' == Done
    case _ => false
  }

  lemma ReloadMovesSo(cron: CronSyntax, s: State, a: Action)
    requires Enabled(s, a) && (a.Load? || a.StopReturns? || a.NextLoop?)
    ensures var s' := Next(cron, s, a);
            && a.c in s.reloads && a.c in s'.reloads && Moved(s.reloads[a.c], s'.reloads[a.c])
            && s'.reloads == s.reloads[a.c := s'.reloads[a.c]] && s'.goroutines == s.goroutines
  {
  }

  lemma MovedGoesDown(r: Reload, r': Reload)
    requires Moved(r, r')
    ensures LeftOfReload(r') + 1 <= LeftOfReload(r)
  {
    if r.Deleting? {
      assert |r.tasks.Keys| == |r.tasks|;
    }
  }

  lemma StepsGoDown(cron: CronSyntax, s: State, a: Action, c: nat)
    requires Inv(s) && c in s.reloads && HoldsMutex(s.reloads[c]) && Enabled(s, a)
    ensures StepsLeft(Next(cron, s, a)) + 1 <= StepsLeft(s) + (if a.TimerFires? then 2 else 0)
  {
    WhoMoves(s, a, c);
    var s' := Next(cron, s, a);
    if OfGoroutine(a) {
      GoroutineSteps(cron, s, a);
    } else if a.Visit? {
      VisitSteps(cron, s, a.c, a.name);
    } else {
      ReloadMovesSo(cron, s, a);
      MovedGoesDown(s.reloads[a.c], s'.reloads[a.c]);
      ReloadTotal(s, s', a.c);
    }
  }

  lemma VisitSteps(cron: CronSyntax, s: State, c: nat, name: string)
    requires Inv(s) && Enabled(s, Visit(c, name))
    ensures StepsLeft(Next(cron, s, Visit(c, name))) + 1 <= StepsLeft(s)
  {
    var s' := Next(cron, s, Visit(c, name));
    VisitVisits(cron, s, c, name);
    VisitedGoesDown(s.reloads[c], s'.reloads[c], name);
    VisitGoroutines(cron, s, c, name);
    ReloadTotal(s, s', c);
  }

  lemma {:induction false} StepsOfHolder(cron: CronSyntax, init: State, before: seq<Action>, after: seq<Action>, c: nat)
    requires Init(init) && Schedule(cron, init, before) && Schedule(cron, init, before + after)
    requires c in Execute(cron, init, before).reloads && HoldsMutex(Execute(cron, init, before).reloads[c])
    ensures var s0, s := Execute(cron, init, before), Execute(cron, init, before + after);
            || IsOver(s, c)
            || (c in s.reloads && HoldsMutex(s.reloads[c])
                && |after| + StepsLeft(s) <= StepsLeft(s0) + 2 * Timers(after))
    decreases |after|
  {
    if after == [] {
      assert before + after == before;
    } else {
      FrontOfConcat(before, after);
      StepsOfHolder(cron, init, before, Front(after), c);
      Reachable(cron, init, before + Front(after));
      var s, a := Execute(cron, init, before + Front(after)), Last(after);
      if IsOver(s, c) {
        OverStaysOver(cron, s, a, c);
      } else {
        StaysInReload(cron, s, a, c, s.reloads[c].tasks);
        StepsGoDown(cron, s, a, c);
      }
    }
  }

  /** A reload that holds the mutex returns: any way of going on that is longer than the bound, with two
      steps more for each timer that fires, has it done. Without timers the bound depends on nothing but
      the state. */
  lemma ReloadReturnsInTime(cron: CronSyntax, init: State, before: seq<Action>, after: seq<Action>, c: nat)
    requires Init(init) && Schedule(cron, init, before) && Schedule(cron, init, before + after)
    requires c in Execute(cron, init, before).reloads && HoldsMutex(Execute(cron, init, before).reloads[c])
    requires |after| > StepsLeft(Execute(cron, init, before)) + 2 * Timers(after)
    ensures IsOver(Execute(cron, init, before + after), c)
  {
    StepsOfHolder(cron, init, before, after, c);
  }
}
