/** The scheduler as concurrent goroutines (internal/task/service.go:62-188): reloads that stop and start
    runtimes under the service mutex, and the runtimes' own goroutines, which take the same mutex on
    their way out. Snapshots of the task file are arbitrary, and so are the moments at which timers fire
    and executions return. */
module Scheduling {
  import opened Basics
  import opened Tasks

  /** A runtime's goroutine: in the select of runLoop, inside onExecute, behind runLoop, behind
      close(stopped), gone. executions counts the calls of onExecute. */
  datatype Phase = Selecting | Executing | Looped | Closed | Gone

  datatype Goroutine = Goroutine(config: TaskConfig, canceled: bool, phase: Phase, executions: nat)

  /** Where a call of Reload is. From Deleting to Starting it holds the mutex; todo are the names of the
      current loop that are still to be visited; a stopping reload waits for the runtime's stopped channel. */
  datatype Reload =
    | Ready
    | Loaded(tasks: TaskMap)
    | Deleting(tasks: TaskMap, todo: set<string>)
    | StoppingDeleted(tasks: TaskMap, todo: set<string>, name: string)
    | Diffing(tasks: TaskMap, todo: set<string>, candidates: TaskMap)
    | StoppingChanged(tasks: TaskMap, todo: set<string>, candidates: TaskMap, name: string)
    | Starting(tasks: TaskMap, candidates: TaskMap)
    | Done

  /** saved lists the runtimes whose goroutine has switched its task off. */
  datatype State = State(
    runtimes: map<string, nat>, goroutines: map<nat, Goroutine>, next: nat,
    mu: Option<nat>, reloads: map<nat, Reload>, saved: seq<nat>)

  datatype Action =
    | Load(c: nat, snapshot: TaskMap)
    | Lock(c: nat)
    | Visit(c: nat, name: string)
    | StopReturns(c: nat)
    | NextLoop(c: nat)
    | TimerFires(g: nat)
    | SeesCancel(g: nat)
    | ExecuteReturns(g: nat)
    | Close(g: nat)
    | Leave(g: nat)

  predicate Init(s: State)
  {
    && s.runtimes == map[] && s.goroutines == map[] && s.next == 0 && s.mu == None && s.saved == []
    && forall c <- s.reloads :: s.reloads[c] == Ready
  }

  predicate IsStopped(s: State, name: string)
  {
    name in s.runtimes && s.runtimes[name] in s.goroutines
    && (s.goroutines[s.runtimes[name]].phase.Closed? || s.goroutines[s.runtimes[name]].phase.Gone?)
  }

  predicate InPhase(s: State, g: nat, p: Phase)
  {
    g in s.goroutines && s.goroutines[g].phase == p
  }

  predicate Enabled(s: State, a: Action)
  {
    match a
    case Load(c, _) => c in s.reloads && s.reloads[c].Ready?
    case Lock(c) => c in s.reloads && s.reloads[c].Loaded? && s.mu == None
    case Visit(c, name) =>
      c in s.reloads &&
      (match s.reloads[c]
       case Deleting(_, todo) => name in todo
       case Diffing(_, todo, _) => name in todo
       case Starting(_, candidates) => name in candidates
       case _ => false)
    case StopReturns(c) =>
      c in s.reloads &&
      (match s.reloads[c]
       case StoppingDeleted(_, _, name) => IsStopped(s, name)
       case StoppingChanged(_, _, _, name) => IsStopped(s, name)
       case _ => false)
    case NextLoop(c) =>
      c in s.reloads &&
      (match s.reloads[c]
       case Deleting(_, todo) => todo == {}
       case Diffing(_, todo, _) => todo == {}
       case Starting(_, candidates) => candidates == map[]
       case _ => false)
    case TimerFires(g) => InPhase(s, g, Selecting)
    case SeesCancel(g) => InPhase(s, g, Selecting) && s.goroutines[g].canceled
    case ExecuteReturns(g) => InPhase(s, g, Executing)
    case Close(g) => InPhase(s, g, Looped)
    case Leave(g) => InPhase(s, g, Closed) && s.mu == None
  }

  function SetReload(s: State, c: nat, r: Reload): State
  {
    s.(reloads := s.reloads[c := r])
  }

  function SetPhase(s: State, g: nat, p: Phase): State
    requires g in s.goroutines
  {
    s.(goroutines := s.goroutines[g := s.goroutines[g].(phase := p)])
  }

  function Cancel(s: State, name: string): State
  {
    if name in s.runtimes && s.runtimes[name] in s.goroutines then
      var g := s.runtimes[name];
      s.(goroutines := s.goroutines[g := s.goroutines[g].(canceled := true)])
    else s
  }

  function ConfigOf(s: State, name: string): Option<TaskConfig>
  {
    if name in s.runtimes && s.runtimes[name] in s.goroutines then Some(s.goroutines[s.runtimes[name]].config) else None
  }

  function Without(m: TaskMap, name: string): TaskMap
  {
    m - {name}
  }

  /** start: a new runtime under the task's name. */
  function Start(cron: CronSyntax, s: State, cfg: TaskConfig): State
  {
    if Runs(cron, cfg) then
      s.(runtimes := s.runtimes[cfg.name := s.next],
         goroutines := s.goroutines[s.next := Goroutine(cfg, false, Selecting, 0)], next := s.next + 1)
    else s
  }

  function VisitName(cron: CronSyntax, s: State, c: nat, name: string): State
    requires Enabled(s, Visit(c, name))
  {
    match s.reloads[c]
    case Deleting(tasks, todo) =>
      if ConfigOf(s, name).Some? && ConfigOf(s, name).value.name !in tasks then
        SetReload(Cancel(s, name), c, StoppingDeleted(tasks, todo - {name}, name))
      else SetReload(s, c, Deleting(tasks, todo - {name}))
    case Diffing(tasks, todo, candidates) =>
      if name !in tasks then SetReload(s, c, Diffing(tasks, todo - {name}, candidates))
      else if name !in s.runtimes then
        SetReload(s, c, Diffing(tasks, todo - {name}, candidates[name := tasks[name]]))
      else if ConfigOf(s, name).Some? && tasks[name].Equals(ConfigOf(s, name).value) then
        SetReload(s, c, Diffing(tasks, todo - {name}, candidates))
      else
        SetReload(Cancel(s, name), c, StoppingChanged(tasks, todo - {name}, candidates[name := tasks[name]], name))
    case Starting(tasks, candidates) =>
      SetReload(Start(cron, s, candidates[name]), c, Starting(tasks, Without(candidates, name)))
  }

  function Next(cron: CronSyntax, s: State, a: Action): State
    requires Enabled(s, a)
  {
    match a
    case Load(c, snapshot) => SetReload(s, c, Loaded(snapshot))
    case Lock(c) => SetReload(s.(mu := Some(c)), c, Deleting(s.reloads[c].tasks, s.runtimes.Keys))
    case Visit(c, name) => VisitName(cron, s, c, name)
    case StopReturns(c) =>
      (match s.reloads[c]
       case StoppingDeleted(tasks, todo, name) =>
         SetReload(s.(runtimes := s.runtimes - {name}), c, Deleting(tasks, todo))
       case StoppingChanged(tasks, todo, candidates, name) =>
         SetReload(s.(runtimes := s.runtimes - {name}), c, Diffing(tasks, todo, candidates)))
    case NextLoop(c) =>
      (match s.reloads[c]
       case Deleting(tasks, _) => SetReload(s, c, Diffing(tasks, tasks.Keys, map[]))
       case Diffing(tasks, _, candidates) => SetReload(s, c, Starting(tasks, candidates))
       case Starting(_, _) => SetReload(s.(mu := None), c, Done))
    case TimerFires(g) =>
      var r := s.goroutines[g].(executions := s.goroutines[g].executions + 1);
      SetPhase(s.(goroutines := s.goroutines[g := r]), g, Executing)
    case SeesCancel(g) => SetPhase(s, g, Looped)
    case ExecuteReturns(g) => SetPhase(s, g, if s.goroutines[g].config.oneshot then Looped else Selecting)
    case Close(g) => SetPhase(s, g, Closed)
    case Leave(g) =>
      var name := s.goroutines[g].config.name;
      SetPhase(if name in s.runtimes && s.runtimes[name] == g then s.(saved := s.saved + [g]) else s, g, Gone)
  }

  // ----- the invariant ---------------------------------------------------------------------------

  predicate Over(p: Phase)
  {
    p.Closed? || p.Gone?
  }

  /** The map's entry of a name is a goroutine of that name. */
  ghost predicate MapInv(s: State)
  {
    && (forall n :: n in s.runtimes ==> s.runtimes[n] in s.goroutines && s.goroutines[s.runtimes[n]].config.name == n)
    && (forall g :: g in s.goroutines ==> g < s.next)
  }

  /** The name that the holder of the mutex is stopping. */
  function Stopping(s: State): Option<string>
  {
    if s.mu.Some? && s.mu.value in s.reloads then
      match s.reloads[s.mu.value]
      case StoppingDeleted(_, _, name) => Some(name)
      case StoppingChanged(_, _, _, name) => Some(name)
      case _ => None
    else None
  }

  predicate IsCurrent(s: State, g: nat)
    requires g in s.goroutines
  {
    var name := s.goroutines[g].config.name;
    name in s.runtimes && s.runtimes[name] == g
  }

  predicate GoroutineInv(s: State, g: nat)
    requires g in s.goroutines
  {
    var r := s.goroutines[g];
    && (!IsCurrent(s, g) ==> Over(r.phase))
    && (r.canceled && IsCurrent(s, g) ==> Stopping(s) == Some(r.config.name))
    && (!r.canceled && (r.phase.Looped? || Over(r.phase)) ==> r.config.oneshot && r.executions == 1)
    && (r.config.oneshot && r.phase.Selecting? ==> r.executions == 0)
    && (r.config.oneshot && r.phase.Executing? ==> r.executions == 1)
  }

  predicate HoldsMutex(r: Reload)
  {
    !r.Ready? && !r.Loaded? && !r.Done?
  }

  predicate IsCanceled(s: State, name: string)
  {
    name in s.runtimes && s.runtimes[name] in s.goroutines && s.goroutines[s.runtimes[name]].canceled
  }

  /** A reload that holds the mutex is alone; what it will start has no runtime. */
  predicate ReloadInv(s: State, c: nat)
    requires c in s.reloads
  {
    && (HoldsMutex(s.reloads[c]) <==> s.mu == Some(c))
    && (match s.reloads[c]
        case StoppingDeleted(_, _, name) => IsCanceled(s, name)
        case Diffing(_, todo, candidates) => candidates.Keys !! s.runtimes.Keys && candidates.Keys !! todo
        case StoppingChanged(_, todo, candidates, name) =>
          IsCanceled(s, name) && (candidates.Keys - {name}) !! s.runtimes.Keys && candidates.Keys !! todo
        case Starting(_, candidates) => candidates.Keys !! s.runtimes.Keys
        case _ => true)
  }

  ghost predicate Inv(s: State)
  {
    && MapInv(s)
    && (forall g :: g in s.goroutines ==> GoroutineInv(s, g))
    && (forall c :: c in s.reloads ==> ReloadInv(s, c))
    && (s.mu.Some? ==> s.mu.value in s.reloads)
  }

  lemma InitInv(s: State)
    requires Init(s)
    ensures Inv(s)
  {
  }

  // ----- steps keep the invariant ------------------------------------------------------------------

  /** A reload that moves without touching runtimes or goroutines, and keeps the mutex. */
  lemma QuietReloadStep(s: State, c: nat, r: Reload)
    requires Inv(s) && c in s.reloads
    requires HoldsMutex(r) <==> HoldsMutex(s.reloads[c])
    requires !r.StoppingDeleted? && !r.StoppingChanged? && Stopping(s) == None
    requires r.Diffing? ==> r.candidates.Keys !! s.runtimes.Keys && r.candidates.Keys !! r.todo
    requires r.Starting? ==> r.candidates.Keys !! s.runtimes.Keys
    ensures Inv(SetReload(s, c, r))
  {
    var s' := SetReload(s, c, r);
    assert ReloadInv(s, c);
    forall g | g in s'.goroutines ensures GoroutineInv(s', g) {
      assert GoroutineInv(s, g);
    }
    forall d | d in s'.reloads ensures ReloadInv(s', d) {
      assert ReloadInv(s, d);
    }
  }

  lemma NotStopping(s: State, c: nat)
    requires Inv(s) && c in s.reloads && HoldsMutex(s.reloads[c])
    requires !s.reloads[c].StoppingDeleted? && !s.reloads[c].StoppingChanged?
    ensures Stopping(s) == None
  {
    assert ReloadInv(s, c);
  }

  lemma LockStep(s: State, c: nat)
    requires Inv(s) && c in s.reloads && s.reloads[c].Loaded? && s.mu == None
    ensures Inv(SetReload(s.(mu := Some(c)), c, Deleting(s.reloads[c].tasks, s.runtimes.Keys)))
  {
    var s' := SetReload(s.(mu := Some(c)), c, Deleting(s.reloads[c].tasks, s.runtimes.Keys));
    forall g | g in s'.goroutines ensures GoroutineInv(s', g) {
      assert GoroutineInv(s, g);
    }
    forall d | d in s'.reloads ensures ReloadInv(s', d) {
      assert ReloadInv(s, d);
    }
  }

  lemma UnlockStep(s: State, c: nat)
    requires Inv(s) && c in s.reloads && s.reloads[c].Starting?
    ensures Inv(SetReload(s.(mu := None), c, Done))
  {
    var s' := SetReload(s.(mu := None), c, Done);
    NotStopping(s, c);
    assert ReloadInv(s, c);
    forall g | g in s'.goroutines ensures GoroutineInv(s', g) {
      assert GoroutineInv(s, g);
    }
    forall d | d in s'.reloads ensures ReloadInv(s', d) {
      assert ReloadInv(s, d);
    }
  }

  /** stopRuntime begins: cancel the current runtime of a name and wait for it. */
  lemma StopStep(s: State, c: nat, name: string, r: Reload)
    requires Inv(s) && c in s.reloads && HoldsMutex(s.reloads[c]) && Stopping(s) == None && name in s.runtimes
    requires match r
             case StoppingDeleted(_, _, n) => n == name
             case StoppingChanged(_, todo, candidates, n) =>
               n == name && (candidates.Keys - {name}) !! s.runtimes.Keys && candidates.Keys !! todo
             case _ => false
    ensures Inv(SetReload(Cancel(s, name), c, r))
  {
    var s' := SetReload(Cancel(s, name), c, r);
    assert ReloadInv(s, c);
    assert Stopping(s') == Some(name);
    forall g | g in s'.goroutines ensures GoroutineInv(s', g) {
      assert GoroutineInv(s, g);
      assert g != s.runtimes[name] ==> s'.goroutines[g] == s.goroutines[g];
    }
    forall d | d in s'.reloads ensures ReloadInv(s', d) {
      assert ReloadInv(s, d);
    }
  }

  /** stopRuntime returns: the stopped channel is closed, the entry goes. */
  lemma StoppedStep(s: State, c: nat, name: string, r: Reload)
    requires Inv(s) && c in s.reloads && HoldsMutex(s.reloads[c]) && Stopping(s) == Some(name) && IsStopped(s, name)
    requires match r
             case Deleting(_, _) => true
             case Diffing(_, todo, candidates) =>
               (candidates.Keys - {name}) !! s.runtimes.Keys && candidates.Keys !! todo
             case _ => false
    ensures Inv(SetReload(s.(runtimes := s.runtimes - {name}), c, r))
  {
    var s' := SetReload(s.(runtimes := s.runtimes - {name}), c, r);
    assert ReloadInv(s, c);
    forall g | g in s'.goroutines ensures GoroutineInv(s', g) {
      assert GoroutineInv(s, g);
    }
    forall d | d in s'.reloads ensures ReloadInv(s', d) {
      assert ReloadInv(s, d);
    }
  }

  lemma StartStep(cron: CronSyntax, s: State, c: nat, cfg: TaskConfig, tasks: TaskMap, rest: TaskMap)
    requires Inv(s) && c in s.reloads && s.reloads[c].Starting? && cfg.name !in s.runtimes
    requires rest.Keys !! s.runtimes.Keys && cfg.name !in rest
    ensures Inv(SetReload(Start(cron, s, cfg), c, Starting(tasks, rest)))
  {
    NotStopping(s, c);
    StartKeepsGoroutines(cron, s, c, cfg, Starting(tasks, rest));
    StartKeepsReloads(cron, s, c, cfg, tasks, rest);
  }

  lemma StartKeepsGoroutines(cron: CronSyntax, s: State, c: nat, cfg: TaskConfig, r: Reload)
    requires Inv(s) && Stopping(s) == None && cfg.name !in s.runtimes && r.Starting?
    ensures var s' := SetReload(Start(cron, s, cfg), c, r);
            MapInv(s') && forall g :: g in s'.goroutines ==> GoroutineInv(s', g)
  {
    var s' := SetReload(Start(cron, s, cfg), c, r);
    assert Stopping(s') == None;
    forall g | g in s'.goroutines ensures GoroutineInv(s', g) {
      if g in s.goroutines {
        assert GoroutineInv(s, g);
      }
    }
  }

  lemma StartKeepsReloads(cron: CronSyntax, s: State, c: nat, cfg: TaskConfig, tasks: TaskMap, rest: TaskMap)
    requires Inv(s) && c in s.reloads && s.reloads[c].Starting?
    requires rest.Keys !! s.runtimes.Keys && cfg.name !in rest
    ensures var s' := SetReload(Start(cron, s, cfg), c, Starting(tasks, rest));
            forall d :: d in s'.reloads ==> ReloadInv(s', d)
  {
    var s' := SetReload(Start(cron, s, cfg), c, Starting(tasks, rest));
    assert ReloadInv(s, c);
    forall d | d in s'.reloads ensures ReloadInv(s', d) {
      assert ReloadInv(s, d);
    }
  }

  lemma VisitStep(cron: CronSyntax, s: State, c: nat, name: string)
    requires Inv(s) && Enabled(s, Visit(c, name))
    ensures Inv(Next(cron, s, Visit(c, name)))
  {
    assert ReloadInv(s, c);
    NotStopping(s, c);
    match s.reloads[c] {
      case Deleting(tasks, todo) =>
        if ConfigOf(s, name).Some? && ConfigOf(s, name).value.name !in tasks {
          StopStep(s, c, name, StoppingDeleted(tasks, todo - {name}, name));
        } else {
          QuietReloadStep(s, c, Deleting(tasks, todo - {name}));
        }
      case Diffing(tasks, todo, candidates) =>
        if name !in tasks {
          QuietReloadStep(s, c, Diffing(tasks, todo - {name}, candidates));
        } else if name !in s.runtimes {
          QuietReloadStep(s, c, Diffing(tasks, todo - {name}, candidates[name := tasks[name]]));
        } else if ConfigOf(s, name).Some? && tasks[name].Equals(ConfigOf(s, name).value) {
          QuietReloadStep(s, c, Diffing(tasks, todo - {name}, candidates));
        } else {
          StopStep(s, c, name, StoppingChanged(tasks, todo - {name}, candidates[name := tasks[name]], name));
        }
      case Starting(tasks, candidates) =>
        StartStep(cron, s, c, candidates[name], tasks, Without(candidates, name));
    }
  }

  /** A goroutine moves: only its own record changes, and possibly the list of saves. */
  lemma GoroutineStep(s: State, g: nat, r: Goroutine, saved: seq<nat>)
    requires Inv(s) && g in s.goroutines
    requires var s' := s.(goroutines := s.goroutines[g := r], saved := saved);
             r.config == s.goroutines[g].config && r.canceled == s.goroutines[g].canceled && GoroutineInv(s', g)
    ensures Inv(s.(goroutines := s.goroutines[g := r], saved := saved))
  {
    var s' := s.(goroutines := s.goroutines[g := r], saved := saved);
    forall h | h in s'.goroutines ensures GoroutineInv(s', h) {
      assert GoroutineInv(s, h);
    }
    forall d | d in s'.reloads ensures ReloadInv(s', d) {
      assert ReloadInv(s, d);
    }
  }

  predicate OfGoroutine(a: Action)
  {
    a.TimerFires? || a.SeesCancel? || a.ExecuteReturns? || a.Close? || a.Leave?
  }

  lemma GoroutineActs(cron: CronSyntax, s: State, a: Action)
    requires Inv(s) && Enabled(s, a) && OfGoroutine(a)
    ensures Inv(Next(cron, s, a))
  {
    var s' := Next(cron, s, a);
    GoroutineFrame(cron, s, a);
    GoroutineActKeeps(cron, s, a);
    GoroutineStep(s, a.g, s'.goroutines[a.g], s'.saved);
  }

  lemma GoroutineFrame(cron: CronSyntax, s: State, a: Action)
    requires Enabled(s, a) && OfGoroutine(a)
    ensures var s' := Next(cron, s, a);
            && a.g in s'.goroutines
            && s' == s.(goroutines := s.goroutines[a.g := s'.goroutines[a.g]], saved := s'.saved)
            && s'.goroutines[a.g].config == s.goroutines[a.g].config
            && s'.goroutines[a.g].canceled == s.goroutines[a.g].canceled
  {
  }

  lemma GoroutineActKeeps(cron: CronSyntax, s: State, a: Action)
    requires Inv(s) && Enabled(s, a) && OfGoroutine(a)
    ensures a.g in Next(cron, s, a).goroutines && GoroutineInv(Next(cron, s, a), a.g)
  {
    assert GoroutineInv(s, a.g);
  }

  lemma StepKeepsInv(cron: CronSyntax, s: State, a: Action)
    requires Inv(s) && Enabled(s, a)
    ensures Inv(Next(cron, s, a))
  {
    match a {
      case Load(c, snapshot) => LoadStep(s, c, snapshot);
      case Lock(c) => LockStep(s, c);
      case Visit(c, name) => VisitStep(cron, s, c, name);
      case StopReturns(c) =>
        assert ReloadInv(s, c);
        match s.reloads[c] {
          case StoppingDeleted(tasks, todo, name) => StoppedStep(s, c, name, Deleting(tasks, todo));
          case StoppingChanged(tasks, todo, candidates, name) =>
            StoppedStep(s, c, name, Diffing(tasks, todo, candidates));
        }
      case NextLoop(c) =>
        assert ReloadInv(s, c);
        NotStopping(s, c);
        match s.reloads[c] {
          case Deleting(tasks, _) => QuietReloadStep(s, c, Diffing(tasks, tasks.Keys, map[]));
          case Diffing(tasks, _, candidates) => QuietReloadStep(s, c, Starting(tasks, candidates));
          case Starting(_, _) => UnlockStep(s, c);
        }
      case _ => GoroutineActs(cron, s, a);
    }
  }

  lemma LoadStep(s: State, c: nat, snapshot: TaskMap)
    requires Inv(s) && c in s.reloads && s.reloads[c].Ready?
    ensures Inv(SetReload(s, c, Loaded(snapshot)))
  {
    var s' := SetReload(s, c, Loaded(snapshot));
    assert ReloadInv(s, c);
    forall g | g in s'.goroutines ensures GoroutineInv(s', g) {
      assert GoroutineInv(s, g);
    }
    forall d | d in s'.reloads ensures ReloadInv(s', d) {
      assert ReloadInv(s, d);
    }
  }

  // ----- runs ------------------------------------------------------------------------------------------

  predicate Schedule(cron: CronSyntax, s: State, actions: seq<Action>)
    decreases |actions|, 0
  {
    actions == [] ||
    (Schedule(cron, s, Front(actions)) && Enabled(Execute(cron, s, Front(actions)), Last(actions)))
  }

  function Execute(cron: CronSyntax, s: State, actions: seq<Action>): State
    requires Schedule(cron, s, actions)
    decreases |actions|, 1
  {
    if actions == [] then s else Next(cron, Execute(cron, s, Front(actions)), Last(actions))
  }

  lemma {:induction false} Reachable(cron: CronSyntax, s: State, actions: seq<Action>)
    requires Init(s) && Schedule(cron, s, actions)
    ensures Inv(Execute(cron, s, actions))
  {
    if actions == [] {
      InitInv(s);
    } else {
      Reachable(cron, s, Front(actions));
      StepKeepsInv(cron, Execute(cron, s, Front(actions)), Last(actions));
    }
  }

  // ----- a reload converges ----------------------------------------------------------------------------

  /** The configuration with which a name runs is the snapshot's. */
  predicate UpToDate(s: State, tasks: TaskMap, n: string)
  {
    n in tasks && ConfigOf(s, n) == Some(tasks[n])
  }

  /** What the holder of the mutex has achieved so far, name by name. */
  predicate Treated(cron: CronSyntax, s: State, r: Reload, n: string)
  {
    match r
    case Deleting(tasks, todo) => n in s.runtimes ==> n in todo || n in tasks
    case StoppingDeleted(tasks, todo, name) => n in s.runtimes ==> n in todo || n in tasks || n == name
    case Diffing(tasks, todo, candidates) =>
      && (n in s.runtimes ==> n in tasks) && (n in candidates ==> n in tasks && candidates[n] == tasks[n])
      && (n in tasks ==> n in todo || n in candidates || UpToDate(s, tasks, n))
    case StoppingChanged(tasks, todo, candidates, name) =>
      && (n == name ==> n in candidates)
      && (n in s.runtimes ==> n in tasks) && (n in candidates ==> n in tasks && candidates[n] == tasks[n])
      && (n in tasks ==> n in todo || n in candidates || UpToDate(s, tasks, n))
    case Starting(tasks, candidates) =>
      && (n in s.runtimes ==> UpToDate(s, tasks, n)) && (n in candidates ==> n in tasks && candidates[n] == tasks[n])
      && (n in tasks ==> n in candidates || UpToDate(s, tasks, n) || !Runs(cron, tasks[n]))
    case _ => true
  }

  ghost predicate Converging(cron: CronSyntax, s: State)
  {
    && (forall n :: n in s.runtimes ==> ConfigOf(s, n).Some? && Runs(cron, ConfigOf(s, n).value))
    && (s.mu.Some? && s.mu.value in s.reloads ==> forall n :: Treated(cron, s, s.reloads[s.mu.value], n))
  }

  /** Exactly the runnable tasks have a runtime, with the snapshot's configuration. */
  ghost predicate SettledOn(cron: CronSyntax, s: State, tasks: TaskMap)
  {
    && (forall n :: n in s.runtimes <==> n in tasks && Runs(cron, tasks[n]))
    && (forall n :: n in s.runtimes ==> UpToDate(s, tasks, n))
  }

  /** Steps of others: goroutines keep their configuration, reloads without the mutex touch nothing. */
  lemma OthersKeepConverging(cron: CronSyntax, s: State, a: Action)
    requires Inv(s) && Enabled(s, a) && Converging(cron, s) && (OfGoroutine(a) || a.Load?)
    ensures Converging(cron, Next(cron, s, a))
  {
    var s' := Next(cron, s, a);
    OthersKeepConfigs(cron, s, a);
    if s.mu.Some? {
      assert ReloadInv(s, s.mu.value);
      forall n ensures Treated(cron, s', s'.reloads[s.mu.value], n) {
        assert Treated(cron, s, s.reloads[s.mu.value], n);
      }
    }
  }

  lemma OthersKeepConfigs(cron: CronSyntax, s: State, a: Action)
    requires Inv(s) && Enabled(s, a) && (OfGoroutine(a) || a.Load?)
    ensures var s' := Next(cron, s, a);
            && s'.runtimes == s.runtimes && s'.mu == s.mu
            && (forall n :: ConfigOf(s', n) == ConfigOf(s, n))
            && (s.mu.Some? ==> s.mu.value in s.reloads && s'.reloads.Keys == s.reloads.Keys
                               && s'.reloads[s.mu.value] == s.reloads[s.mu.value])
  {
    if s.mu.Some? {
      assert ReloadInv(s, s.mu.value);
    }
  }

  /** What a visit does beside moving its reload: nothing, a cancellation, or a start. */
  lemma VisitEffect(cron: CronSyntax, s: State, c: nat, name: string) returns (started: Option<TaskConfig>)
    requires Enabled(s, Visit(c, name))
    ensures started == if s.reloads[c].Starting? && Runs(cron, s.reloads[c].candidates[name])
                       then Some(s.reloads[c].candidates[name]) else None
    ensures var s' := Next(cron, s, Visit(c, name));
            s'.mu == s.mu &&
            match started
            case None =>
              && s'.runtimes == s.runtimes
              && (s'.goroutines == s.goroutines || s'.goroutines == Cancel(s, name).goroutines)
            case Some(cfg) =>
              && s'.runtimes == s.runtimes[cfg.name := s.next]
              && s'.goroutines == s.goroutines[s.next := Goroutine(cfg, false, Selecting, 0)]
  {
    started := None;
    if s.reloads[c].Starting? && Runs(cron, s.reloads[c].candidates[name]) {
      started := Some(s.reloads[c].candidates[name]);
    }
  }

  lemma CancelConfig(s: State, name: string, n: string)
    ensures ConfigOf(Cancel(s, name), n) == ConfigOf(s, n)
  {
  }

  /** The only names whose runtime a reload step changes are the stopped one and the started one. */
  lemma VisitConfigs(cron: CronSyntax, s: State, c: nat, name: string, n: string)
    requires Inv(s) && Enabled(s, Visit(c, name))
    ensures var s' := Next(cron, s, Visit(c, name));
            && s'.mu == s.mu
            && (n in s'.runtimes <==>
                  n in s.runtimes || (s.reloads[c].Starting? && n == name && Runs(cron, s.reloads[c].candidates[n])))
            && (n in s'.runtimes ==>
                  ConfigOf(s', n) == (if n in s.runtimes then ConfigOf(s, n) else Some(s.reloads[c].candidates[n])))
  {
    assert ReloadInv(s, c);
    var started := VisitEffect(cron, s, c, name);
    CancelConfig(s, name, n);
  }

  lemma VisitConverges(cron: CronSyntax, s: State, c: nat, name: string)
    requires Inv(s) && Enabled(s, Visit(c, name)) && Converging(cron, s)
    ensures Converging(cron, Next(cron, s, Visit(c, name)))
  {
    var s' := Next(cron, s, Visit(c, name));
    assert ReloadInv(s, c);
    forall n ensures n in s'.runtimes ==> ConfigOf(s', n).Some? && Runs(cron, ConfigOf(s', n).value) {
      VisitConfigs(cron, s, c, name, n);
    }
    forall n ensures Treated(cron, s', s'.reloads[c], n) {
      VisitConfigs(cron, s, c, name, n);
      VisitTreats(cron, s, c, name, n);
    }
  }

  lemma VisitTreats(cron: CronSyntax, s: State, c: nat, name: string, n: string)
    requires Inv(s) && Enabled(s, Visit(c, name)) && Converging(cron, s)
    ensures Treated(cron, Next(cron, s, Visit(c, name)), Next(cron, s, Visit(c, name)).reloads[c], n)
  {
    assert ReloadInv(s, c) && Treated(cron, s, s.reloads[c], n) && Treated(cron, s, s.reloads[c], name);
    VisitConfigs(cron, s, c, name, n);
  }

  lemma StopConverges(cron: CronSyntax, s: State, c: nat)
    requires Inv(s) && Enabled(s, StopReturns(c)) && Converging(cron, s)
    ensures Converging(cron, Next(cron, s, StopReturns(c)))
  {
    var s' := Next(cron, s, StopReturns(c));
    assert ReloadInv(s, c);
    forall n | n in s'.runtimes ensures ConfigOf(s', n) == ConfigOf(s, n) {
    }
    forall n ensures Treated(cron, s', s'.reloads[c], n) {
      StopTreats(cron, s, c, n);
    }
  }

  lemma StopTreats(cron: CronSyntax, s: State, c: nat, n: string)
    requires Inv(s) && Enabled(s, StopReturns(c)) && Converging(cron, s)
    ensures Treated(cron, Next(cron, s, StopReturns(c)), Next(cron, s, StopReturns(c)).reloads[c], n)
  {
    assert ReloadInv(s, c) && Treated(cron, s, s.reloads[c], n);
  }

  lemma NextLoopConverges(cron: CronSyntax, s: State, c: nat)
    requires Inv(s) && Enabled(s, NextLoop(c)) && Converging(cron, s)
    ensures Converging(cron, Next(cron, s, NextLoop(c)))
    ensures s.reloads[c].Starting? ==> SettledOn(cron, Next(cron, s, NextLoop(c)), s.reloads[c].tasks)
  {
    var s' := Next(cron, s, NextLoop(c));
    assert ReloadInv(s, c);
    forall n ensures Treated(cron, s', s'.reloads[c], n) {
      assert Treated(cron, s, s.reloads[c], n);
    }
    if s.reloads[c].Starting? {
      forall n ensures n in s.runtimes <==> n in s.reloads[c].tasks && Runs(cron, s.reloads[c].tasks[n]) {
        assert Treated(cron, s, s.reloads[c], n);
      }
      forall n | n in s.runtimes ensures UpToDate(s', s.reloads[c].tasks, n) {
        assert Treated(cron, s, s.reloads[c], n);
      }
    }
  }

  lemma StepConverges(cron: CronSyntax, s: State, a: Action)
    requires Inv(s) && Enabled(s, a) && Converging(cron, s)
    ensures Converging(cron, Next(cron, s, a))
  {
    match a {
      case Lock(c) =>
      case Visit(c, name) => VisitConverges(cron, s, c, name);
      case StopReturns(c) => StopConverges(cron, s, c);
      case NextLoop(c) => NextLoopConverges(cron, s, c);
      case _ => OthersKeepConverging(cron, s, a);
    }
  }

  lemma {:induction false} AlwaysConverging(cron: CronSyntax, s: State, actions: seq<Action>)
    requires Init(s) && Schedule(cron, s, actions)
    ensures Converging(cron, Execute(cron, s, actions))
  {
    if actions != [] {
      AlwaysConverging(cron, s, Front(actions));
      Reachable(cron, s, Front(actions));
      StepConverges(cron, Execute(cron, s, Front(actions)), Last(actions));
    }
  }

  /** Whenever a reload releases the mutex, whatever the goroutines and the other reloads were doing, the map
      has a runtime for exactly the runnable tasks of its snapshot. */
  lemma ReloadConverges(cron: CronSyntax, init: State, actions: seq<Action>, c: nat)
    requires Init(init) && Schedule(cron, init, actions)
    requires var s := Execute(cron, init, actions);
             Enabled(s, NextLoop(c)) && s.reloads[c].Starting?
    ensures var s := Execute(cron, init, actions);
            && Next(cron, s, NextLoop(c)).reloads[c].Done?
            && SettledOn(cron, Next(cron, s, NextLoop(c)), s.reloads[c].tasks)
  {
    Reachable(cron, init, actions);
    AlwaysConverging(cron, init, actions);
    NextLoopConverges(cron, Execute(cron, init, actions), c);
  }

  // ----- goroutines --------------------------------------------------------------------------------------

  /** A runLoop that may still execute its task. */
  predicate Running(s: State, g: nat)
  {
    g in s.goroutines && !Over(s.goroutines[g].phase)
  }

  /** In every reachable state at most one runLoop per task name has not ended, and it is the one in the map. */
  lemma OneLoopPerName(cron: CronSyntax, init: State, actions: seq<Action>, g: nat, h: nat)
    requires Init(init) && Schedule(cron, init, actions)
    requires var s := Execute(cron, init, actions);
             Running(s, g) && Running(s, h) && s.goroutines[g].config.name == s.goroutines[h].config.name
    ensures g == h && IsCurrent(Execute(cron, init, actions), g)
  {
    Reachable(cron, init, actions);
    var s := Execute(cron, init, actions);
    assert GoroutineInv(s, g) && GoroutineInv(s, h);
  }

  /** Once its stopRuntime has returned (once it is out of the map), a runtime never executes again,
      whatever happens afterwards. */
  lemma {:induction false} NoExecutionAfterStop(cron: CronSyntax, init: State, before: seq<Action>,
                                                after: seq<Action>, g: nat)
    requires Init(init) && Schedule(cron, init, before + after) && Schedule(cron, init, before)
    requires var s := Execute(cron, init, before); g in s.goroutines && !IsCurrent(s, g)
    ensures var s, s' := Execute(cron, init, before), Execute(cron, init, before + after);
            && g in s'.goroutines && !IsCurrent(s', g)
            && s'.goroutines[g].executions == s.goroutines[g].executions && Over(s'.goroutines[g].phase)
    decreases |after|
  {
    Reachable(cron, init, before);
    assert GoroutineInv(Execute(cron, init, before), g);
    if after == [] {
      assert before + after == before;
    } else {
      assert Front(before + after) == before + Front(after);
      NoExecutionAfterStop(cron, init, before, Front(after), g);
      Reachable(cron, init, before + Front(after));
      StaysOut(cron, Execute(cron, init, before + Front(after)), Last(after), g);
    }
  }

  /** A goroutine out of the map, its executions and its phase, before and after. */
  ghost predicate StayedOut(s: State, s': State, g: nat)
    requires g in s.goroutines
  {
    && g in s'.goroutines && !IsCurrent(s', g)
    && s'.goroutines[g].executions == s.goroutines[g].executions && Over(s'.goroutines[g].phase)
  }

  lemma StaysOut(cron: CronSyntax, s: State, a: Action, g: nat)
    requires Inv(s) && Enabled(s, a) && g in s.goroutines && !IsCurrent(s, g)
    ensures StayedOut(s, Next(cron, s, a), g)
  {
    assert GoroutineInv(s, g);
    match a {
      case Visit(c, name) => VisitStaysOut(cron, s, c, name, g);
      case StopReturns(c) =>
      case _ =>
    }
  }

  lemma VisitStaysOut(cron: CronSyntax, s: State, c: nat, name: string, g: nat)
    requires Inv(s) && Enabled(s, Visit(c, name)) && g in s.goroutines && !IsCurrent(s, g)
    ensures StayedOut(s, Next(cron, s, Visit(c, name)), g)
  {
    assert GoroutineInv(s, g) && g < s.next;
    var started := VisitEffect(cron, s, c, name);
    CancelStaysOut(s, name, g);
  }

  lemma CancelStaysOut(s: State, name: string, g: nat)
    requires MapInv(s) && g in s.goroutines && !IsCurrent(s, g) && Over(s.goroutines[g].phase)
    ensures StayedOut(s, Cancel(s, name), g)
  {
  }

  /** A goroutine switches its task off only for a one-shot that executed exactly once, is still the
      task's runtime, and was not stopped from outside. */
  lemma SavesOnlyFinishedOneshots(cron: CronSyntax, init: State, actions: seq<Action>, a: Action)
    requires Init(init) && Schedule(cron, init, actions) && Enabled(Execute(cron, init, actions), a)
    ensures var s := Execute(cron, init, actions);
            var s' := Next(cron, s, a);
            s'.saved != s.saved ==>
              a.Leave? && s'.saved == s.saved + [a.g] && IsCurrent(s, a.g)
              && s.goroutines[a.g].config.oneshot && s.goroutines[a.g].executions == 1 && !s.goroutines[a.g].canceled
  {
    Reachable(cron, init, actions);
    var s := Execute(cron, init, actions);
    if a.Leave? {
      LeaveSaves(cron, s, a.g);
    } else {
      OnlyLeaveSaves(cron, s, a);
    }
  }

  lemma OnlyLeaveSaves(cron: CronSyntax, s: State, a: Action)
    requires Enabled(s, a) && !a.Leave?
    ensures Next(cron, s, a).saved == s.saved
  {
  }

  lemma LeaveSaves(cron: CronSyntax, s: State, g: nat)
    requires Inv(s) && Enabled(s, Leave(g))
    ensures var s', r := Next(cron, s, Leave(g)), s.goroutines[g];
            s'.saved != s.saved ==>
              s'.saved == s.saved + [g] && IsCurrent(s, g) && r.config.oneshot && r.executions == 1 && !r.canceled
  {
    assert GoroutineInv(s, g);
    assert s.mu == None;
  }

  /** A reload waits for a goroutine while it holds the mutex that the goroutine takes on its way out;
      still, while some reload is not done, some step is possible, and no timer is needed for it. */
  lemma NeverDeadlocked(cron: CronSyntax, init: State, actions: seq<Action>, c: nat) returns (a: Action)
    requires Init(init) && Schedule(cron, init, actions)
    requires var s := Execute(cron, init, actions); c in s.reloads && !s.reloads[c].Done?
    ensures Enabled(Execute(cron, init, actions), a) && !a.TimerFires?
  {
    Reachable(cron, init, actions);
    var s := Execute(cron, init, actions);
    assert ReloadInv(s, c);
    if s.reloads[c].Ready? {
      a := Load(c, map[]);
    } else if s.mu == None {
      a := Lock(c);
    } else {
      a := HolderMoves(s, s.mu.value);
    }
  }

  lemma HolderMoves(s: State, c: nat) returns (a: Action)
    requires Inv(s) && s.mu == Some(c)
    ensures Enabled(s, a) && !a.TimerFires?
  {
    assert ReloadInv(s, c);
    match s.reloads[c] {
      case Deleting(_, todo) => a := VisitOrNext(s, c, todo);
      case Diffing(_, todo, _) => a := VisitOrNext(s, c, todo);
      case Starting(_, candidates) =>
        if candidates == map[] {
          a := NextLoop(c);
        } else {
          var name :| name in candidates;
          a := Visit(c, name);
        }
      case StoppingDeleted(_, _, name) => a := GoroutineMoves(s, c, name);
      case StoppingChanged(_, _, _, name) => a := GoroutineMoves(s, c, name);
    }
  }

  lemma VisitOrNext(s: State, c: nat, todo: set<string>) returns (a: Action)
    requires c in s.reloads
    requires match s.reloads[c]
             case Deleting(_, t) => t == todo
             case Diffing(_, t, _) => t == todo
             case _ => false
    ensures Enabled(s, a) && !a.TimerFires?
  {
    if todo == {} {
      a := NextLoop(c);
    } else {
      var name :| name in todo;
      a := Visit(c, name);
    }
  }

  lemma GoroutineMoves(s: State, c: nat, name: string) returns (a: Action)
    requires Inv(s) && c in s.reloads && IsCanceled(s, name)
    requires s.reloads[c].StoppingDeleted? || s.reloads[c].StoppingChanged?
    requires s.reloads[c].name == name
    ensures Enabled(s, a) && !a.TimerFires?
  {
    var g := s.runtimes[name];
    match s.goroutines[g].phase {
      case Selecting => a := SeesCancel(g);
      case Executing => a := ExecuteReturns(g);
      case Looped => a := Close(g);
      case Closed => a := StopReturns(c);
      case Gone => a := StopReturns(c);
    }
  }
}
