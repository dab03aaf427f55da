/** Scheduled tasks and the reloading of their configuration (internal/task/task.go, service.go). */
module Tasks {
  import opened Basics

  datatype TaskConfig = TaskConfig(
    name: string, description: string, recipients: seq<string>, reglament: string, request: string,
    active: bool, oneshot: bool)
  {
    predicate Equals(other: TaskConfig)
    {
      && recipients == other.recipients
      && name == other.name
      && description == other.description
      && reglament == other.reglament
      && request == other.request
      && active == other.active
      && oneshot == other.oneshot
    }
  }

  /** The configuration file keys every task by its name (internal/files/tasks.go:160-182). */
  type TaskMap = m: map<string, TaskConfig> | forall n <- m :: m[n].name == n witness map[]

  /** Whether the cron factory accepts an expression. */
  type CronSyntax = string -> bool

  /** A runtime, named by the number of its start as the original names it by a pointer. */
  datatype Runtime = Runtime(id: nat, config: TaskConfig)

  predicate Runs(cron: CronSyntax, cfg: TaskConfig)
  {
    cfg.active && cron(cfg.reglament)
  }

  /** Only runnable tasks have a runtime, under their own name, and the loops that were started and not
      stopped are exactly those of the registered runtimes: none leaks. */
  ghost predicate Sound(cron: CronSyntax, runtimes: map<string, Runtime>, stopped: set<nat>, next: nat)
  {
    && (forall n <- runtimes :: runtimes[n].config.name == n && Runs(cron, runtimes[n].config))
    && (forall n <- runtimes :: runtimes[n].id < next && runtimes[n].id !in stopped)
    && (forall id <- stopped :: id < next)
    && (forall m, n :: m in runtimes && n in runtimes && runtimes[m].id == runtimes[n].id ==> m == n)
    && (forall id: nat :: id < next && id !in stopped ==> exists n <- runtimes :: runtimes[n].id == id)
  }

  class Service {
    const cron: CronSyntax
    var runtimes: map<string, Runtime>
    /** The loops started so far are 0..next; stopped has those stopRuntime returned for. */
    var next: nat
    var stopped: set<nat>

    ghost predicate Valid()
      reads this
    {
      Sound(cron, runtimes, stopped, next)
    }

    constructor (cron: CronSyntax, tasks: TaskMap)
      ensures Valid() && this.cron == cron
      ensures Converged(cron, map[], 0, tasks, runtimes) && stopped == {}
    {
      this.cron := cron;
      runtimes, next, stopped := map[], 0, {};
      new;
      RunTasks(tasks);
      StartsConverge(cron, map[], 0, tasks, map[], tasks, runtimes);
    }

    method StopRuntime(name: string)
      modifies this`runtimes, this`stopped
      ensures runtimes == old(runtimes) - {name}
      ensures stopped == old(stopped) + (if name in old(runtimes) then {old(runtimes)[name].id} else {})
    {
      if name !in runtimes {
        return;
      }
      stopped := stopped + {runtimes[name].id};
      runtimes := runtimes - {name};
    }

    /** Called for active tasks without a runtime only: to start over a registered one would leak its loop. */
    method Start(cfg: TaskConfig) returns (err: bool)
      requires Valid() && cfg.active && cfg.name !in runtimes
      modifies this`runtimes, this`next
      ensures Valid()
      ensures err == !cron(cfg.reglament)
      ensures err ==> runtimes == old(runtimes) && next == old(next)
      ensures !err ==> runtimes == old(runtimes)[cfg.name := Runtime(old(next), cfg)] && next == old(next) + 1
    {
      if !cron(cfg.reglament) {
        return true;
      }
      err := false;
      StartOne(cron, runtimes, stopped, next, cfg);
      runtimes := runtimes[cfg.name := Runtime(next, cfg)];
      next := next + 1;
    }

    /** Start the active ones; a bad cron expression is logged and skipped. */
    method RunTasks(cfgs: TaskMap)
      requires Valid() && cfgs.Keys !! runtimes.Keys
      modifies this`runtimes, this`next
      ensures Valid()
      ensures WithStarts(cron, old(runtimes), old(next), cfgs, {}, runtimes)
      ensures next >= old(next)
      ensures NothingToRun(cron, cfgs) ==> runtimes == old(runtimes) && next == old(next)
    {
      ghost var before, starts := runtimes, next;
      var todo := cfgs.Keys;
      while todo != {}
        invariant todo <= cfgs.Keys && Valid() && next >= starts
        invariant WithStarts(cron, before, starts, cfgs, todo, runtimes)
        invariant NothingToRun(cron, cfgs) ==> runtimes == before && next == starts
        decreases |todo|
      {
        var n :| n in todo;
        StartsOne(cron, before, starts, cfgs, todo, runtimes, next, n);
        todo := todo - {n};
        if cfgs[n].active {
          var err := Start(cfgs[n]);
        }
      }
    }

    /** stopRuntime, counted. */
    method StopOne(name: string, ghost before: map<string, Runtime>, ghost was: set<nat>, ghost gone: set<string>)
      requires Without(before, was, gone, runtimes, stopped) && name in runtimes
      modifies this`runtimes, this`stopped
      ensures Without(before, was, gone + {name}, runtimes, stopped)
      ensures runtimes.Keys == old(runtimes).Keys - {name}
    {
      OneMoreGone(before, was, gone, runtimes, stopped, name);
      StopRuntime(name);
    }

    method StopDeleted(tasks: TaskMap)
      requires forall n <- runtimes :: runtimes[n].config.name == n
      modifies this`runtimes, this`stopped
      ensures Without(old(runtimes), old(stopped), Deleted(old(runtimes), tasks), runtimes, stopped)
    {
      ghost var before, was, gone := runtimes, stopped, {};
      NothingGone(runtimes, stopped);
      var todo := runtimes.Keys;
      while todo != {}
        invariant todo <= runtimes.Keys && Without(before, was, gone, runtimes, stopped)
        invariant forall n :: n in gone <==> n in before && n !in tasks && n !in todo
        decreases |todo|
      {
        var n :| n in todo;
        todo := todo - {n};
        var name := runtimes[n].config.name;
        assert name == n;
        if name !in tasks {
          StopOne(n, before, was, gone);
          gone := gone + {n};
        }
      }
    }

    method StopChanged(tasks: TaskMap) returns (candidates: TaskMap)
      modifies this`runtimes, this`stopped
      ensures Without(old(runtimes), old(stopped), Changed(old(runtimes), tasks), runtimes, stopped)
      ensures candidates == NotUnchanged(old(runtimes), tasks)
    {
      candidates := map[];
      ghost var before, was, gone := runtimes, stopped, {};
      NothingGone(runtimes, stopped);
      var todo := tasks.Keys;
      while todo != {}
        invariant todo <= tasks.Keys && Without(before, was, gone, runtimes, stopped)
        invariant forall n :: n in gone <==> n in tasks && n !in todo && n in before && before[n].config != tasks[n]
        invariant Collected(before, tasks, todo, candidates)
        decreases |todo|
      {
        var n :| n in todo;
        OneMoreCollected(before, tasks, todo, candidates, n);
        todo := todo - {n};
        assert n in runtimes <==> n in before;
        if n !in runtimes {
          // new task
          candidates := candidates[n := tasks[n]];
        } else if !tasks[n].Equals(runtimes[n].config) {
          StopOne(n, before, was, gone);
          gone := gone + {n};
          candidates := candidates[n := tasks[n]];
        }
      }
      AllCompared(before, tasks, gone, candidates);
    }

    /** The snapshot may fail to load. */
    method Reload(snapshot: Option<TaskMap>) returns (err: bool)
      requires Valid()
      modifies this`runtimes, this`stopped, this`next
      ensures Valid() && err == snapshot.None?
      ensures snapshot.Some? ==>
                && Converged(cron, old(runtimes), old(next), snapshot.value, runtimes)
                && Settled(cron, runtimes, snapshot.value)
      ensures snapshot.None? || Settled(cron, old(runtimes), snapshot.value) ==>
                runtimes == old(runtimes) && stopped == old(stopped) && next == old(next)
    {
      if snapshot.None? {
        return true;
      }
      err := false;
      var tasks := snapshot.value;
      ghost var before, was, starts := runtimes, stopped, next;
      ReloadKeeps(before, tasks);
      StopDeleted(tasks);
      ghost var left, had := runtimes, stopped;
      StopsKeepSound(cron, before, was, next, Deleted(before, tasks), left, had);
      var candidates := StopChanged(tasks);
      ghost var kept := runtimes;
      StopsKeepSound(cron, left, had, next, Changed(left, tasks), kept, stopped);
      RunTasks(candidates);
      StartsConverge(cron, before, starts, tasks, kept, candidates, runtimes);
      if Settled(cron, before, tasks) {
        SettledKeeps(cron, before, tasks);
      }
    }
  }

  /** The tasks are loaded once; if that fails there is no service. */
  method NewService(cron: CronSyntax, snapshot: Option<TaskMap>) returns (svc: Service?, err: bool)
    ensures err == snapshot.None? && (err <==> svc == null)
    ensures svc != null ==>
              && fresh(svc) && svc.cron == cron && svc.Valid() && svc.stopped == {}
              && Converged(cron, map[], 0, snapshot.value, svc.runtimes)
  {
    if snapshot.None? {
      return null, true;
    }
    svc := new Service(cron, snapshot.value);
    err := false;
  }

  /** What a reload promises, given the runtimes before it and the number of starts so far: exactly the
      runnable tasks of the snapshot have a runtime, each with the snapshot's configuration; an unchanged
      task keeps its runtime, every other runtime is new. (Whether the loop of a kept runtime is still to
      execute its task is a question to the goroutines, see DeadRuntimes.) */
  ghost predicate Converged(cron: CronSyntax, before: map<string, Runtime>, starts: nat, tasks: TaskMap,
                            after: map<string, Runtime>)
  {
    && (forall n :: n in after <==> n in tasks && Runs(cron, tasks[n]))
    && (forall n <- after :: after[n].config == tasks[n])
    && (forall n <- after :: if Unchanged(before, n, tasks) then after[n] == before[n] else after[n].id >= starts)
  }

  /** The runnable configurations are started, but for those still to do. */
  ghost predicate WithStarts(cron: CronSyntax, before: map<string, Runtime>, starts: nat, cfgs: TaskMap,
                             todo: set<string>, after: map<string, Runtime>)
  {
    && (forall n :: n in after <==> n in before || (n in cfgs && n !in todo && Runs(cron, cfgs[n])))
    && (forall n <- before :: after[n] == before[n])
    && (forall n <- after :: n !in before ==> after[n].config == cfgs[n] && after[n].id >= starts)
  }

  lemma StartsOne(cron: CronSyntax, before: map<string, Runtime>, starts: nat, cfgs: TaskMap, todo: set<string>,
      after: map<string, Runtime>, next: nat, n: string)
    requires WithStarts(cron, before, starts, cfgs, todo, after)
    requires n in todo && n in cfgs && n !in before && starts <= next
    ensures n !in after
    ensures WithStarts(cron, before, starts, cfgs, todo - {n},
              if Runs(cron, cfgs[n]) then after[n := Runtime(next, cfgs[n])] else after)
  {
  }

  /** The runtimes that no stop concerns. */
  function Kept(before: map<string, Runtime>, tasks: TaskMap): map<string, Runtime>
  {
    map n | n in before && Unchanged(before, n, tasks) :: before[n]
  }

  lemma ReloadKeeps(before: map<string, Runtime>, tasks: TaskMap)
    ensures var left := before - Deleted(before, tasks);
            && left - Changed(left, tasks) == Kept(before, tasks)
            && NotUnchanged(left, tasks) == NotUnchanged(before, tasks)
  {
  }

  lemma StartsConverge(cron: CronSyntax, before: map<string, Runtime>, starts: nat, tasks: TaskMap,
      kept: map<string, Runtime>, cfgs: TaskMap, after: map<string, Runtime>)
    requires forall n <- before :: Runs(cron, before[n].config)
    requires kept == Kept(before, tasks) && cfgs == NotUnchanged(before, tasks)
    requires WithStarts(cron, kept, starts, cfgs, {}, after)
    ensures Converged(cron, before, starts, tasks, after) && Settled(cron, after, tasks)
  {
  }

  /** A settled service has nothing to stop and nothing to start. */
  lemma SettledKeeps(cron: CronSyntax, before: map<string, Runtime>, tasks: TaskMap)
    requires Settled(cron, before, tasks)
    ensures Deleted(before, tasks) == {} && Changed(before, tasks) == {} && before - {} == before
    ensures NothingToRun(cron, NotUnchanged(before, tasks))
  {
  }

  function Ids(runtimes: map<string, Runtime>, names: set<string>): set<nat>
  {
    set n | n in names && n in runtimes :: runtimes[n].id
  }

  /** Exactly the runtimes of these names were stopped and unregistered. */
  ghost predicate Without(before: map<string, Runtime>, was: set<nat>, gone: set<string>,
                          runtimes: map<string, Runtime>, stopped: set<nat>)
  {
    gone <= before.Keys && runtimes == before - gone && stopped == was + Ids(before, gone)
  }

  lemma NothingGone(before: map<string, Runtime>, was: set<nat>)
    ensures Without(before, was, {}, before, was)
  {
  }

  lemma OneMoreGone(before: map<string, Runtime>, was: set<nat>, gone: set<string>,
      runtimes: map<string, Runtime>, stopped: set<nat>, n: string)
    requires Without(before, was, gone, runtimes, stopped) && n in runtimes
    ensures Without(before, was, gone + {n}, runtimes - {n}, stopped + {runtimes[n].id})
  {
  }

  lemma StopsKeepSound(cron: CronSyntax, before: map<string, Runtime>, was: set<nat>, next: nat, gone: set<string>,
      runtimes: map<string, Runtime>, stopped: set<nat>)
    requires Sound(cron, before, was, next) && Without(before, was, gone, runtimes, stopped)
    ensures Sound(cron, runtimes, stopped, next)
  {
    forall id: nat | id < next && id !in stopped ensures exists n <- runtimes :: runtimes[n].id == id {
      var n :| n in before && before[n].id == id;
      assert n in runtimes;
    }
  }

  lemma StartOne(cron: CronSyntax, runtimes: map<string, Runtime>, stopped: set<nat>, next: nat, cfg: TaskConfig)
    requires Sound(cron, runtimes, stopped, next) && Runs(cron, cfg) && cfg.name !in runtimes && next !in stopped
    ensures Sound(cron, runtimes[cfg.name := Runtime(next, cfg)], stopped, next + 1)
  {
    var after := runtimes[cfg.name := Runtime(next, cfg)];
    forall id: nat | id < next + 1 && id !in stopped ensures exists n <- after :: after[n].id == id {
      if id == next {
        assert after[cfg.name].id == id;
      } else {
        var n :| n in runtimes && runtimes[n].id == id;
        assert after[n].id == id;
      }
    }
  }

  lemma AllCompared(before: map<string, Runtime>, tasks: TaskMap, gone: set<string>, candidates: TaskMap)
    requires forall n :: n in gone <==> n in tasks && n in before && before[n].config != tasks[n]
    requires Collected(before, tasks, {}, candidates)
    ensures gone == Changed(before, tasks) && candidates == NotUnchanged(before, tasks)
  {
  }

  /** The tasks to start, but for those still to look at. */
  ghost predicate Collected(before: map<string, Runtime>, tasks: TaskMap, todo: set<string>, candidates: TaskMap)
  {
    && (forall n :: n in candidates <==> n in tasks && n !in todo && !Unchanged(before, n, tasks))
    && (forall n <- candidates :: candidates[n] == tasks[n])
  }

  lemma OneMoreCollected(before: map<string, Runtime>, tasks: TaskMap, todo: set<string>, candidates: TaskMap,
                         n: string)
    requires Collected(before, tasks, todo, candidates) && n in todo && n in tasks
    ensures Collected(before, tasks, todo - {n},
                      if Unchanged(before, n, tasks) then candidates else candidates[n := tasks[n]])
  {
  }

  /** The runtimes whose task is gone. */
  function Deleted(before: map<string, Runtime>, tasks: map<string, TaskConfig>): set<string>
  {
    before.Keys - tasks.Keys
  }

  /** The tasks whose runtime has another configuration. */
  function Changed(before: map<string, Runtime>, tasks: map<string, TaskConfig>): set<string>
  {
    set n | n in before && n in tasks && before[n].config != tasks[n]
  }

  /** The tasks without a runtime of their configuration. */
  function NotUnchanged(before: map<string, Runtime>, tasks: map<string, TaskConfig>): map<string, TaskConfig>
  {
    map n | n in tasks && !Unchanged(before, n, tasks) :: tasks[n]
  }

  predicate NothingToRun(cron: CronSyntax, cfgs: map<string, TaskConfig>)
  {
    forall n <- cfgs :: !Runs(cron, cfgs[n])
  }

  predicate Unchanged(before: map<string, Runtime>, n: string, tasks: map<string, TaskConfig>)
  {
    n in before && n in tasks && before[n].config == tasks[n]
  }

  /** The runtimes are already those the snapshot asks for. */
  ghost predicate Settled(cron: CronSyntax, runtimes: map<string, Runtime>, tasks: TaskMap)
  {
    && (forall n :: n in runtimes <==> n in tasks && Runs(cron, tasks[n]))
    && (forall n <- runtimes :: runtimes[n].config == tasks[n])
  }
}
