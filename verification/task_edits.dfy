/** Adding and changing tasks (internal/task/service.go, task.go) in the task file (internal/files/tasks.go). */
module TaskEdits {
  import opened Basics
  import opened Tasks

  datatype TaskPatch = TaskPatch(
    active: Option<bool>, name: Option<string>, description: Option<string>, recipients: Option<seq<string>>,
    reglament: Option<string>, request: Option<string>, oneshot: Option<bool>)

  datatype Failure = StorageFailed | NotExist | Invalid(problems: set<string>)

  datatype Lookup = Found | Missing | Broken

  function Or<T>(change: Option<T>, value: T): T
  {
    if change.Some? then change.value else value
  }

  function ApplyPatch(cfg: TaskConfig, patch: TaskPatch): TaskConfig
  {
    TaskConfig(
      Or(patch.name, cfg.name), Or(patch.description, cfg.description), Or(patch.recipients, cfg.recipients),
      Or(patch.reglament, cfg.reglament), Or(patch.request, cfg.request),
      Or(patch.active, cfg.active), Or(patch.oneshot, cfg.oneshot))
  }

  /** The value a field has behind a change: the changed one, if the change gives one. */
  predicate Takes<T(==)>(after: T, before: T, change: Option<T>)
  {
    (change.None? ==> after == before) && (change.Some? ==> after == change.value)
  }

  /** Each field of the patch changes that field of the task and no other. */
  predicate Patched(next: TaskConfig, cfg: TaskConfig, patch: TaskPatch)
  {
    && Takes(next.name, cfg.name, patch.name) && Takes(next.description, cfg.description, patch.description)
    && Takes(next.recipients, cfg.recipients, patch.recipients)
    && Takes(next.reglament, cfg.reglament, patch.reglament) && Takes(next.request, cfg.request, patch.request)
    && Takes(next.active, cfg.active, patch.active) && Takes(next.oneshot, cfg.oneshot, patch.oneshot)
  }

  /** The changed task is the one whose fields are patched, and no other. */
  lemma PatchIsFieldwise(cfg: TaskConfig, patch: TaskPatch, next: TaskConfig)
    ensures next == ApplyPatch(cfg, patch) <==> Patched(next, cfg, patch)
  {
  }

  /** What the loaded task file must offer to be run and shown. */
  predicate Complete(cron: CronSyntax, cfg: TaskConfig)
  {
    cfg.name != "" && cfg.description != "" && cfg.recipients != [] && cron(cfg.reglament) && cfg.request != ""
  }

  /** The change can be written: it is none, or it makes a complete task whose name is its own or free. */
  ghost predicate Acceptable(cron: CronSyntax, tasks: TaskMap, name: string, patch: TaskPatch)
  {
    name in tasks &&
    var next := ApplyPatch(tasks[name], patch);
    next == tasks[name] || (Complete(cron, next) && (next.name == name || next.name !in tasks))
  }

  /** No task that could not have been added. */
  ghost predicate AllComplete(cron: CronSyntax, tasks: TaskMap)
  {
    forall n <- tasks :: Complete(cron, tasks[n])
  }

  predicate AllFound(agents: string -> Lookup, recipients: seq<string>)
  {
    forall a <- recipients :: agents(a) == Found
  }

  ghost predicate Allowed(cron: CronSyntax, agents: string -> Lookup, tasks: TaskMap, name: string, patch: TaskPatch)
  {
    (patch.recipients.Some? ==> AllFound(agents, patch.recipients.value)) && Acceptable(cron, tasks, name, patch)
  }

  /** A rename whose removal under the old name works and whose saving under the new one fails. */
  ghost predicate Loses(cron: CronSyntax, agents: string -> Lookup, fails: nat -> bool, accesses: nat,
                        tasks: TaskMap, name: string, patch: TaskPatch)
  {
    && Allowed(cron, agents, tasks, name, patch) && ApplyPatch(tasks[name], patch).name != name
    && !fails(accesses) && !fails(accesses + 1) && !fails(accesses + 2) && fails(accesses + 3)
  }

  class Editor {
    const cron: CronSyntax
    const agents: string -> Lookup
    /** Which accesses to the task file fail. */
    const fails: nat -> bool
    var accesses: nat
    var tasks: TaskMap

    constructor (cron: CronSyntax, agents: string -> Lookup, fails: nat -> bool, tasks: TaskMap)
      ensures this.cron == cron && this.agents == agents && this.fails == fails
      ensures this.tasks == tasks && accesses == 0
    {
      this.cron, this.agents, this.fails, this.tasks := cron, agents, fails, tasks;
      accesses := 0;
    }

    // ----- the task file ----------------------------------------------------------------------

    method Get(name: string) returns (r: Result<TaskConfig, Failure>)
      modifies this`accesses
      ensures accesses == old(accesses) + 1
      ensures r == if fails(old(accesses)) then Err(StorageFailed)
                   else if name in tasks then Ok(tasks[name]) else Err(NotExist)
    {
      accesses := accesses + 1;
      if fails(accesses - 1) {
        return Err(StorageFailed);
      }
      r := if name in tasks then Ok(tasks[name]) else Err(NotExist);
    }

    method Save(cfg: TaskConfig) returns (err: Option<Failure>)
      modifies this
      ensures accesses == old(accesses) + 1
      ensures err == if fails(old(accesses)) then Some(StorageFailed) else None
      ensures tasks == if err.None? then old(tasks)[cfg.name := cfg] else old(tasks)
    {
      accesses := accesses + 1;
      if fails(accesses - 1) {
        return Some(StorageFailed);
      }
      tasks := tasks[cfg.name := cfg];
      err := None;
    }

    method Remove(name: string) returns (err: Option<Failure>)
      modifies this
      ensures accesses == old(accesses) + 1
      ensures err == if fails(old(accesses)) then Some(StorageFailed)
                     else if name in old(tasks) then None else Some(NotExist)
      ensures tasks == if err.None? then old(tasks) - {name} else old(tasks)
    {
      accesses := accesses + 1;
      if fails(accesses - 1) {
        return Some(StorageFailed);
      }
      if name !in tasks {
        return Some(NotExist);
      }
      tasks := tasks - {name};
      err := None;
    }

    // ----- validation -------------------------------------------------------------------------

    method Validate(cfg: TaskConfig) returns (err: Option<Failure>)
      ensures err.None? <==> Complete(cron, cfg)
      ensures err.Some? ==>
                && err.value.Invalid?
                && ("name" in err.value.problems <==> cfg.name == "")
                && ("description" in err.value.problems <==> cfg.description == "")
                && ("recipients" in err.value.problems <==> cfg.recipients == [])
                && ("schedule" in err.value.problems <==> !cron(cfg.reglament))
                && ("request" in err.value.problems <==> cfg.request == "")
    {
      var problems: set<string> := {};
      if cfg.name == "" {
        problems := problems + {"name"};
      }
      if cfg.description == "" {
        problems := problems + {"description"};
      }
      if !(|cfg.recipients| > 0) {
        problems := problems + {"recipients"};
      }
      if !cron(cfg.reglament) {
        problems := problems + {"schedule"};
      }
      if cfg.request == "" {
        problems := problems + {"request"};
      }
      err := if problems != {} then Some(Invalid(problems)) else None;
    }

    /** All missing agents are named together, unless the agents cannot be read. */
    method ValidateRecipients(recipients: seq<string>) returns (err: Option<Failure>)
      ensures err.None? <==> AllFound(agents, recipients)
      ensures err == Some(StorageFailed) <==> exists a <- recipients :: agents(a) == Broken
      ensures err.Some? && err.value.Invalid? ==>
                forall a :: a in err.value.problems <==> a in recipients && agents(a) == Missing
      ensures err != Some(NotExist)
    {
      var problems: set<string> := {};
      for i := 0 to |recipients|
        invariant forall a <- recipients[..i] :: agents(a) != Broken
        invariant forall a :: a in problems <==> a in recipients[..i] && agents(a) == Missing
      {
        assert recipients[..i + 1] == recipients[..i] + [recipients[i]];
        match agents(recipients[i]) {
          case Found =>
          case Missing => problems := problems + {recipients[i]};
          case Broken => return Some(StorageFailed);
        }
      }
      assert recipients[..|recipients|] == recipients;
      if problems != {} {
        return Some(Invalid(problems));
      }
      err := None;
    }

    method ValidateIdentity(name: string) returns (err: Option<Failure>)
      modifies this`accesses
      ensures accesses == old(accesses) + 1
      ensures err.None? <==> !fails(old(accesses)) && name !in tasks
      ensures err.None? || err == Some(StorageFailed) || err == Some(Invalid({name}))
    {
      var r := Get(name);
      err := match r
        case Ok(_) => Some(Invalid({name}))
        case Err(NotExist) => None
        case Err(e) => Some(e);
    }

    // ----- the edits --------------------------------------------------------------------------

    /** A new task never replaces one, and is written or nothing changes. */
    method Add(cfg: TaskConfig) returns (err: Option<Failure>)
      modifies this
      ensures AllComplete(cron, old(tasks)) ==> AllComplete(cron, tasks)
      ensures err.None? <==>
                && Complete(cron, cfg) && AllFound(agents, cfg.recipients) && cfg.name !in old(tasks)
                && !fails(old(accesses)) && !fails(old(accesses) + 1)
      ensures tasks == if err.None? then old(tasks)[cfg.name := cfg] else old(tasks)
    {
      err := Validate(cfg);
      if err.Some? {
        return;
      }
      err := ValidateRecipients(cfg.recipients);
      if err.Some? {
        return;
      }
      err := ValidateIdentity(cfg.name);
      if err.Some? {
        return;
      }
      err := Save(cfg);
    }

    /** A change that succeeds replaces the task by the changed one, under its name, and touches no other.
        One that fails changes nothing, except that a renamed task is lost exactly when it was removed
        under the old name and then could not be saved under the new one. */
    method Patch(name: string, patch: TaskPatch) returns (err: Option<Failure>)
      modifies this
      ensures AllComplete(cron, old(tasks)) ==> AllComplete(cron, tasks)
      ensures err.None? ==>
                && Allowed(cron, agents, old(tasks), name, patch)
                && var next := ApplyPatch(old(tasks)[name], patch);
                tasks == (old(tasks) - {name})[next.name := next]
      ensures err.Some? && tasks != old(tasks) <==> Loses(cron, agents, fails, old(accesses), old(tasks), name, patch)
      ensures err.Some? && tasks != old(tasks) ==> tasks == old(tasks) - {name}
      ensures (Allowed(cron, agents, old(tasks), name, patch)
               && forall i :: old(accesses) <= i < old(accesses) + 4 ==> !fails(i)) ==> err.None?
    {
      err := None;
      if patch.recipients.Some? {
        err := ValidateRecipients(patch.recipients.value);
        if err.Some? {
          return;
        }
      }
      var got := Get(name);
      if got.Err? {
        return Some(got.error);
      }
      var cfg := got.value;
      var next := ApplyPatch(cfg, patch);
      ghost var allowed := Allowed(cron, agents, tasks, name, patch);
      if next.Equals(cfg) {
        // no need to update
        Replaced(tasks, name, next);
        return None;
      }
      err := Validate(next);
      if err.Some? {
        return;
      }
      if patch.name.Some? && patch.name.value != cfg.name {
        err := ValidateIdentity(patch.name.value);
        if err.Some? {
          return;
        }
        err := Remove(cfg.name);
        if err.Some? {
          return;
        }
      }
      assert allowed;
      Replaced(tasks, name, next);
      if AllComplete(cron, old(tasks)) {
        PatchKeepsComplete(cron, old(tasks), name, patch);
      }
      err := Save(next);
    }
  }

  /** Whatever a patch does to the tasks, they stay complete. */
  lemma PatchKeepsComplete(cron: CronSyntax, before: TaskMap, name: string, patch: TaskPatch)
    requires Acceptable(cron, before, name, patch) && AllComplete(cron, before)
    ensures AllComplete(cron, before - {name})
    ensures var next := ApplyPatch(before[name], patch); AllComplete(cron, (before - {name})[next.name := next])
  {
  }

  lemma Replaced(tasks: map<string, TaskConfig>, name: string, cfg: TaskConfig)
    ensures tasks[name := cfg] == (tasks - {name})[name := cfg]
    ensures name in tasks && tasks[name] == cfg ==> tasks[name := cfg] == tasks
  {
  }

  const REPORT := TaskConfig("a", "d", ["x"], "@daily", "r", true, false)

  const RENAME := TaskPatch(None, Some("b"), None, None, None, None, None)

  const ANY_CRON: CronSyntax := s => true

  const ALL_FOUND: string -> Lookup := s => Found

  const FOURTH_FAILS: nat -> bool := n => n == 3

  /** Renaming the only task of a file whose fourth access fails. */
  lemma RenameCanLose()
    ensures Loses(ANY_CRON, ALL_FOUND, FOURTH_FAILS, 0, map["a" := REPORT], "a", RENAME)
  {
    assert ApplyPatch(REPORT, RENAME).name == "b";
  }

  /** The same as a run: nothing is left of the file. */
  method LoseRenamedTask() returns (e: Editor, err: Option<Failure>)
    ensures fresh(e) && err.Some? && e.tasks == map[]
  {
    e := new Editor(ANY_CRON, ALL_FOUND, FOURTH_FAILS, map["a" := REPORT]);
    RenameCanLose();
    ghost var before := e.tasks;
    err := e.Patch("a", RENAME);
    assert before - {"a"} == map[];
    assert ApplyPatch(before["a"], RENAME).name == "b" && "b" !in before;
  }
}
