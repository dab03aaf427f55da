/** Per-path reader/writer locks that exist only while somebody uses them (internal/files/locktable.go).
    An entry pointer is modelled by the number of its allocation. */
module LockTables {
  import opened Basics
  import opened Totals

  /** The table and the reference counts of all entries ever allocated; next is the next allocation. */
  datatype Table = Table(locks: map<string, nat>, refs: map<nat, int>, next: nat)

  datatype Acquisition = Acquisition(table: Table, entry: nat)

  /** The counter of an entry; entries start at zero. */
  function Refs(t: Table, e: nat): int
  {
    if e in t.refs then t.refs[e] else 0
  }

  function Acquire(t: Table, path: string): Acquisition
  {
    if path in t.locks then
      var e := t.locks[path];
      Acquisition(t.(refs := t.refs[e := Refs(t, e) + 1]), e)
    else
      Acquisition(Table(t.locks[path := t.next], t.refs[t.next := 1], t.next + 1), t.next)
  }

  function Release(t: Table, path: string, e: nat): Table
  {
    var t1 := t.(refs := t.refs[e := Refs(t, e) - 1]);
    if t1.refs[e] == 0 then t1.(locks := t1.locks - {path}) else t1
  }

  /** The critical sections under the table's own mutex. */
  class LockTable {
    var locks: map<string, nat>
    var refs: map<nat, int>
    var next: nat

    function View(): Table
      reads this
    {
      Table(locks, refs, next)
    }

    constructor ()
      ensures View() == Table(map[], map[], 0)
    {
      locks, refs, next := map[], map[], 0;
    }

    method AcquireEntry(path: string) returns (e: nat)
      modifies this
      ensures Acquisition(View(), e) == Acquire(old(View()), path)
    {
      if path in locks {
        e := locks[path];
      } else {
        e := next;
        next := next + 1;
        refs := refs[e := 0];
        locks := locks[path := e];
      }
      refs := refs[e := Refs(View(), e) + 1];
      assert View().refs == Acquire(old(View()), path).table.refs;
    }

    method ReleaseEntry(path: string, e: nat)
      modifies this
      ensures View() == Release(old(View()), path, e)
    {
      refs := refs[e := Refs(View(), e) - 1];
      if refs[e] == 0 {
        locks := locks - {path};
      }
    }
  }

  // ----- threads -----------------------------------------------------------------------------

  datatype Mode = Read | Write

  /** Acquired: has the entry, waits for its mutex. Released: has unlocked it, still counted. */
  datatype PC = Start | Acquired(entry: nat) | Holding(entry: nat) | Released(entry: nat) | Finished

  datatype Thread = Thread(path: string, mode: Mode, pc: PC)

  datatype State = State(threads: Threads, table: Table)

  /** The entry a thread has acquired and not yet released. */
  function Handle(pc: PC): Option<nat>
  {
    match pc
    case Acquired(e) => Some(e)
    case Holding(e) => Some(e)
    case Released(e) => Some(e)
    case _ => None
  }

  type Threads = map<nat, Thread>

  /** The live handles of an entry. */
  function Handles(threads: Threads, e: nat): set<nat>
  {
    set t | t in threads && Handle(threads[t].pc) == Some(e)
  }

  function Holders(s: State, e: nat): set<nat>
  {
    set t | t in s.threads && s.threads[t].pc == Holding(e)
  }

  /** sync.RWMutex: a writer alone, or readers only. (When a writer is waiting the real mutex holds new
      readers back as well; that only removes interleavings.) */
  predicate MayLock(s: State, e: nat, mode: Mode)
  {
    if mode == Write then Holders(s, e) == {}
    else forall t <- Holders(s, e) :: s.threads[t].mode == Read
  }

  predicate Init(s: State)
  {
    s.table == Table(map[], map[], 0) && forall t <- s.threads :: s.threads[t].pc == Start
  }

  predicate Enabled(s: State, t: nat)
  {
    t in s.threads &&
    match s.threads[t].pc
    case Start => true
    case Acquired(e) => MayLock(s, e, s.threads[t].mode)
    case Holding(_) => true
    case Released(_) => true
    case Finished => false
  }

  function Moved(s: State, t: nat, pc: PC): State
    requires t in s.threads
  {
    s.(threads := s.threads[t := s.threads[t].(pc := pc)])
  }

  /** The next step of thread t. */
  function Next(s: State, t: nat): State
    requires Enabled(s, t)
  {
    var th := s.threads[t];
    match th.pc
    case Start =>
      var a := Acquire(s.table, th.path);
      Moved(s.(table := a.table), t, Acquired(a.entry))
    case Acquired(e) => Moved(s, t, Holding(e))
    case Holding(e) => Moved(s, t, Released(e))
    case Released(e) => Moved(s.(table := Release(s.table, th.path, e)), t, Finished)
    case Finished => s
  }

  // ----- the invariant ---------------------------------------------------------------------------

  /** A live handle is a handle to the entry that the table has for the path. */
  predicate HandleInv(s: State, t: nat)
    requires t in s.threads
  {
    var th := s.threads[t];
    Handle(th.pc).Some? ==>
      && th.path in s.table.locks && Handle(th.pc) == Some(s.table.locks[th.path])
      && s.table.locks[th.path] in s.table.refs
  }

  ghost predicate TableInv(s: State)
  {
    && (forall e :: e in s.table.refs ==> e < s.table.next && s.table.refs[e] == |Handles(s.threads, e)|)
    && (forall p :: p in s.table.locks ==> s.table.locks[p] in s.table.refs && s.table.refs[s.table.locks[p]] > 0)
    && (forall p, q :: p in s.table.locks && q in s.table.locks && s.table.locks[p] == s.table.locks[q] ==> p == q)
  }

  ghost predicate Exclusive(s: State)
  {
    forall t, u :: t in s.threads && u in s.threads && t != u
                   && s.threads[t].pc.Holding? && s.threads[u].pc == s.threads[t].pc ==>
      s.threads[t].mode == Read && s.threads[u].mode == Read
  }

  ghost predicate Inv(s: State)
  {
    (forall t :: t in s.threads ==> HandleInv(s, t)) && TableInv(s) && Exclusive(s)
  }

  lemma InitInv(s: State)
    requires Init(s)
    ensures Inv(s)
  {
  }

  // ----- steps keep the invariant ------------------------------------------------------------------

  lemma MovedHandles(threads: Threads, t: nat, pc: PC, e: nat)
    requires t in threads
    ensures Handles(threads[t := threads[t].(pc := pc)], e)
         == (if Handle(pc) == Some(e) then Handles(threads, e) + {t} else Handles(threads, e) - {t})
  {
  }

  /** A step that keeps the handle keeps all counts. */
  lemma SameHandles(s: State, t: nat, pc: PC)
    requires Inv(s) && t in s.threads && Handle(pc) == Handle(s.threads[t].pc)
    ensures TableInv(Moved(s, t, pc))
    ensures forall u :: u in s.threads ==> HandleInv(Moved(s, t, pc), u)
  {
    var s' := Moved(s, t, pc);
    forall e | e in s.table.refs ensures Handles(s'.threads, e) == Handles(s.threads, e) {
      MovedHandles(s.threads, t, pc, e);
    }
    forall u | u in s.threads ensures HandleInv(s', u) {
      assert HandleInv(s, u);
    }
  }

  lemma AcquireKeepsTable(s: State, t: nat)
    requires Inv(s) && t in s.threads && s.threads[t].pc == Start
    ensures TableInv(Next(s, t))
    ensures forall u :: u in s.threads ==> HandleInv(Next(s, t), u)
  {
    var s' := Next(s, t);
    forall e | e in s'.table.refs ensures e < s'.table.next && s'.table.refs[e] == |Handles(s'.threads, e)| {
      AcquireCounts(s, t, e);
    }
    forall u | u in s.threads ensures HandleInv(s', u) {
      assert HandleInv(s, u);
    }
  }

  lemma AcquireCounts(s: State, t: nat, e: nat)
    requires Inv(s) && t in s.threads && s.threads[t].pc == Start && e in Next(s, t).table.refs
    ensures e < Next(s, t).table.next && Next(s, t).table.refs[e] == |Handles(Next(s, t).threads, e)|
  {
    MovedHandles(s.threads, t, Acquired(Acquire(s.table, s.threads[t].path).entry), e);
    assert t !in Handles(s.threads, e);
    if e !in s.table.refs {
      NoStrayHandles(s, e);
    }
  }

  lemma NoStrayHandles(s: State, e: nat)
    requires Inv(s) && e !in s.table.refs
    ensures Handles(s.threads, e) == {}
  {
    forall u | u in s.threads ensures Handle(s.threads[u].pc) != Some(e) {
      assert HandleInv(s, u);
    }
  }

  lemma ReleaseCounts(s: State, t: nat, x: nat)
    requires Inv(s) && t in s.threads && s.threads[t].pc.Released?
    ensures Next(s, t).table.refs.Keys == s.table.refs.Keys
    ensures x in s.table.refs ==> Next(s, t).table.refs[x] == |Handles(Next(s, t).threads, x)|
  {
    assert HandleInv(s, t);
    ReleaseHandles(s.threads, t, s.threads[t].pc.entry, x);
  }

  lemma ReleaseHandles(threads: Threads, t: nat, e: nat, x: nat)
    requires t in threads && threads[t].pc == Released(e)
    ensures |Handles(threads[t := threads[t].(pc := Finished)], x)| ==
            if x == e then |Handles(threads, x)| - 1 else |Handles(threads, x)|
  {
    MovedHandles(threads, t, Finished, x);
    if x == e {
      assert t in Handles(threads, e);
    } else {
      assert Handles(threads, x) - {t} == Handles(threads, x);
    }
  }

  lemma ReleaseLocks(s: State, t: nat)
    requires Inv(s) && t in s.threads && s.threads[t].pc.Released?
    ensures var s', path := Next(s, t), s.threads[t].path;
            && path in s.table.locks && s.table.locks[path] == s.threads[t].pc.entry
            && (forall p :: p in s'.table.locks ==> p in s.table.locks && s'.table.locks[p] == s.table.locks[p])
            && (forall p :: p in s.table.locks && p != path ==> p in s'.table.locks)
            && (path in s'.table.locks <==> s'.table.refs[s.threads[t].pc.entry] != 0)
  {
    assert HandleInv(s, t);
  }

  lemma ReleaseKeepsHandle(s: State, t: nat, u: nat)
    requires Inv(s) && t in s.threads && s.threads[t].pc.Released? && u in s.threads
    ensures HandleInv(Next(s, t), u)
  {
    var e, s' := s.threads[t].pc.entry, Next(s, t);
    assert HandleInv(s, u);
    ReleaseLocks(s, t);
    ReleaseCounts(s, t, e);
    if u != t && Handle(s.threads[u].pc) == Some(e) {
      assert u in Handles(s'.threads, e);
    }
  }

  lemma ReleaseKeepsTable(s: State, t: nat)
    requires Inv(s) && t in s.threads && s.threads[t].pc.Released?
    ensures TableInv(Next(s, t))
  {
    var e, path, s' := s.threads[t].pc.entry, s.threads[t].path, Next(s, t);
    ReleaseLocks(s, t);
    forall x | x in s'.table.refs ensures x < s'.table.next && s'.table.refs[x] == |Handles(s'.threads, x)| {
      ReleaseCounts(s, t, x);
    }
    ReleaseCounts(s, t, e);
    forall p | p in s'.table.locks ensures s'.table.locks[p] in s'.table.refs && s'.table.refs[s'.table.locks[p]] > 0 {
      assert p != path ==> s.table.locks[p] != e;
    }
  }

  lemma StepExclusive(s: State, t: nat)
    requires Inv(s) && Enabled(s, t)
    ensures Exclusive(Next(s, t))
  {
    var s' := Next(s, t);
    if s.threads[t].pc.Acquired? {
      var e := s.threads[t].pc.entry;
      forall u | u in s.threads && u != t && s.threads[u].pc == Holding(e)
        ensures s.threads[t].mode == Read && s.threads[u].mode == Read
      {
        assert u in Holders(s, e);
      }
    }
  }

  lemma StepKeepsInv(s: State, t: nat)
    requires Inv(s) && Enabled(s, t)
    ensures Inv(Next(s, t))
  {
    StepExclusive(s, t);
    match s.threads[t].pc {
      case Start => AcquireKeepsTable(s, t);
      case Acquired(e) => SameHandles(s, t, Holding(e));
      case Holding(e) => SameHandles(s, t, Released(e));
      case Released(_) =>
        ReleaseKeepsTable(s, t);
        forall u | u in s.threads ensures HandleInv(Next(s, t), u) {
          ReleaseKeepsHandle(s, t, u);
        }
    }
  }

  // ----- runs ----------------------------------------------------------------------------------------

  /** An interleaving: which thread moves, step by step. */
  predicate Schedule(s: State, ts: seq<nat>)
    decreases |ts|, 0
  {
    ts == [] || (Schedule(s, Front(ts)) && Enabled(Execute(s, Front(ts)), Last(ts)))
  }

  function Execute(s: State, ts: seq<nat>): State
    requires Schedule(s, ts)
    decreases |ts|, 1
  {
    if ts == [] then s else Next(Execute(s, Front(ts)), Last(ts))
  }

  lemma {:induction false} Reachable(s: State, ts: seq<nat>)
    requires Init(s) && Schedule(s, ts)
    ensures Inv(Execute(s, ts))
  {
    if ts == [] {
      InitInv(s);
    } else {
      Reachable(s, Front(ts));
      StepKeepsInv(Execute(s, Front(ts)), Last(ts));
    }
  }

  ghost predicate HasHandle(s: State, path: string)
  {
    exists t :: t in s.threads && Handle(s.threads[t].pc).Some? && s.threads[t].path == path
  }

  /** In every interleaving of any number of threads: the counts are the live handles, a path is in the
      table exactly while it has one, and all live handles of a path are to the table's entry for it. */
  lemma TableIsExact(init: State, ts: seq<nat>)
    requires Init(init) && Schedule(init, ts)
    ensures var s := Execute(init, ts);
            && (forall e :: e in s.table.refs ==> s.table.refs[e] == |Handles(s.threads, e)|)
            && (forall p :: p in s.table.locks <==> HasHandle(s, p))
            && (forall t :: t in s.threads ==> HandleInv(s, t))
  {
    Reachable(init, ts);
    var s := Execute(init, ts);
    forall p ensures p in s.table.locks <==> HasHandle(s, p) {
      LockedHasHandle(s, p);
      if HasHandle(s, p) {
        var t :| t in s.threads && Handle(s.threads[t].pc).Some? && s.threads[t].path == p;
        assert HandleInv(s, t);
      }
    }
  }

  lemma LockedHasHandle(s: State, p: string)
    requires Inv(s)
    ensures p in s.table.locks ==> HasHandle(s, p)
  {
    if p in s.table.locks {
      var e := s.table.locks[p];
      assert |Handles(s.threads, e)| > 0;
      var t :| t in Handles(s.threads, e);
      assert HandleInv(s, t);
    }
  }

  /** Two threads inside the lock of one path are both readers. */
  lemma NoWriterInCompany(init: State, ts: seq<nat>, t: nat, u: nat)
    requires Init(init) && Schedule(init, ts) && t != u
    requires var s := Execute(init, ts);
             && t in s.threads && u in s.threads && s.threads[t].path == s.threads[u].path
             && s.threads[t].pc.Holding? && s.threads[u].pc.Holding?
    ensures Execute(init, ts).threads[t].mode == Read && Execute(init, ts).threads[u].mode == Read
  {
    Reachable(init, ts);
    assert HandleInv(Execute(init, ts), t) && HandleInv(Execute(init, ts), u);
  }

  predicate Quiet(s: State)
  {
    forall t <- s.threads :: s.threads[t].pc.Start? || s.threads[t].pc.Finished?
  }

  /** When nobody is inside, nothing is left behind. */
  lemma QuietTableEmpty(init: State, ts: seq<nat>)
    requires Init(init) && Schedule(init, ts)
    requires Quiet(Execute(init, ts))
    ensures Execute(init, ts).table.locks == map[]
  {
    Reachable(init, ts);
    var s := Execute(init, ts);
    forall p | p in s.table.locks ensures HasHandle(s, p) {
      LockedHasHandle(s, p);
    }
  }

  /** A thread that no policy of the mutex can hold back: it does not wait, or nobody holds its entry. */
  predicate Free(s: State, t: nat)
  {
    && t in s.threads && !s.threads[t].pc.Finished?
    && (s.threads[t].pc.Acquired? ==> Holders(s, s.threads[t].pc.entry) == {})
  }

  /** Threads that use one path at a time never deadlock: while one has not finished, a free one exists,
      and a free thread is enabled. */
  lemma NeverDeadlocked(s: State, u: nat) returns (t: nat)
    requires u in s.threads && !s.threads[u].pc.Finished?
    ensures Free(s, t) && Enabled(s, t)
  {
    t := u;
    if s.threads[u].pc.Acquired? && Holders(s, s.threads[u].pc.entry) != {} {
      t :| t in Holders(s, s.threads[u].pc.entry);
    }
  }

  /** Steps a thread may still take. */
  function Left(pc: PC): nat
  {
    match pc
    case Start => 4
    case Acquired(_) => 3
    case Holding(_) => 2
    case Released(_) => 1
    case Finished => 0
  }

  function Lefts(threads: Threads): map<nat, nat>
  {
    map t | t in threads :: Left(threads[t].pc)
  }

  lemma StepLefts(s: State, t: nat)
    requires Enabled(s, t)
    ensures Left(s.threads[t].pc) > 0
    ensures Lefts(Next(s, t).threads) == Lefts(s.threads)[t := Left(s.threads[t].pc) - 1]
  {
  }

  lemma {:induction false} ScheduleLefts(init: State, ts: seq<nat>)
    requires Init(init) && Schedule(init, ts)
    ensures |ts| + Total(Lefts(Execute(init, ts).threads)) == 4 * |init.threads|
  {
    if ts == [] {
      AllAtStart(init.threads);
    } else {
      ScheduleLefts(init, Front(ts));
      var s, t := Execute(init, Front(ts)), Last(ts);
      StepLefts(s, t);
      TotalUpdate(Lefts(s.threads), t, Left(s.threads[t].pc) - 1);
    }
  }

  lemma {:induction false} AllAtStart(threads: Threads)
    requires forall t <- threads :: threads[t].pc == Start
    ensures Total(Lefts(threads)) == 4 * |threads|
    decreases |threads|
  {
    if threads != map[] {
      var t :| t in threads;
      AllAtStart(threads - {t});
      TotalOf(Lefts(threads), t);
      assert Lefts(threads) - {t} == Lefts(threads - {t});
      assert |threads - {t}| == |threads| - 1;
    }
  }

  /** Every interleaving of any number of threads is finite, with at most four steps for each; and one
      that cannot be continued has all threads finished and the table empty. */
  lemma AllThreadsFinish(init: State, ts: seq<nat>)
    requires Init(init) && Schedule(init, ts)
    ensures |ts| <= 4 * |init.threads|
    ensures (forall t :: !Enabled(Execute(init, ts), t)) ==>
              && (forall t <- Execute(init, ts).threads :: Execute(init, ts).threads[t].pc.Finished?)
              && Execute(init, ts).threads.Keys == init.threads.Keys
              && Execute(init, ts).table.locks == map[]
  {
    ScheduleLefts(init, ts);
    SameThreads(init, ts);
    var s := Execute(init, ts);
    if forall t :: !Enabled(s, t) {
      forall u | u in s.threads ensures s.threads[u].pc.Finished? {
        if !s.threads[u].pc.Finished? {
          var t := NeverDeadlocked(s, u);
        }
      }
      QuietTableEmpty(init, ts);
    }
  }

  lemma {:induction false} SameThreads(init: State, ts: seq<nat>)
    requires Schedule(init, ts)
    ensures Execute(init, ts).threads.Keys == init.threads.Keys
  {
    if ts != [] {
      SameThreads(init, Front(ts));
    }
  }
}
