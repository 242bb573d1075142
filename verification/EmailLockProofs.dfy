/** Tasks entering, waiting for, holding and leaving per-email locks in any
    interleaving, while entries for other addresses are pruned. */
module EmailLockProofs {
  import opened Wrappers
  import opened Text
  import opened EmailLockTable

  datatype Task = Task(key: string, lock: nat, holding: bool)

  datatype System = System(locks: Locks, refs: Refs, created: nat, tasks: map<int, Task>)

  const INITIAL := System(map[], map[], 0, map[])

  // Between two steps any other task may run; each step is what the event
  // loop runs without interruption.
  datatype Step =
    | Enter(task: int, email: string, now: real, gone: set<string>, pruned: Locks)
    | Grant(task: int)           // the lock is free and this waiter gets it
    | CancelWaiting(task: int)
    | Exit(task: int)

  predicate LockFree(tasks: map<int, Task>, lock: nat) {
    forall u | u in tasks :: tasks[u].lock == lock ==> !tasks[u].holding
  }

  ghost predicate Enabled(s: System, step: Step) {
    match step
    case Enter(t, email, now, gone, pruned) => t !in s.tasks && Pruned(s.locks, s.refs.Keys, now, gone, pruned)
    case Grant(t) => t in s.tasks && !s.tasks[t].holding && LockFree(s.tasks, s.tasks[t].lock)
    case CancelWaiting(t) => t in s.tasks && !s.tasks[t].holding
    case Exit(t) => t in s.tasks && s.tasks[t].holding
  }

  function Leave(s: System, t: int): System
    requires t in s.tasks
  {
    s.(refs := Released(s.refs, s.tasks[t].key), tasks := s.tasks - {t})
  }

  ghost function Next(s: System, step: Step): System
    requires Enabled(s, step)
  {
    match step
    case Enter(t, email, now, gone, pruned) =>
      var key := NormalEmail(email);
      var lock := LockFor(pruned, key, s.created);
      System(Touched(pruned, key, lock, now), Referenced(s.refs, key),
             NextCreated(pruned, key, s.created), s.tasks[t := Task(key, lock, false)])
    case Grant(t) => s.(tasks := s.tasks[t := s.tasks[t].(holding := true)])
    case CancelWaiting(t) => Leave(s, t)
    case Exit(t) => Leave(s, t)
  }

  ghost function After(steps: seq<Step>): Option<System> {
    if steps == [] then Some(INITIAL)
    else
      match After(steps[..|steps| - 1])
      case None => None
      case Some(s) => if Enabled(s, steps[|steps| - 1]) then Some(Next(s, steps[|steps| - 1])) else None
  }

  // ---- The invariant ----

  function TasksOn(tasks: map<int, Task>, key: string): set<int> {
    set t | t in tasks && tasks[t].key == key
  }

  /** Every reference is a holder or a waiter, and they are all counted. */
  ghost predicate Counted(refs: Refs, tasks: map<int, Task>) {
    Counts(refs) && forall k :: RefsOf(refs, k) == |TasksOn(tasks, k)|
  }

  /** Every task inside acquire shares the one lock in the table for its key. */
  ghost predicate Shared(locks: Locks, tasks: map<int, Task>) {
    forall t | t in tasks :: tasks[t].key in locks && locks[tasks[t].key].lock == tasks[t].lock
  }

  ghost predicate DistinctLocks(locks: Locks, created: nat) {
    && (forall k | k in locks :: locks[k].lock < created)
    && (forall k1, k2 | k1 in locks && k2 in locks && k1 != k2 :: locks[k1].lock != locks[k2].lock)
  }

  ghost predicate OneHolder(tasks: map<int, Task>) {
    forall t, u | t in tasks && u in tasks && tasks[t].holding && tasks[u].holding :: tasks[t].lock == tasks[u].lock ==> t == u
  }

  ghost predicate Inv(s: System) {
    && Counted(s.refs, s.tasks)
    && Shared(s.locks, s.tasks)
    && DistinctLocks(s.locks, s.created)
    && OneHolder(s.tasks)
  }

  // ---- Counting ----

  lemma TasksOnEnter(tasks: map<int, Task>, t: int, task: Task, key: string)
    requires t !in tasks
    ensures |TasksOn(tasks[t := task], key)| == |TasksOn(tasks, key)| + if key == task.key then 1 else 0
  {
    if key == task.key {
      assert TasksOn(tasks[t := task], key) == TasksOn(tasks, key) + {t};
    } else {
      assert TasksOn(tasks[t := task], key) == TasksOn(tasks, key);
    }
  }

  lemma CountedEnter(refs: Refs, tasks: map<int, Task>, t: int, task: Task)
    requires Counted(refs, tasks) && t !in tasks
    ensures Counted(Referenced(refs, task.key), tasks[t := task])
  {
    forall k ensures RefsOf(Referenced(refs, task.key), k) == |TasksOn(tasks[t := task], k)| {
      TasksOnEnter(tasks, t, task, k);
      assert RefsOf(refs, k) == |TasksOn(tasks, k)|;
    }
  }

  lemma CountedLeave(refs: Refs, tasks: map<int, Task>, t: int)
    requires Counted(refs, tasks) && t in tasks
    ensures Counted(Released(refs, tasks[t].key), tasks - {t})
  {
    var key := tasks[t].key;
    var refs', tasks' := Released(refs, key), tasks - {t};
    forall k ensures RefsOf(refs', k) == |TasksOn(tasks', k)| {
      assert RefsOf(refs, k) == |TasksOn(tasks, k)|;
      if k == key {
        assert t in TasksOn(tasks, k);
        assert TasksOn(tasks', k) == TasksOn(tasks, k) - {t};
      } else {
        assert TasksOn(tasks', k) == TasksOn(tasks, k);
      }
    }
  }

  lemma CountedGrant(refs: Refs, tasks: map<int, Task>, t: int)
    requires Counted(refs, tasks) && t in tasks
    ensures Counted(refs, tasks[t := tasks[t].(holding := true)])
  {
    var tasks' := tasks[t := tasks[t].(holding := true)];
    forall k ensures RefsOf(refs, k) == |TasksOn(tasks', k)| {
      assert TasksOn(tasks', k) == TasksOn(tasks, k);
    }
  }

  /** A task's key is referenced, so pruning cannot take it. */
  lemma TaskPins(refs: Refs, tasks: map<int, Task>, t: int)
    requires Counted(refs, tasks) && t in tasks
    ensures tasks[t].key in refs
  {
    assert t in TasksOn(tasks, tasks[t].key);
    assert RefsOf(refs, tasks[t].key) == |TasksOn(tasks, tasks[t].key)|;
  }

  // ---- Steps ----

  lemma PrunedKeeps(s: System, now: real, gone: set<string>, pruned: Locks)
    requires Inv(s) && Pruned(s.locks, s.refs.Keys, now, gone, pruned)
    ensures Shared(pruned, s.tasks) && DistinctLocks(pruned, s.created)
  {
    PrunedMeans(s.locks, s.refs.Keys, now, gone, pruned);
    forall t | t in s.tasks ensures s.tasks[t].key in pruned && pruned[s.tasks[t].key].lock == s.tasks[t].lock {
      TaskPins(s.refs, s.tasks, t);
    }
  }

  lemma EnterKeeps(s: System, step: Step)
    requires Inv(s) && Enabled(s, step) && step.Enter?
    ensures Inv(Next(s, step))
  {
    var key := NormalEmail(step.email);
    var lock := LockFor(step.pruned, key, s.created);
    PrunedKeeps(s, step.now, step.gone, step.pruned);
    CountedEnter(s.refs, s.tasks, step.task, Task(key, lock, false));
    RegisterKeeps(step.pruned, s.created, key, step.now, s.tasks, step.task);
  }

  lemma RegisterKeeps(locks: Locks, created: nat, key: string, now: real, tasks: map<int, Task>, t: int)
    requires Shared(locks, tasks) && DistinctLocks(locks, created) && OneHolder(tasks) && t !in tasks
    ensures var lock := LockFor(locks, key, created);
            && Shared(Touched(locks, key, lock, now), tasks[t := Task(key, lock, false)])
            && DistinctLocks(Touched(locks, key, lock, now), NextCreated(locks, key, created))
            && OneHolder(tasks[t := Task(key, lock, false)])
  {
  }

  lemma StepKeeps(s: System, step: Step)
    requires Inv(s) && Enabled(s, step)
    ensures Inv(Next(s, step))
  {
    match step
    case Enter(_, _, _, _, _) => EnterKeeps(s, step);
    case Grant(t) => CountedGrant(s.refs, s.tasks, t);
    case CancelWaiting(t) => CountedLeave(s.refs, s.tasks, t);
    case Exit(t) => CountedLeave(s.refs, s.tasks, t);
  }

  lemma {:induction false} RunKeeps(steps: seq<Step>)
    requires After(steps).Some?
    ensures Inv(After(steps).value)
  {
    if steps != [] {
      RunKeeps(steps[..|steps| - 1]);
      StepKeeps(After(steps[..|steps| - 1]).value, steps[|steps| - 1]);
    } else {
      assert forall k :: TasksOn(map[], k) == {};
    }
  }

  // ---- When an address was last entered ----

  function LastEntered(steps: seq<Step>, key: string): Option<real> {
    if steps == [] then None
    else
      match steps[|steps| - 1]
      case Enter(_, email, now, _, _) =>
        if NormalEmail(email) == key then Some(now) else LastEntered(steps[..|steps| - 1], key)
      case _ => LastEntered(steps[..|steps| - 1], key)
  }

  /** The age by which pruning judges an entry runs from the last time that a
      task entered for the address, and leaving does not renew it. */
  lemma {:induction false} TouchedWhenEntered(steps: seq<Step>, key: string)
    requires After(steps).Some? && key in After(steps).value.locks
    ensures LastEntered(steps, key) == Some(After(steps).value.locks[key].touched)
  {
    if steps != [] {
      var s, step := After(steps[..|steps| - 1]).value, steps[|steps| - 1];
      if step.Enter? {
        PrunedMeans(s.locks, s.refs.Keys, step.now, step.gone, step.pruned);
      }
      if key in s.locks {
        TouchedWhenEntered(steps[..|steps| - 1], key);
      }
    }
  }

  // ---- Theorems ----

  /** At most one task holds the lock of a normalised address. */
  lemma MutualExclusion(steps: seq<Step>, t: int, u: int)
    requires After(steps).Some?
    ensures var tasks := After(steps).value.tasks;
            t in tasks && u in tasks && tasks[t].holding && tasks[u].holding && tasks[t].key == tasks[u].key ==> t == u
  {
    RunKeeps(steps);
    var s := After(steps).value;
    if t in s.tasks && u in s.tasks && s.tasks[t].key == s.tasks[u].key {
      assert s.tasks[t].lock == s.locks[s.tasks[t].key].lock == s.tasks[u].lock;
    }
  }

  /** The reference count of an address is the number of tasks holding or
      waiting for it, and they all share the lock object in the table. */
  lemma ReferencesCountTasks(steps: seq<Step>, key: string)
    requires After(steps).Some?
    ensures var s := After(steps).value;
            && RefsOf(s.refs, key) == |TasksOn(s.tasks, key)|
            && forall t :: t in TasksOn(s.tasks, key) ==> key in s.locks && s.locks[key].lock == s.tasks[t].lock
  {
    RunKeeps(steps);
  }

  /** Right after an entry the table holds at most one entry more than the
      cap, or than the addresses referenced before it if those are more. */
  lemma TableBound(steps: seq<Step>, step: Step)
    requires After(steps).Some? && Enabled(After(steps).value, step) && step.Enter?
    ensures var s := After(steps).value;
            var s' := Next(s, step);
            |s'.locks| <= (if |s.refs| > 1024 then |s.refs| else 1024) + 1
  {
    var s := After(steps).value;
    PrunedMeans(s.locks, s.refs.Keys, step.now, step.gone, step.pruned);
    TouchedSize(step.pruned, NormalEmail(step.email), LockFor(step.pruned, NormalEmail(step.email), s.created), step.now);
    if step.pruned.Keys <= s.refs.Keys {
      SubsetSize(step.pruned.Keys, s.refs.Keys);
      assert |step.pruned| == |step.pruned.Keys| && |s.refs| == |s.refs.Keys|;
    }
  }

  lemma TouchedSize(locks: Locks, key: string, lock: nat, now: real)
    ensures |Touched(locks, key, lock, now)| <= |locks| + 1
  {
    var touched := Touched(locks, key, lock, now);
    assert touched.Keys == locks.Keys + {key};
    assert |touched| == |touched.Keys| && |locks| == |locks.Keys|;
  }

  lemma {:induction false} SubsetSize(a: set<string>, b: set<string>)
    requires a <= b
    ensures |a| <= |b|
  {
    if a != {} {
      var x :| x in a;
      SubsetSize(a - {x}, b - {x});
    }
  }

  /** A waiter is never stuck behind a lost lock: while nobody holds the lock
      of its address, it can be granted. */
  lemma WaiterCanBeGranted(steps: seq<Step>, t: int)
    requires After(steps).Some?
    requires t in After(steps).value.tasks && !After(steps).value.tasks[t].holding
    requires var tasks := After(steps).value.tasks;
             forall u :: u in tasks && tasks[u].key == tasks[t].key ==> !tasks[u].holding
    ensures Enabled(After(steps).value, Grant(t))
  {
    RunKeeps(steps);
    var s := After(steps).value;
    forall u | u in s.tasks && s.tasks[u].lock == s.tasks[t].lock ensures !s.tasks[u].holding {
      assert s.locks[s.tasks[u].key].lock == s.locks[s.tasks[t].key].lock;
    }
  }
}
