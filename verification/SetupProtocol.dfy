/** stores/base.py, `setup` and `setup_collection`: first-use setup by double-checked locking,
    for any number of tasks interleaved in any way, over MemoryStore's table of collections.
    Each step of a task is one test, one lock operation or one end of an awaited hook. */
module SetupProtocol {
  import opened Prelude

  type TaskId = nat

  datatype DataOp = PutOp(key: string, value: Dict) | DeleteOp(key: string) | ReadOp(key: string)

  /** What a task wants of the store: an operation on a collection, which needs the store and
      the collection set up, or a destroy, which needs only the store set up. */
  datatype Goal =
    | Access(collection: string, op: DataOp)
    | DestroyCollection(collection: string)
    | DestroyStore

  datatype Pc =
    | TestSetup                    // if not self._setup_complete
    | WaitSetup                    // async with self._setup_lock
    | RetestSetup                  // if not self._setup_complete, lock held
    | InSetup                      // await self._setup()
    | LeaveSetup(ok: bool)         // end of `async with`
    | TestCollection               // if not self._setup_collection_complete[collection]
    | WaitCollection               // async with self._setup_collection_locks[collection]
    | RetestCollection             // the same test, lock held
    | InCollection                 // await self._setup_collection(collection=collection)
    | LeaveCollection(ok: bool)    // end of `async with`
    | Ready                        // about to run the goal
    | Done
    | SetupFailed                  // StoreSetupError
    | KeyErrorRaised               // self._cache[collection] on a missing collection

  datatype Task = Task(goal: Goal, pc: Pc)

  type Contents = map<string, Dict>

  datatype State = State(
    setupComplete: bool,
    setupLock: Option<TaskId>,
    collectionComplete: set<string>,
    collectionLocks: map<string, TaskId>,        // the locks that are held, and by whom
    cache: map<string, Contents>,                // MemoryStore._cache
    tasks: map<TaskId, Task>,
    // what has happened so far
    setups: nat,                                 // successful runs of _setup
    collectionSetups: multiset<string>,          // successful runs of _setup_collection
    destroyed: set<string>,                      // collections a destroy has removed
    log: seq<(string, DataOp)>)                  // data operations performed, in order

  const INITIAL := State(false, None, {}, map[], map[], map[], 0, multiset{}, {}, [])

  // ----- Steps -----

  function ApplyOp(m: Contents, op: DataOp): Contents {
    match op
    case PutOp(k, v) => m[k := v]
    case DeleteOp(k) => m - {k}
    case ReadOp(_) => m
  }

  function Goto(s: State, t: TaskId, pc: Pc): State
    requires t in s.tasks
  {
    s.(tasks := s.tasks[t := s.tasks[t].(pc := pc)])
  }

  function AfterSetup(goal: Goal): Pc {
    if goal.Access? then TestCollection else Ready
  }

  predicate InSetupSection(pc: Pc) {
    pc.TestSetup? || pc.WaitSetup? || pc.RetestSetup? || pc.InSetup? || pc.LeaveSetup?
  }

  predicate InCollectionSection(pc: Pc) {
    pc.TestCollection? || pc.WaitCollection? || pc.RetestCollection? || pc.InCollection? || pc.LeaveCollection?
  }

  /** What the goal does to the tables. MemoryStore looks the collection up and raises when it
      is gone; a destroy drops the table but leaves every setup flag as it is. */
  function Performed(s: State, goal: Goal): State {
    match goal
    case Access(c, op) =>
      if c !in s.cache then s
      else s.(cache := s.cache[c := ApplyOp(s.cache[c], op)], log := s.log + [(c, op)])
    case DestroyCollection(c) =>
      if c !in s.cache then s
      else s.(cache := s.cache - {c}, destroyed := s.destroyed + {c})
    case DestroyStore =>
      s.(cache := map[], destroyed := s.destroyed + s.cache.Keys)
  }

  function Perform(s: State, t: TaskId): State
    requires t in s.tasks
  {
    var goal := s.tasks[t].goal;
    Goto(Performed(s, goal), t, if goal.Access? && goal.collection !in s.cache then KeyErrorRaised else Done)
  }

  /** The next step of task t; hookOk says how an awaited hook ends. A task that waits for a
      lock somebody holds stays where it is. */
  function Advance(s: State, t: TaskId, hookOk: bool): State
    requires t in s.tasks
  {
    var k := s.tasks[t];
    if InSetupSection(k.pc) then AdvanceSetup(s, t, hookOk)
    else if InCollectionSection(k.pc) && k.goal.Access? then AdvanceCollection(s, t, k.goal.collection, hookOk)
    else if k.pc.Ready? then Perform(s, t)
    else s
  }

  function AdvanceSetup(s: State, t: TaskId, hookOk: bool): State
    requires t in s.tasks
  {
    var goal := s.tasks[t].goal;
    match s.tasks[t].pc
    case TestSetup => Goto(s, t, if s.setupComplete then AfterSetup(goal) else WaitSetup)
    case WaitSetup => if s.setupLock.Some? then s else Goto(s.(setupLock := Some(t)), t, RetestSetup)
    case RetestSetup => Goto(s, t, if s.setupComplete then LeaveSetup(true) else InSetup)
    case InSetup =>
      if hookOk then Goto(s.(setupComplete := true, setups := s.setups + 1), t, LeaveSetup(true))
      else Goto(s, t, LeaveSetup(false))
    case LeaveSetup(ok) => Goto(s.(setupLock := None), t, if ok then AfterSetup(goal) else SetupFailed)
    case _ => s
  }

  function AdvanceCollection(s: State, t: TaskId, c: string, hookOk: bool): State
    requires t in s.tasks
  {
    match s.tasks[t].pc
    case TestCollection => Goto(s, t, if c in s.collectionComplete then Ready else WaitCollection)
    case WaitCollection =>
      if c in s.collectionLocks then s
      else Goto(s.(collectionLocks := s.collectionLocks[c := t]), t, RetestCollection)
    case RetestCollection => Goto(s, t, if c in s.collectionComplete then LeaveCollection(true) else InCollection)
    case InCollection =>
      // MemoryStore._setup_collection assigns an empty table, whatever was there before
      if hookOk then
        Goto(s.(cache := s.cache[c := map[]],
                collectionComplete := s.collectionComplete + {c},
                collectionSetups := s.collectionSetups + multiset{c}), t, LeaveCollection(true))
      else Goto(s, t, LeaveCollection(false))
    case LeaveCollection(ok) =>
      Goto(s.(collectionLocks := s.collectionLocks - {c}), t, if ok then Ready else SetupFailed)
    case _ => s
  }

  datatype Action = Spawn(t: TaskId, goal: Goal) | Run(t: TaskId, hookOk: bool)

  function Next(s: State, a: Action): State {
    match a
    case Spawn(t, goal) => if t in s.tasks then s else s.(tasks := s.tasks[t := Task(goal, TestSetup)])
    case Run(t, hookOk) => if t in s.tasks then Advance(s, t, hookOk) else s
  }

  /** The state after the actions, taken in order. Every reachable state is such a state. */
  function After(actions: seq<Action>): State {
    if actions == [] then INITIAL
    else Next(After(actions[..|actions| - 1]), actions[|actions| - 1])
  }

  // ----- Invariant -----

  predicate HoldsSetupLock(k: Task) {
    k.pc.RetestSetup? || k.pc.InSetup? || k.pc.LeaveSetup?
  }

  predicate HoldsLockOf(k: Task, c: string) {
    && k.goal.Access? && k.goal.collection == c
    && (k.pc.RetestCollection? || k.pc.InCollection? || k.pc.LeaveCollection?)
  }

  predicate BeforeSetup(pc: Pc) {
    pc.TestSetup? || pc.WaitSetup? || pc.RetestSetup? || pc.InSetup? || pc == LeaveSetup(false) || pc.SetupFailed?
  }

  /** What every task knows by where it is. */
  ghost predicate TaskOk(s: State, t: TaskId)
    requires t in s.tasks
  {
    var k := s.tasks[t];
    && (HoldsSetupLock(k) ==> s.setupLock == Some(t))
    && (k.pc.InSetup? || k.pc == LeaveSetup(false) ==> !s.setupComplete)
    && (!BeforeSetup(k.pc) ==> s.setupComplete)
    && (InCollectionSection(k.pc) ==> k.goal.Access?)
    && (k.goal.Access? ==>
          var c := k.goal.collection;
          && (HoldsLockOf(k, c) ==> c in s.collectionLocks && s.collectionLocks[c] == t)
          && (k.pc.InCollection? || k.pc == LeaveCollection(false) ==> c !in s.collectionComplete)
          && (k.pc == LeaveCollection(true) || k.pc.Ready? || k.pc.Done? || k.pc.KeyErrorRaised?
              ==> c in s.collectionComplete))
  }

  /** Contents(c) replayed from the log: what the data operations on c alone make of it. */
  function Replay(log: seq<(string, DataOp)>, c: string): Contents {
    if log == [] then map[]
    else
      var (c', op) := log[|log| - 1];
      var before := Replay(log[..|log| - 1], c);
      if c' == c then ApplyOp(before, op) else before
  }

  ghost predicate StoreOk(s: State) {
    && s.setups == (if s.setupComplete then 1 else 0)
    && (forall c :: s.collectionSetups[c] == if c in s.collectionComplete then 1 else 0)
    && (forall c :: c in s.collectionComplete <==> c in s.cache || c in s.destroyed)
    && (forall c :: !(c in s.cache && c in s.destroyed))
    && (forall i | 0 <= i < |s.log| :: s.log[i].0 in s.collectionComplete)
    && (forall c | c in s.cache :: s.cache[c] == Replay(s.log, c))
  }

  ghost predicate LocksOk(s: State) {
    && (s.setupLock.Some? ==> s.setupLock.value in s.tasks && HoldsSetupLock(s.tasks[s.setupLock.value]))
    && (forall c | c in s.collectionLocks ::
          s.collectionLocks[c] in s.tasks && HoldsLockOf(s.tasks[s.collectionLocks[c]], c))
  }

  ghost predicate Inv(s: State) {
    StoreOk(s) && LocksOk(s) && forall t | t in s.tasks :: TaskOk(s, t)
  }

  lemma {:induction false} ReplayOfOthers(log: seq<(string, DataOp)>, c: string)
    requires forall i | 0 <= i < |log| :: log[i].0 != c
    ensures Replay(log, c) == map[]
  {
    if log != [] {
      ReplayOfOthers(log[..|log| - 1], c);
    }
  }

  lemma LoggedOnce(log: seq<(string, DataOp)>, c: string, op: DataOp)
    ensures Replay(log + [(c, op)], c) == ApplyOp(Replay(log, c), op)
    ensures forall c' | c' != c :: Replay(log + [(c, op)], c') == Replay(log, c')
  {
    assert (log + [(c, op)])[..|log|] == log;
  }

  // ----- Every step keeps the invariant, section by section -----

  lemma SetupStepStore(s: State, t: TaskId, hookOk: bool)
    requires Inv(s) && t in s.tasks && InSetupSection(s.tasks[t].pc)
    ensures StoreOk(Advance(s, t, hookOk))
  {
    assert TaskOk(s, t);
  }

  lemma CollectionStepStore(s: State, t: TaskId, hookOk: bool)
    requires Inv(s) && t in s.tasks && InCollectionSection(s.tasks[t].pc)
    ensures StoreOk(Advance(s, t, hookOk))
  {
    assert TaskOk(s, t);
    if s.tasks[t].pc.InCollection? && hookOk {
      ReplayOfOthers(s.log, s.tasks[t].goal.collection);
    }
  }

  lemma PerformedStore(s: State, goal: Goal)
    requires StoreOk(s) && (goal.Access? ==> goal.collection in s.collectionComplete)
    ensures StoreOk(Performed(s, goal))
  {
    if goal.Access? {
      LoggedOnce(s.log, goal.collection, goal.op);
    }
  }

  lemma GoalStepStore(s: State, t: TaskId)
    requires Inv(s) && t in s.tasks && s.tasks[t].pc.Ready?
    ensures StoreOk(Perform(s, t))
  {
    assert TaskOk(s, t);
    PerformedStore(s, s.tasks[t].goal);
  }

  lemma SetupStepLocks(s: State, t: TaskId, hookOk: bool)
    requires Inv(s) && t in s.tasks && InSetupSection(s.tasks[t].pc)
    ensures LocksOk(Advance(s, t, hookOk))
  {
    assert TaskOk(s, t);
  }

  lemma CollectionStepLocks(s: State, t: TaskId, hookOk: bool)
    requires Inv(s) && t in s.tasks && InCollectionSection(s.tasks[t].pc)
    ensures LocksOk(Advance(s, t, hookOk))
  {
    assert TaskOk(s, t);
  }

  /** A goal changes the tables, and nothing that the setup relies on. */
  lemma PerformedFrame(s: State, goal: Goal)
    ensures
      var s' := Performed(s, goal);
      && s'.setupComplete == s.setupComplete && s'.setupLock == s.setupLock && s'.tasks == s.tasks
      && s'.collectionComplete == s.collectionComplete && s'.collectionLocks == s.collectionLocks
  {
  }

  lemma GoalStepLocks(s: State, t: TaskId)
    requires Inv(s) && t in s.tasks && s.tasks[t].pc.Ready?
    ensures LocksOk(Perform(s, t))
  {
    PerformedFrame(s, s.tasks[t].goal);
  }

  /** Tests and waiting: no flag and no lock changes except a free lock that t takes. */
  lemma SetupTestTask(s: State, t: TaskId, u: TaskId)
    requires Inv(s) && t in s.tasks && u in s.tasks
    requires var pc := s.tasks[t].pc; pc.TestSetup? || pc.WaitSetup? || pc.RetestSetup?
    ensures u in Advance(s, t, true).tasks && TaskOk(Advance(s, t, true), u)
  {
    assert TaskOk(s, t) && TaskOk(s, u);
  }

  lemma SetupEndTask(s: State, t: TaskId, hookOk: bool, u: TaskId)
    requires Inv(s) && t in s.tasks && u in s.tasks && s.tasks[t].pc.InSetup?
    ensures u in Advance(s, t, hookOk).tasks && TaskOk(Advance(s, t, hookOk), u)
  {
    assert TaskOk(s, t) && TaskOk(s, u);
  }

  lemma SetupLeaveTask(s: State, t: TaskId, u: TaskId)
    requires Inv(s) && t in s.tasks && u in s.tasks && s.tasks[t].pc.LeaveSetup?
    ensures u in Advance(s, t, true).tasks && TaskOk(Advance(s, t, true), u)
  {
    assert TaskOk(s, t) && TaskOk(s, u);
  }

  lemma SetupStepTask(s: State, t: TaskId, hookOk: bool, u: TaskId)
    requires Inv(s) && t in s.tasks && InSetupSection(s.tasks[t].pc) && u in s.tasks
    ensures u in Advance(s, t, hookOk).tasks && TaskOk(Advance(s, t, hookOk), u)
  {
    var pc := s.tasks[t].pc;
    if pc.InSetup? {
      SetupEndTask(s, t, hookOk, u);
    } else if pc.LeaveSetup? {
      SetupLeaveTask(s, t, u);
      assert Advance(s, t, hookOk) == Advance(s, t, true);
    } else {
      SetupTestTask(s, t, u);
      assert Advance(s, t, hookOk) == Advance(s, t, true);
    }
  }

  lemma CollectionStepTask(s: State, t: TaskId, hookOk: bool, u: TaskId)
    requires Inv(s) && t in s.tasks && InCollectionSection(s.tasks[t].pc) && u in s.tasks
    ensures u in Advance(s, t, hookOk).tasks && TaskOk(Advance(s, t, hookOk), u)
  {
    assert TaskOk(s, t) && TaskOk(s, u);
  }

  lemma GoalStepTask(s: State, t: TaskId, u: TaskId)
    requires Inv(s) && t in s.tasks && s.tasks[t].pc.Ready? && u in s.tasks
    ensures u in Perform(s, t).tasks && TaskOk(Perform(s, t), u)
  {
    assert TaskOk(s, t) && TaskOk(s, u);
    PerformedFrame(s, s.tasks[t].goal);
  }

  lemma SetupStepKeepsInv(s: State, t: TaskId, hookOk: bool)
    requires Inv(s) && t in s.tasks && InSetupSection(s.tasks[t].pc)
    ensures Inv(Advance(s, t, hookOk))
  {
    var s' := Advance(s, t, hookOk);
    SetupStepStore(s, t, hookOk);
    SetupStepLocks(s, t, hookOk);
    forall u | u in s'.tasks ensures TaskOk(s', u) { SetupStepTask(s, t, hookOk, u); }
  }

  lemma CollectionStepKeepsInv(s: State, t: TaskId, hookOk: bool)
    requires Inv(s) && t in s.tasks && InCollectionSection(s.tasks[t].pc)
    ensures Inv(Advance(s, t, hookOk))
  {
    var s' := Advance(s, t, hookOk);
    CollectionStepStore(s, t, hookOk);
    CollectionStepLocks(s, t, hookOk);
    forall u | u in s'.tasks ensures TaskOk(s', u) { CollectionStepTask(s, t, hookOk, u); }
  }

  lemma GoalStepKeepsInv(s: State, t: TaskId)
    requires Inv(s) && t in s.tasks && s.tasks[t].pc.Ready?
    ensures Inv(Perform(s, t))
  {
    var s' := Perform(s, t);
    GoalStepStore(s, t);
    GoalStepLocks(s, t);
    forall u | u in s'.tasks ensures TaskOk(s', u) {
      PerformedFrame(s, s.tasks[t].goal);
      GoalStepTask(s, t, u);
    }
  }

  lemma AdvanceKeepsInv(s: State, t: TaskId, hookOk: bool)
    requires Inv(s) && t in s.tasks
    ensures Inv(Advance(s, t, hookOk))
  {
    var pc := s.tasks[t].pc;
    if InSetupSection(pc) {
      SetupStepKeepsInv(s, t, hookOk);
    } else if InCollectionSection(pc) {
      CollectionStepKeepsInv(s, t, hookOk);
    } else if pc.Ready? {
      GoalStepKeepsInv(s, t);
    }
  }

  lemma SpawnKeepsInv(s: State, t: TaskId, goal: Goal)
    requires Inv(s) && t !in s.tasks
    ensures Inv(s.(tasks := s.tasks[t := Task(goal, TestSetup)]))
  {
    forall u | u in s.tasks ensures TaskOk(s.(tasks := s.tasks[t := Task(goal, TestSetup)]), u) {
      assert TaskOk(s, u);
    }
  }

  lemma InvKept(s: State, a: Action)
    requires Inv(s)
    ensures Inv(Next(s, a))
  {
    match a
    case Spawn(t, goal) => if t !in s.tasks { SpawnKeepsInv(s, t, goal); }
    case Run(t, hookOk) => if t in s.tasks { AdvanceKeepsInv(s, t, hookOk); }
  }

  lemma {:induction false} InvHolds(actions: seq<Action>)
    ensures Inv(After(actions))
  {
    if actions != [] {
      InvHolds(actions[..|actions| - 1]);
      InvKept(After(actions[..|actions| - 1]), actions[|actions| - 1]);
    }
  }

  // ----- What holds in every reachable state -----

  ghost predicate Reachable(s: State) {
    exists actions :: s == After(actions)
  }

  lemma ReachableInv(s: State)
    requires Reachable(s)
    ensures Inv(s)
  {
    var actions :| s == After(actions);
    InvHolds(actions);
  }

  /** Each setup hook succeeds at most once: _setup for the store, _setup_collection for every
      collection. */
  lemma HooksSucceedAtMostOnce(s: State)
    requires Reachable(s)
    ensures s.setups <= 1
    ensures forall c :: s.collectionSetups[c] <= 1
  {
    ReachableInv(s);
  }

  /** Two runs of the same hook never overlap. */
  lemma HooksNeverOverlap(s: State, t: TaskId, u: TaskId)
    requires Reachable(s) && t in s.tasks && u in s.tasks && t != u
    ensures !(s.tasks[t].pc.InSetup? && s.tasks[u].pc.InSetup?)
    ensures s.tasks[t].pc.InCollection? && s.tasks[u].pc.InCollection? ==>
      && s.tasks[t].goal.Access? && s.tasks[u].goal.Access?
      && s.tasks[t].goal.collection != s.tasks[u].goal.collection
  {
    ReachableInv(s);
    assert TaskOk(s, t) && TaskOk(s, u);
  }

  /** No data operation on a collection starts before both hooks have succeeded for it. */
  lemma NoAccessBeforeSetup(s: State, t: TaskId)
    requires Reachable(s) && t in s.tasks && s.tasks[t].pc.Ready?
    ensures s.setups == 1
    ensures s.tasks[t].goal.Access? ==> s.collectionSetups[s.tasks[t].goal.collection] == 1
  {
    ReachableInv(s);
    assert TaskOk(s, t);
  }

  /** No setup hook ever wipes a put: a collection that has not been destroyed holds exactly
      what the data operations performed on it make, starting from the empty table. */
  lemma NoPutIsWiped(s: State, c: string)
    requires Reachable(s) && c in s.collectionComplete && c !in s.destroyed
    ensures c in s.cache && s.cache[c] == Replay(s.log, c)
  {
    ReachableInv(s);
  }

  /** A put or delete of k in c. */
  predicate Rewrites(logged: (string, DataOp), c: string, k: string) {
    logged.0 == c && (logged.1.PutOp? || logged.1.DeleteOp?) && logged.1.key == k
  }

  /** The i-th operation performed put v under k in c, and no later one has put or deleted k there. */
  predicate PutStands(log: seq<(string, DataOp)>, c: string, k: string, v: Dict, i: nat) {
    i < |log| && log[i] == (c, PutOp(k, v)) && forall j | i < j < |log| :: !Rewrites(log[j], c, k)
  }

  lemma {:induction false} ReplayedPutStands(log: seq<(string, DataOp)>, c: string, k: string, v: Dict)
    ensures k in Replay(log, c) && Replay(log, c)[k] == v <==> exists i: nat :: PutStands(log, c, k, v, i)
  {
    if log != [] {
      var n := |log| - 1;
      ReplayedPutStands(log[..n], c, k, v);
      if Rewrites(log[n], c, k) {
        assert forall i: nat | PutStands(log, c, k, v, i) :: i == n;
        assert log[n] == (c, PutOp(k, v)) ==> PutStands(log, c, k, v, n);
      } else {
        assert forall i: nat :: PutStands(log, c, k, v, i) <==> PutStands(log[..n], c, k, v, i);
      }
    }
  }

  /** What a collection holds, told by the operations performed alone: k has the value v exactly
      when some put stored it there and nothing has put or deleted k in c since. */
  lemma ContentsAreTheLastPuts(s: State, c: string, k: string, v: Dict)
    requires Reachable(s) && c in s.collectionComplete && c !in s.destroyed
    ensures c in s.cache
    ensures k in s.cache[c] && s.cache[c][k] == v <==> exists i: nat :: PutStands(s.log, c, k, v, i)
  {
    NoPutIsWiped(s, c);
    ReplayedPutStands(s.log, c, k, v);
  }

  /** The task is about to perform a data operation on a collection that has not been destroyed. */
  predicate Performs(s: State, a: Action) {
    && a.Run? && a.t in s.tasks && s.tasks[a.t].pc.Ready? && s.tasks[a.t].goal.Access?
    && s.tasks[a.t].goal.collection !in s.destroyed
  }

  /** Exactly such a step adds to the operations performed, the task's own one, and completes the
      task. */
  lemma StepsPerformed(s: State, a: Action)
    requires Reachable(s)
    ensures Next(s, a).log
         == if Performs(s, a) then s.log + [(s.tasks[a.t].goal.collection, s.tasks[a.t].goal.op)] else s.log
    ensures Performs(s, a) ==> a.t in Next(s, a).tasks && Next(s, a).tasks[a.t] == Task(s.tasks[a.t].goal, Done)
  {
    ReachableInv(s);
    if a.Run? && a.t in s.tasks {
      assert TaskOk(s, a.t);
    }
  }

  function Accessed(s: State): set<TaskId> {
    set t | t in s.tasks && s.tasks[t].goal.Access? && s.tasks[t].pc.Done?
  }

  lemma SetupMovesTask(s: State, t: TaskId, hookOk: bool)
    requires t in s.tasks && InSetupSection(s.tasks[t].pc)
    ensures t in AdvanceSetup(s, t, hookOk).tasks && !AdvanceSetup(s, t, hookOk).tasks[t].pc.Done?
    ensures AdvanceSetup(s, t, hookOk).tasks
         == s.tasks[t := Task(s.tasks[t].goal, AdvanceSetup(s, t, hookOk).tasks[t].pc)]
  {
  }

  lemma CollectionMovesTask(s: State, t: TaskId, c: string, hookOk: bool)
    requires t in s.tasks && InCollectionSection(s.tasks[t].pc)
    ensures t in AdvanceCollection(s, t, c, hookOk).tasks && !AdvanceCollection(s, t, c, hookOk).tasks[t].pc.Done?
    ensures AdvanceCollection(s, t, c, hookOk).tasks
         == s.tasks[t := Task(s.tasks[t].goal, AdvanceCollection(s, t, c, hookOk).tasks[t].pc)]
  {
  }

  /** A step moves its own task, and finishes it only by performing its goal. */
  lemma StepMovesTask(s: State, t: TaskId, hookOk: bool)
    requires t in s.tasks
    ensures t in Advance(s, t, hookOk).tasks
    ensures Advance(s, t, hookOk).tasks == s.tasks[t := Task(s.tasks[t].goal, Advance(s, t, hookOk).tasks[t].pc)]
    ensures !s.tasks[t].pc.Ready? ==> (Advance(s, t, hookOk).tasks[t].pc.Done? <==> s.tasks[t].pc.Done?)
  {
    var k := s.tasks[t];
    if InSetupSection(k.pc) {
      SetupMovesTask(s, t, hookOk);
    } else if InCollectionSection(k.pc) && k.goal.Access? {
      CollectionMovesTask(s, t, k.goal.collection, hookOk);
    } else {
      PerformedFrame(s, k.goal);
    }
  }

  lemma AccessedAfter(s: State, s': State, t: TaskId)
    requires t in s.tasks && t in s'.tasks && s'.tasks == s.tasks[t := Task(s.tasks[t].goal, s'.tasks[t].pc)]
    requires s.tasks[t].pc.Done? ==> s'.tasks[t].pc.Done?
    ensures Accessed(s') == if s.tasks[t].goal.Access? && s'.tasks[t].pc.Done? then Accessed(s) + {t} else Accessed(s)
  {
  }

  lemma AccessedByStep(s: State, a: Action)
    requires Reachable(s)
    ensures Accessed(Next(s, a)) == if Performs(s, a) then Accessed(s) + {a.t} else Accessed(s)
    ensures Performs(s, a) ==> a.t !in Accessed(s)
    ensures forall t | t in s.tasks :: t in Next(s, a).tasks && Next(s, a).tasks[t].goal == s.tasks[t].goal
  {
    if a.Run? && a.t in s.tasks {
      StepMovesTask(s, a.t, a.hookOk);
      AccessedAfter(s, Next(s, a), a.t);
      if s.tasks[a.t].pc.Ready? && s.tasks[a.t].goal.Access? {
        KeyErrorIffDestroyed(s, a.t);
      }
    }
  }

  lemma ReachableBy(actions: seq<Action>)
    ensures Reachable(After(actions))
  {
  }

  /** Every data operation that was completed has been performed, and each just once. */
  lemma {:induction false} EveryAccessIsPerformedOnce(actions: seq<Action>)
    ensures |After(actions).log| == |Accessed(After(actions))|
    ensures forall t | t in Accessed(After(actions)) ::
      var goal := After(actions).tasks[t].goal; (goal.collection, goal.op) in After(actions).log
  {
    if actions != [] {
      var n := |actions| - 1;
      EveryAccessIsPerformedOnce(actions[..n]);
      ReachableBy(actions[..n]);
      StepsPerformed(After(actions[..n]), actions[n]);
      AccessedByStep(After(actions[..n]), actions[n]);
    }
  }

  /** A destroy of the store leaves no collection: all that were ever set up are destroyed then. A
      destroy of a collection removes that one only. */
  lemma DestroysRemove(s: State, t: TaskId)
    requires Reachable(s) && t in s.tasks && s.tasks[t].pc.Ready?
    ensures s.tasks[t].goal.DestroyStore? ==>
      Perform(s, t).cache == map[] && Perform(s, t).destroyed == s.collectionComplete
    ensures s.tasks[t].goal.DestroyCollection? ==>
      var c := s.tasks[t].goal.collection;
      && (forall c' :: c' in Perform(s, t).cache <==> c' in s.cache && c' != c)
      && (forall c' | c' in s.cache && c' != c :: Perform(s, t).cache[c'] == s.cache[c'])
      && Perform(s, t).destroyed == s.destroyed + (if c in s.collectionComplete then {c} else {})
  {
    ReachableInv(s);
  }

  /** A data operation about to run raises KeyError exactly when a destroy has removed its
      collection: the flags stay set, so nothing sets the collection up again. */
  lemma KeyErrorIffDestroyed(s: State, t: TaskId)
    requires Reachable(s) && t in s.tasks && s.tasks[t].pc.Ready? && s.tasks[t].goal.Access?
    ensures Perform(s, t).tasks[t].pc.KeyErrorRaised? <==> s.tasks[t].goal.collection in s.destroyed
  {
    ReachableInv(s);
    assert TaskOk(s, t);
  }

  /** Once destroyed, a collection stays missing in every continuation. */
  lemma {:induction false} DestroyedForever(actions: seq<Action>, more: seq<Action>, c: string)
    requires c in After(actions).destroyed
    ensures c in After(actions + more).destroyed && c !in After(actions + more).cache
  {
    if more == [] {
      assert actions + more == actions;
    } else {
      var n := |more| - 1;
      DestroyedForever(actions, more[..n], c);
      assert actions + more == (actions + more[..n]) + [more[n]];
      AfterOneMore(actions + more[..n], more[n]);
      DestroyedGrows(After(actions + more[..n]), more[n]);
    }
    InvHolds(actions + more);
    assert StoreOk(After(actions + more));
  }

  lemma AfterOneMore(actions: seq<Action>, a: Action)
    ensures After(actions + [a]) == Next(After(actions), a)
  {
    assert (actions + [a])[..|actions|] == actions;
  }

  lemma DestroyedGrows(s: State, a: Action)
    ensures s.destroyed <= Next(s, a).destroyed
  {
  }

  // ----- A run that ends in a KeyError -----

  lemma ReachableNext(s: State, a: Action)
    requires Reachable(s)
    ensures Reachable(Next(s, a))
  {
    var actions :| s == After(actions);
    AfterOneMore(actions, a);
  }

  lemma Leads(s: State, a: Action, s': State)
    requires Reachable(s) && s' == Next(s, a)
    ensures Reachable(s')
  {
    ReachableNext(s, a);
  }

  /** The way of a task that is alone, up to its goal. */
  const PATH: seq<Pc> := [TestSetup, WaitSetup, RetestSetup, InSetup, LeaveSetup(true),
    TestCollection, WaitCollection, RetestCollection, InCollection, LeaveCollection(true), Ready]

  /** The state when it is at the i-th place. */
  function OnPath(goal: Goal, i: nat): State
    requires goal.Access? && i < |PATH|
  {
    var c := goal.collection;
    State(i >= 4, if 2 <= i <= 4 then Some(0) else None,
          if i >= 9 then {c} else {}, if 7 <= i <= 9 then map[c := 0] else map[],
          if i >= 9 then map[c := map[]] else map[], map[0 := Task(goal, PATH[i])],
          if i >= 4 then 1 else 0, if i >= 9 then multiset{c} else multiset{}, {}, [])
  }

  lemma SetupPath(goal: Goal, i: nat)
    requires goal.Access? && i < 5
    ensures Next(OnPath(goal, i), Run(0, true)) == OnPath(goal, i + 1)
  {
    var s := OnPath(goal, i);
    assert Next(s, Run(0, true)) == AdvanceSetup(s, 0, true);
  }

  lemma CollectionPath(goal: Goal, i: nat)
    requires goal.Access? && 5 <= i < 10
    ensures Next(OnPath(goal, i), Run(0, true)) == OnPath(goal, i + 1)
  {
    var s := OnPath(goal, i);
    assert Next(s, Run(0, true)) == AdvanceCollection(s, 0, goal.collection, true);
  }

  lemma {:induction false} PathReachable(goal: Goal, i: nat)
    requires goal.Access? && i < |PATH|
    ensures Reachable(OnPath(goal, i))
  {
    if i == 0 {
      assert After([]) == INITIAL;
      Leads(INITIAL, Spawn(0, goal), OnPath(goal, 0));
    } else {
      PathReachable(goal, i - 1);
      if i <= 5 {
        SetupPath(goal, i - 1);
      } else {
        CollectionPath(goal, i - 1);
      }
      Leads(OnPath(goal, i - 1), Run(0, true), OnPath(goal, i));
    }
  }

  function WithTask(s: State, t: TaskId, goal: Goal, pc: Pc): State {
    s.(tasks := s.tasks[t := Task(goal, pc)])
  }

  lemma PassesSetup(s: State, t: TaskId, goal: Goal)
    requires Reachable(WithTask(s, t, goal, TestSetup)) && s.setupComplete
    ensures Reachable(WithTask(s, t, goal, AfterSetup(goal)))
  {
    var before := WithTask(s, t, goal, TestSetup);
    assert Next(before, Run(t, true)) == WithTask(s, t, goal, AfterSetup(goal));
    Leads(before, Run(t, true), WithTask(s, t, goal, AfterSetup(goal)));
  }

  lemma PassesCollection(s: State, t: TaskId, goal: Goal)
    requires Reachable(WithTask(s, t, goal, TestCollection))
    requires goal.Access? && goal.collection in s.collectionComplete
    ensures Reachable(WithTask(s, t, goal, Ready))
  {
    var before := WithTask(s, t, goal, TestCollection);
    assert Next(before, Run(t, true)) == WithTask(s, t, goal, Ready);
    Leads(before, Run(t, true), WithTask(s, t, goal, Ready));
  }

  /** Once store and collection are set up, tasks get straight to their goals. */
  lemma StraightToGoal(s: State, t: TaskId, goal: Goal) returns (s': State)
    requires Reachable(s) && s.setupComplete && t !in s.tasks
    requires goal.Access? ==> goal.collection in s.collectionComplete
    ensures Reachable(s') && s' == s.(tasks := s.tasks[t := Task(goal, Ready)])
  {
    Leads(s, Spawn(t, goal), WithTask(s, t, goal, TestSetup));
    PassesSetup(s, t, goal);
    if goal.Access? {
      PassesCollection(s, t, goal);
    }
    s' := WithTask(s, t, goal, Ready);
  }

  lemma PerformsGoal(s: State, t: TaskId) returns (s': State)
    requires Reachable(s) && t in s.tasks && s.tasks[t].pc.Ready?
    ensures Reachable(s') && s' == Perform(s, t)
  {
    s' := Perform(s, t);
    Leads(s, Run(t, true), s');
  }

  lemma FirstAccess(c: string, op: DataOp) returns (s: State)
    ensures Reachable(s) && s.setupComplete && s.collectionComplete == {c} && c in s.cache
    ensures s.tasks == map[0 := Task(Access(c, op), Done)]
  {
    PathReachable(Access(c, op), 10);
    s := PerformsGoal(OnPath(Access(c, op), 10), 0);
  }

  lemma ThenDestroyed(before: State, c: string) returns (s: State)
    requires Reachable(before) && before.setupComplete && 1 !in before.tasks && c in before.cache
    ensures Reachable(s) && s.setupComplete && s.collectionComplete == before.collectionComplete
    ensures s.tasks == before.tasks[1 := Task(DestroyCollection(c), Done)]
    ensures c in s.destroyed && c !in s.cache
  {
    s := StraightToGoal(before, 1, DestroyCollection(c));
    s := PerformsGoal(s, 1);
  }

  /** There is such a run for every collection and any two data operations on it: a first task
      sets it up, another destroys it, and the third raises KeyError. */
  lemma DestroyedThenKeyError(c: string, first: DataOp, second: DataOp) returns (s: State)
    ensures Reachable(s) && c in s.destroyed
    ensures s.tasks == map[0 := Task(Access(c, first), Done), 1 := Task(DestroyCollection(c), Done),
                           2 := Task(Access(c, second), KeyErrorRaised)]
  {
    s := FirstAccess(c, first);
    s := ThenDestroyed(s, c);
    s := StraightToGoal(s, 2, Access(c, second));
    s := PerformsGoal(s, 2);
  }

  // ----- Failures and progress -----

  /** A failed _setup frees the lock and sets no flag: the next waiting task takes the lock,
      finds the flag unset and runs the hook again. */
  lemma SetupFailureAllowsRetry(s: State, t: TaskId, u: TaskId)
    requires Reachable(s) && t in s.tasks && u in s.tasks && t != u
    requires s.tasks[t].pc == LeaveSetup(false) && s.tasks[u].pc.WaitSetup?
    ensures
      var freed := AdvanceSetup(s, t, true);
      && !freed.setupComplete && freed.setupLock.None? && freed.tasks[t].pc.SetupFailed?
      && var taken := AdvanceSetup(freed, u, true);
         taken.setupLock == Some(u) && AdvanceSetup(taken, u, true).tasks[u].pc.InSetup?
  {
    ReachableInv(s);
    assert TaskOk(s, t);
  }

  /** The same for a collection's hook and its own lock. */
  lemma CollectionFailureAllowsRetry(s: State, t: TaskId, u: TaskId, c: string)
    requires Reachable(s) && t in s.tasks && u in s.tasks && t != u
    requires s.tasks[t].pc == LeaveCollection(false) && s.tasks[u].pc.WaitCollection?
    requires s.tasks[t].goal.Access? && s.tasks[t].goal.collection == c
    requires s.tasks[u].goal.Access? && s.tasks[u].goal.collection == c
    ensures
      var freed := AdvanceCollection(s, t, c, true);
      && c !in freed.collectionComplete && c !in freed.collectionLocks && freed.tasks[t].pc.SetupFailed?
      && var taken := AdvanceCollection(freed, u, c, true);
         && c in taken.collectionLocks && taken.collectionLocks[c] == u
         && AdvanceCollection(taken, u, c, true).tasks[u].pc.InCollection?
  {
    ReachableInv(s);
    assert TaskOk(s, t);
  }

  predicate Finished(pc: Pc) {
    pc.Done? || pc.SetupFailed? || pc.KeyErrorRaised?
  }

  /** How many steps a task still has at most. */
  function StepsLeft(pc: Pc): nat {
    match pc
    case TestSetup => 11
    case WaitSetup => 10
    case RetestSetup => 9
    case InSetup => 8
    case LeaveSetup(_) => 7
    case TestCollection => 6
    case WaitCollection => 5
    case RetestCollection => 4
    case InCollection => 3
    case LeaveCollection(_) => 2
    case Ready => 1
    case _ => 0
  }

  predicate Blocked(s: State, k: Task) {
    || (k.pc.WaitSetup? && s.setupLock.Some?)
    || (k.pc.WaitCollection? && k.goal.Access? && k.goal.collection in s.collectionLocks)
  }

  lemma SetupStepDescends(s: State, t: TaskId, hookOk: bool)
    requires t in s.tasks && InSetupSection(s.tasks[t].pc) && !Blocked(s, s.tasks[t])
    ensures t in AdvanceSetup(s, t, hookOk).tasks
    ensures StepsLeft(AdvanceSetup(s, t, hookOk).tasks[t].pc) < StepsLeft(s.tasks[t].pc)
  {
  }

  lemma CollectionStepDescends(s: State, t: TaskId, c: string, hookOk: bool)
    requires t in s.tasks && InCollectionSection(s.tasks[t].pc) && s.tasks[t].goal.Access?
    requires !Blocked(s, s.tasks[t]) && c == s.tasks[t].goal.collection
    ensures t in AdvanceCollection(s, t, c, hookOk).tasks
    ensures StepsLeft(AdvanceCollection(s, t, c, hookOk).tasks[t].pc) < StepsLeft(s.tasks[t].pc)
  {
  }

  /** A step of an unfinished task that no lock blocks brings that task nearer its end. */
  lemma UnblockedStepsDescend(s: State, t: TaskId, hookOk: bool)
    requires Reachable(s) && t in s.tasks && !Finished(s.tasks[t].pc) && !Blocked(s, s.tasks[t])
    ensures t in Advance(s, t, hookOk).tasks
    ensures StepsLeft(Advance(s, t, hookOk).tasks[t].pc) < StepsLeft(s.tasks[t].pc)
  {
    ReachableInv(s);
    assert TaskOk(s, t);
    if InSetupSection(s.tasks[t].pc) {
      SetupStepDescends(s, t, hookOk);
    } else if InCollectionSection(s.tasks[t].pc) {
      CollectionStepDescends(s, t, s.tasks[t].goal.collection, hookOk);
    } else {
      PerformedFrame(s, s.tasks[t].goal);
    }
  }

  /** No deadlock: a blocked task waits for one that is unfinished and not blocked itself. */
  lemma BlockedByARunningTask(s: State, t: TaskId) returns (u: TaskId)
    requires Reachable(s) && t in s.tasks && Blocked(s, s.tasks[t])
    ensures u in s.tasks && !Finished(s.tasks[u].pc) && !Blocked(s, s.tasks[u])
  {
    ReachableInv(s);
    u := if s.tasks[t].pc.WaitSetup? then s.setupLock.value else s.collectionLocks[s.tasks[t].goal.collection];
  }
}
