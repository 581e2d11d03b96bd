/** Building particular runs of the interleaved two-tier store, step by step. A run is built
    against any property that its steps preserve; that the states are reachable by allowed
    steps is one such property. */
module PassthroughRuns {
  import opened TimeToLive
  import opened KeyValue
  import opened TtlClamps
  import opened PassthroughInterleaving
  import opened PassthroughSerial

  type Allowed = (State, Action) -> bool

  type Property = State -> bool

  /** Whatever an allowed step makes of a state with property p has it too. */
  ghost predicate Closed(c: Clamp, allowed: Allowed, p: Property) {
    forall s, a {:trigger p(s), Next(c, s, a)} :: p(s) && allowed(s, a) ==> p(Next(c, s, a))
  }

  // ----- Reachable by allowed steps -----

  ghost predicate ReachedBy(c: Clamp, primary: Table<Slot>, allowed: Allowed, s: State) {
    exists actions :: s == After(c, 0.0, primary, actions) && RunAllowed(c, 0.0, primary, actions, allowed)
  }

  lemma OneMore(c: Clamp, primary: Table<Slot>, actions: seq<Action>, a: Action, allowed: Allowed)
    requires RunAllowed(c, 0.0, primary, actions, allowed) && allowed(After(c, 0.0, primary, actions), a)
    ensures After(c, 0.0, primary, actions + [a]) == Next(c, After(c, 0.0, primary, actions), a)
    ensures RunAllowed(c, 0.0, primary, actions + [a], allowed)
  {
    var more := actions + [a];
    assert more[..|actions|] == actions;
    forall n | 0 <= n < |more| ensures allowed(After(c, 0.0, primary, more[..n]), more[n]) {
      if n < |actions| {
        assert more[..n] == actions[..n];
      }
    }
  }

  lemma ReachedIsClosed(c: Clamp, primary: Table<Slot>, allowed: Allowed)
    ensures Closed(c, allowed, s => ReachedBy(c, primary, allowed, s))
  {
    forall s, a | ReachedBy(c, primary, allowed, s) && allowed(s, a) ensures ReachedBy(c, primary, allowed, Next(c, s, a)) {
      var actions :| s == After(c, 0.0, primary, actions) && RunAllowed(c, 0.0, primary, actions, allowed);
      OneMore(c, primary, actions, a, allowed);
    }
  }

  // ----- Runs in time -----

  /** Tasks step in no time, and time passes only while the calls under way can wait. */
  ghost predicate Quick(s: State, a: Action, d: Time) {
    && (a.Run? ==> Elapsed(a) == 0.0)
    && (a.Tick? ==> forall t | t in s.tasks && Unfinished(s.tasks[t]) ::
          PcTimely(s.tasks[t].pc, s.clock + Elapsed(a), d))
  }

  predicate WriterPc(pc: Pc) {
    pc.Dropping? || pc.Writing? || pc.Written?
  }

  ghost predicate TaskInTime(k: Task, now: Time, d: Time) {
    PcTimely(k.pc, now, d) && (k.goal.Reader? || WriterPc(k.pc))
  }

  /** Every call is in time, writers are where writers can be, and no snapshot is of the future. */
  ghost predicate InTime(s: State, d: Time) {
    && (forall t | t in s.tasks :: TaskInTime(s.tasks[t], s.clock, d))
    && forall i | 0 <= i < |s.history| :: s.history[i].time <= s.clock
  }

  lemma ReaderStepInTime(c: Clamp, s: State, keys: seq<Slot>, single: bool, pc: Pc, d: Time)
    requires d >= 0.0 && PcTimely(pc, s.clock, d)
    ensures PcTimely(ReaderStep(c, s, keys, single, pc, s.clock).0, s.clock, d)
  {
  }

  lemma WriterStepInTime(s: State, k: Task)
    requires !k.goal.Reader? && WriterPc(k.pc)
    ensures WriterPc(WriterStep(s, k.goal, k.pc).0)
  {
  }

  lemma RunInTime(c: Clamp, s: State, a: Action, d: Time)
    requires d >= 0.0 && InTime(s, d) && a.Run? && Elapsed(a) == 0.0 && a.t in s.tasks
    ensures a.t in Next(c, s, a).tasks && TaskInTime(Next(c, s, a).tasks[a.t], s.clock, d)
  {
    var k := s.tasks[a.t];
    assert TaskInTime(k, s.clock, d);
    if k.goal.Reader? {
      ReaderStepInTime(c, s, k.goal.keys, k.goal.single, k.pc, d);
      RunShape(c, s, a);
    } else {
      WriterStepInTime(s, k);
      RunWriterShape(c, s, a);
    }
  }

  lemma OthersInTime(c: Clamp, s: State, a: Action, d: Time, t: TaskId)
    requires InTime(s, d) && Quick(s, a, d) && t in Next(c, s, a).tasks && !(a.Run? && a.t == t)
    ensures TaskInTime(Next(c, s, a).tasks[t], s.clock + Elapsed(a), d)
  {
    if t in s.tasks {
      OtherTaskStays(c, s, a, t);
      assert TaskInTime(s.tasks[t], s.clock, d);
    } else {
      SpawnedAtStart(c, s, a, t);
    }
  }

  lemma StaysInTime(c: Clamp, s: State, a: Action, d: Time)
    requires d >= 0.0 && InTime(s, d) && Quick(s, a, d)
    ensures InTime(Next(c, s, a), d)
  {
    NextShape(c, s, a);
    forall t | t in Next(c, s, a).tasks ensures TaskInTime(Next(c, s, a).tasks[t], s.clock + Elapsed(a), d) {
      if a.Run? && a.t == t {
        RanIsOld(c, s, a);
        RunInTime(c, s, a, d);
      } else {
        OthersInTime(c, s, a, d, t);
      }
    }
  }

  lemma RanIsOld(c: Clamp, s: State, a: Action)
    requires a.Run? && a.t in Next(c, s, a).tasks
    ensures a.t in s.tasks
  {
  }

  lemma {:induction false} QuickRunsInTime(
      c: Clamp, primary: Table<Slot>, actions: seq<Action>, allowed: Allowed, d: Time, n: nat)
    requires d >= 0.0 && n <= |actions| && RunAllowed(c, 0.0, primary, actions, allowed)
    requires forall s, a :: allowed(s, a) ==> Quick(s, a, d)
    ensures InTime(After(c, 0.0, primary, actions[..n]), d)
  {
    if n > 0 {
      QuickRunsInTime(c, primary, actions, allowed, d, n - 1);
      assert actions[..n][..n - 1] == actions[..n - 1];
      StaysInTime(c, After(c, 0.0, primary, actions[..n - 1]), actions[n - 1], d);
    }
  }

  /** A run of quick steps is timely. */
  lemma QuickRunsAreTimely(c: Clamp, primary: Table<Slot>, actions: seq<Action>, allowed: Allowed, d: Time)
    requires d >= 0.0 && RunAllowed(c, 0.0, primary, actions, allowed)
    requires forall s, a :: allowed(s, a) ==> Quick(s, a, d)
    ensures RunsTimely(c, 0.0, primary, actions, d)
  {
    forall n | 0 <= n <= |actions| ensures Timely(After(c, 0.0, primary, actions[..n]), d) {
      QuickRunsInTime(c, primary, actions, allowed, d, n);
      var s := After(c, 0.0, primary, actions[..n]);
      forall t | t in s.tasks ensures PcTimely(s.tasks[t].pc, s.clock, d) {
        assert TaskInTime(s.tasks[t], s.clock, d);
      }
    }
  }

  // ----- Single steps -----

  /** What has happened since s: only task t has moved, and what was recorded is the primary as
      it was and as it is. */
  ghost predicate Moved(s: State, s': State, t: TaskId, k: Task, primary: Table<Slot>, cache: Table<Slot>) {
    && s'.clock == s.clock && s'.primary == primary && s'.cache == cache && s'.tasks == s.tasks[t := k]
    && s'.history == s.history + [Snapshot(s.clock, s.primary), Snapshot(s.clock, primary)]
  }

  lemma SpawnTask(c: Clamp, allowed: Allowed, p: Property, s: State, t: TaskId, goal: Goal) returns (s': State)
    requires Closed(c, allowed, p) && p(s) && allowed(s, Spawn(t, goal)) && t !in s.tasks
    ensures p(s')
    ensures Moved(s, s', t, Task(goal, if goal.Reader? then Looking(0, map[]) else Dropping(0)), s.primary, s.cache)
  {
    s' := Next(c, s, Spawn(t, goal));
  }

  lemma RunReader(
      c: Clamp, allowed: Allowed, p: Property, s: State, t: TaskId, goal: Goal, pc: Pc, pc': Pc, cache: Table<Slot>)
    returns (s': State)
    requires Closed(c, allowed, p) && p(s) && allowed(s, Run(t, 0.0))
    requires t in s.tasks && s.tasks[t] == Task(goal, pc) && goal.Reader?
    requires ReaderStep(c, s, goal.keys, goal.single, pc, s.clock) == (pc', cache)
    ensures p(s') && Moved(s, s', t, Task(goal, pc'), s.primary, cache)
  {
    s' := Next(c, s, Run(t, 0.0));
  }

  lemma RunWriter(
      c: Clamp, allowed: Allowed, p: Property, s: State, t: TaskId, goal: Goal, pc: Pc, pc': Pc,
      primary: Table<Slot>, cache: Table<Slot>)
    returns (s': State)
    requires Closed(c, allowed, p) && p(s) && allowed(s, Run(t, 0.0))
    requires t in s.tasks && s.tasks[t] == Task(goal, pc) && !goal.Reader?
    requires WriterStep(s, goal, pc) == (pc', primary, cache)
    ensures p(s') && Moved(s, s', t, Task(goal, pc'), primary, cache)
  {
    s' := Next(c, s, Run(t, 0.0));
  }

  lemma Wait(c: Clamp, allowed: Allowed, p: Property, s: State, delay: Time) returns (s': State)
    requires Closed(c, allowed, p) && p(s) && allowed(s, Tick(delay)) && delay >= 0.0
    ensures p(s') && s'.clock == s.clock + delay
    ensures s'.primary == s.primary && s'.cache == s.cache && s'.tasks == s.tasks
    ensures s'.history == s.history + [Snapshot(s'.clock, s.primary), Snapshot(s'.clock, s.primary)]
  {
    s' := Next(c, s, Tick(delay));
  }

  lemma ChangeOutside(c: Clamp, allowed: Allowed, p: Property, s: State, primary: Table<Slot>) returns (s': State)
    requires Closed(c, allowed, p) && p(s) && allowed(s, Outside(primary))
    ensures p(s') && s'.clock == s.clock && s'.primary == primary && s'.cache == s.cache && s'.tasks == s.tasks
    ensures s'.history == s.history + [Snapshot(s.clock, s.primary), Snapshot(s.clock, primary)]
  {
    s' := Next(c, s, Outside(primary));
  }

  // ----- Several steps of one task -----

  /** Task t may take every step towards this goal while the other tasks are as they are. */
  ghost predicate Free(allowed: Allowed, others: map<TaskId, Task>, t: TaskId, goal: Goal) {
    forall s: State {:trigger allowed(s, Run(t, 0.0))}
      | t in s.tasks && s.tasks[t].goal == goal && s.tasks - {t} == others - {t}
      :: allowed(s, Run(t, 0.0))
  }

  lemma StillFree(allowed: Allowed, tasks: map<TaskId, Task>, t: TaskId, goal: Goal, pc: Pc)
    requires Free(allowed, tasks, t, goal)
    ensures Free(allowed, tasks[t := Task(goal, pc)], t, goal)
    ensures forall s: State {:trigger allowed(s, Run(t, 0.0))} | s.tasks == tasks[t := Task(goal, pc)] ::
      allowed(s, Run(t, 0.0))
  {
    assert tasks[t := Task(goal, pc)] - {t} == tasks - {t};
  }

  /** Task t has come from where it was to k, and the primary was the same all the time. */
  ghost predicate Came(s: State, s': State, t: TaskId, k: Task, cache: Table<Slot>) {
    && s'.clock == s.clock && s'.primary == s.primary && s'.cache == cache && s'.tasks == s.tasks[t := k]
    && Continued(s, s')
  }

  /** Since s the primary was as it is in s'. */
  ghost predicate Continued(s: State, s': State) {
    && |s.history| <= |s'.history| && s'.history[..|s.history|] == s.history
    && forall i | |s.history| <= i < |s'.history| :: s'.history[i].primary == s'.primary
  }

  lemma CameOn(s: State, s1: State, s2: State, t: TaskId, k1: Task, k2: Task, cache1: Table<Slot>, cache2: Table<Slot>)
    requires Came(s, s1, t, k1, cache1) && Moved(s1, s2, t, k2, s1.primary, cache2)
    ensures Came(s, s2, t, k2, cache2)
  {
    assert s.tasks[t := k1][t := k2] == s.tasks[t := k2];
    assert s2.history[..|s.history|] == s1.history[..|s.history|];
  }

  /** One more step of a reader on its way. */
  lemma ReadOn(
      c: Clamp, allowed: Allowed, p: Property, s: State, s1: State, t: TaskId, goal: Goal, pc: Pc, pc': Pc,
      cache: Table<Slot>)
    returns (s2: State)
    requires Closed(c, allowed, p) && p(s1) && Free(allowed, s.tasks, t, goal) && goal.Reader?
    requires Came(s, s1, t, Task(goal, pc), s1.cache)
    requires ReaderStep(c, s1, goal.keys, goal.single, pc, s1.clock) == (pc', cache)
    ensures p(s2) && Came(s, s2, t, Task(goal, pc'), cache)
  {
    StillFree(allowed, s.tasks, t, goal, pc);
    s2 := RunReader(c, allowed, p, s1, t, goal, pc, pc', cache);
    CameOn(s, s1, s2, t, Task(goal, pc), Task(goal, pc'), s1.cache, cache);
  }

  lemma StartReading(c: Clamp, allowed: Allowed, p: Property, s: State, t: TaskId, goal: Goal) returns (s': State)
    requires Closed(c, allowed, p) && p(s) && allowed(s, Spawn(t, goal)) && t !in s.tasks && goal.Reader?
    ensures p(s') && Came(s, s', t, Task(goal, Looking(0, map[])), s.cache)
  {
    s' := SpawnTask(c, allowed, p, s, t, goal);
  }

  /** Task t has come from where it was to k, and what it left the tables at. */
  ghost predicate Went(s: State, s': State, t: TaskId, k: Task, primary: Table<Slot>, cache: Table<Slot>) {
    s'.clock == s.clock && s'.primary == primary && s'.cache == cache && s'.tasks == s.tasks[t := k]
  }

  lemma WentOn(
      s: State, s1: State, s2: State, t: TaskId, k1: Task, k2: Task, primary: Table<Slot>, cache: Table<Slot>)
    requires Went(s, s1, t, k1, s1.primary, s1.cache) && Moved(s1, s2, t, k2, primary, cache)
    ensures Went(s, s2, t, k2, primary, cache)
  {
    assert s.tasks[t := k1][t := k2] == s.tasks[t := k2];
  }

  /** One more step of a writer on its way. */
  lemma WriteOn(
      c: Clamp, allowed: Allowed, p: Property, s: State, s1: State, t: TaskId, goal: Goal, pc: Pc, pc': Pc,
      primary: Table<Slot>, cache: Table<Slot>)
    returns (s2: State)
    requires Closed(c, allowed, p) && p(s1) && Free(allowed, s.tasks, t, goal) && !goal.Reader?
    requires Went(s, s1, t, Task(goal, pc), s1.primary, s1.cache)
    requires WriterStep(s1, goal, pc) == (pc', primary, cache)
    ensures p(s2) && Went(s, s2, t, Task(goal, pc'), primary, cache)
  {
    StillFree(allowed, s.tasks, t, goal, pc);
    s2 := RunWriter(c, allowed, p, s1, t, goal, pc, pc', primary, cache);
    WentOn(s, s1, s2, t, Task(goal, pc), Task(goal, pc'), primary, cache);
  }
}
