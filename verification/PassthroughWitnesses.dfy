/** Why reads and writes of a key have to be kept apart: without any one of the conditions of
    PassthroughSerial a read can be served a value that the primary no longer holds. */
module PassthroughWitnesses {
  import opened Prelude
  import opened TimeToLive
  import opened KeyValue
  import opened TtlClamps
  import opened PassthroughSpec
  import opened PassthroughInterleaving
  import opened PassthroughSerial
  import opened PassthroughRuns

  // ----- A single read that misses -----

  function HasAsked(k: Slot, e: Entry, read: Time): Pc {
    Asking([k], 1, map[], [PrimaryRead(k, e, read)], Some(read))
  }

  function HasAnswer(k: Slot, e: Entry, read: Time): Pc {
    Preparing(map[k := Pick(e.value, read, false)], [PrimaryRead(k, e, read)], Some(read))
  }

  function IsFilling(k: Slot, e: Entry, read: Time, f: Entry, i: nat): Pc {
    Filling([(k, f)], i, map[k := Pick(e.value, read, false)], Some(read))
  }

  lemma MissSteps(c: Clamp, s: State, k: Slot)
    requires k !in s.cache
    ensures ReaderStep(c, s, [k], true, Looking(0, map[]), s.clock) == (Looking(1, map[]), s.cache)
    ensures ReaderStep(c, s, [k], true, Looking(1, map[]), s.clock) == (Asking([k], 0, map[], [], None), s.cache)
  {
    var seen: map<Slot, Entry> := map[];
    var none: map<Slot, Pick> := map[];
    assert seen - {k} == seen && Hits(seen, true, s.clock) == none;
    assert Missing([k][..0], none) == [];
    assert Missing([k], none) == [k];
  }

  lemma AskStep(c: Clamp, s: State, k: Slot, e: Entry)
    requires k in s.primary && s.primary[k] == e
    ensures ReaderStep(c, s, [k], true, Asking([k], 0, map[], [], None), s.clock) == (HasAsked(k, e, s.clock), s.cache)
  {
    var readings: seq<PrimaryRead> := [];
    assert readings + [PrimaryRead(k, e, s.clock)] == [PrimaryRead(k, e, s.clock)];
  }

  lemma CheckStep(c: Clamp, s: State, k: Slot, e: Entry, read: Time)
    requires Usable(e, true, s.clock)
    ensures ReaderStep(c, s, [k], true, HasAsked(k, e, read), s.clock) == (HasAnswer(k, e, read), s.cache)
  {
    var r := PrimaryRead(k, e, read);
    var none: seq<PrimaryRead> := [];
    assert [r][..0] == none && none + [r] == [r];
    assert Answers([r], true, s.clock) == [r];
    var found: map<Slot, Pick> := map[];
    assert Picks(found, [r][..0]) == found;
    assert found[k := Pick(e.value, read, false)] == map[k := Pick(e.value, read, false)];
  }

  lemma PrepareStep(c: Clamp, s: State, k: Slot, e: Entry, read: Time)
    ensures ReaderStep(c, s, [k], true, HasAnswer(k, e, read), s.clock) ==
      match FillFrom(c, e, read, s.clock)
      case Ok(f) => (IsFilling(k, e, read, f, 0), s.cache)
      case Err(_) => (FillRaised, s.cache)
  {
    var r := PrimaryRead(k, e, read);
    var nothing: seq<(Slot, Entry)> := [];
    assert Prepare(c, [r][..0], s.clock) == Ok(nothing);
    if FillFrom(c, e, read, s.clock).Ok? {
      var f := FillFrom(c, e, read, s.clock).value;
      assert nothing + [(k, f)] == [(k, f)];
    }
  }

  lemma FillSteps(c: Clamp, s: State, k: Slot, e: Entry, read: Time, f: Entry)
    ensures ReaderStep(c, s, [k], true, IsFilling(k, e, read, f, 0), s.clock)
         == (IsFilling(k, e, read, f, 1), s.cache[k := f])
    ensures ReaderStep(c, s, [k], true, IsFilling(k, e, read, f, 1), s.clock)
         == (Replied(map[k := Pick(e.value, read, false)], Some(read), s.clock), s.cache)
  {
  }

  /** From the start to the answer of the primary. */
  lemma ReadFromPrimary(c: Clamp, allowed: Allowed, p: Property, s: State, t: TaskId, k: Slot, e: Entry)
    returns (s': State)
    requires Closed(c, allowed, p) && p(s) && t !in s.tasks && k !in s.cache
    requires allowed(s, Spawn(t, Reader([k], true))) && Free(allowed, s.tasks, t, Reader([k], true))
    requires k in s.primary && s.primary[k] == e && Usable(e, true, s.clock)
    ensures p(s') && Came(s, s', t, Task(Reader([k], true), HasAnswer(k, e, s.clock)), s.cache)
  {
    var g := Reader([k], true);
    s' := StartReading(c, allowed, p, s, t, g);
    MissSteps(c, s', k);
    s' := ReadOn(c, allowed, p, s, s', t, g, Looking(0, map[]), Looking(1, map[]), s.cache);
    MissSteps(c, s', k);
    s' := ReadOn(c, allowed, p, s, s', t, g, Looking(1, map[]), Asking([k], 0, map[], [], None), s.cache);
    AskStep(c, s', k, e);
    s' := ReadOn(c, allowed, p, s, s', t, g, Asking([k], 0, map[], [], None), HasAsked(k, e, s.clock), s.cache);
    CheckStep(c, s', k, e, s.clock);
    s' := ReadOn(c, allowed, p, s, s', t, g, HasAsked(k, e, s.clock), HasAnswer(k, e, s.clock), s.cache);
  }

  lemma SameTask(s: State, t: TaskId, k: Task)
    requires t in s.tasks && s.tasks[t] == k
    ensures Came(s, s, t, k, s.cache)
  {
    assert s.tasks[t := k] == s.tasks;
  }

  /** From the answer to the reply; the cache is filled with f. */
  lemma FillAndReply(
      c: Clamp, allowed: Allowed, p: Property, s: State, t: TaskId, k: Slot, e: Entry, read: Time, f: Entry)
    returns (s': State)
    requires Closed(c, allowed, p) && p(s) && Free(allowed, s.tasks, t, Reader([k], true))
    requires t in s.tasks && s.tasks[t] == Task(Reader([k], true), HasAnswer(k, e, read))
    requires FillFrom(c, e, read, s.clock) == Ok(f)
    ensures p(s')
    ensures Came(s, s', t, Task(Reader([k], true), Replied(map[k := Pick(e.value, read, false)], Some(read), s.clock)),
                 s.cache[k := f])
  {
    var g := Reader([k], true);
    SameTask(s, t, Task(g, HasAnswer(k, e, read)));
    PrepareStep(c, s, k, e, read);
    s' := ReadOn(c, allowed, p, s, s, t, g, HasAnswer(k, e, read), IsFilling(k, e, read, f, 0), s.cache);
    FillSteps(c, s', k, e, read, f);
    s' := ReadOn(c, allowed, p, s, s', t, g, IsFilling(k, e, read, f, 0), IsFilling(k, e, read, f, 1), s.cache[k := f]);
    FillSteps(c, s', k, e, read, f);
    s' := ReadOn(c, allowed, p, s, s', t, g, IsFilling(k, e, read, f, 1),
                 Replied(map[k := Pick(e.value, read, false)], Some(read), s.clock), s.cache[k := f]);
  }

  // ----- A single read that hits -----

  lemma HitSteps(c: Clamp, s: State, k: Slot, e: Entry)
    requires k in s.cache && s.cache[k] == e && Usable(e, true, s.clock)
    ensures ReaderStep(c, s, [k], true, Looking(0, map[]), s.clock) == (Looking(1, map[k := e]), s.cache)
    ensures ReaderStep(c, s, [k], true, Looking(1, map[k := e]), s.clock)
         == (Replied(map[k := Pick(e.value, s.clock, true)], None, s.clock), s.cache)
  {
    var seen: map<Slot, Entry> := map[];
    assert seen[k := e] == map[k := e];
    assert Hits(map[k := e], true, s.clock) == map[k := Pick(e.value, s.clock, true)];
    assert k in Hits(map[k := e], true, s.clock);
  }

  lemma ReadFromCache(c: Clamp, allowed: Allowed, p: Property, s: State, t: TaskId, k: Slot, e: Entry)
    returns (s': State)
    requires Closed(c, allowed, p) && p(s) && t !in s.tasks
    requires allowed(s, Spawn(t, Reader([k], true))) && Free(allowed, s.tasks, t, Reader([k], true))
    requires k in s.cache && s.cache[k] == e && Usable(e, true, s.clock)
    ensures p(s')
    ensures Came(s, s', t, Task(Reader([k], true), Replied(map[k := Pick(e.value, s.clock, true)], None, s.clock)), s.cache)
  {
    var g := Reader([k], true);
    s' := StartReading(c, allowed, p, s, t, g);
    HitSteps(c, s', k, e);
    s' := ReadOn(c, allowed, p, s, s', t, g, Looking(0, map[]), Looking(1, map[k := e]), s.cache);
    HitSteps(c, s', k, e);
    s' := ReadOn(c, allowed, p, s, s', t, g, Looking(1, map[k := e]),
                 Replied(map[k := Pick(e.value, s.clock, true)], None, s.clock), s.cache);
  }

  // ----- A put of one key -----

  lemma PutSteps(s: State, k: Slot, e: Entry)
    ensures WriterStep(s, Putter([k], [e]), Dropping(0)) == (Dropping(1), s.primary, s.cache - {k})
    ensures WriterStep(s, Putter([k], [e]), Dropping(1)) == (Writing(0), s.primary, s.cache)
    ensures WriterStep(s, Putter([k], [e]), Writing(0)) == (Writing(1), s.primary[k := e], s.cache)
    ensures WriterStep(s, Putter([k], [e]), Writing(1)) == (Written, s.primary, s.cache)
  {
  }

  lemma StartWriting(c: Clamp, allowed: Allowed, p: Property, s: State, t: TaskId, k: Slot, e: Entry)
    returns (s': State)
    requires Closed(c, allowed, p) && p(s) && t !in s.tasks
    requires allowed(s, Spawn(t, Putter([k], [e]))) && Free(allowed, s.tasks, t, Putter([k], [e]))
    ensures p(s') && Went(s, s', t, Task(Putter([k], [e]), Writing(0)), s.primary, s.cache - {k})
  {
    var g := Putter([k], [e]);
    s' := SpawnTask(c, allowed, p, s, t, g);
    PutSteps(s', k, e);
    s' := WriteOn(c, allowed, p, s, s', t, g, Dropping(0), Dropping(1), s.primary, s.cache - {k});
    PutSteps(s', k, e);
    s' := WriteOn(c, allowed, p, s, s', t, g, Dropping(1), Writing(0), s.primary, s.cache - {k});
  }

  lemma TaskWent(s: State, t: TaskId, k: Task)
    requires t in s.tasks && s.tasks[t] == k
    ensures Went(s, s, t, k, s.primary, s.cache)
  {
    assert s.tasks[t := k] == s.tasks;
  }

  lemma FinishWriting(c: Clamp, allowed: Allowed, p: Property, s: State, t: TaskId, k: Slot, e: Entry)
    returns (s': State)
    requires Closed(c, allowed, p) && p(s) && Free(allowed, s.tasks, t, Putter([k], [e]))
    requires t in s.tasks && s.tasks[t] == Task(Putter([k], [e]), Writing(0))
    ensures p(s') && Went(s, s', t, Task(Putter([k], [e]), Written), s.primary[k := e], s.cache)
  {
    var g := Putter([k], [e]);
    TaskWent(s, t, Task(g, Writing(0)));
    PutSteps(s, k, e);
    s' := WriteOn(c, allowed, p, s, s, t, g, Writing(0), Writing(1), s.primary[k := e], s.cache);
    PutSteps(s', k, e);
    s' := WriteOn(c, allowed, p, s, s', t, g, Writing(1), Written, s.primary[k := e], s.cache);
  }

  // ----- Stale replies -----

  /** Task t has just been served v for k, which at this time is w in the primary throughout. */
  ghost predicate StaleReply(s: State, t: TaskId, k: Slot, v: Dict, w: Dict) {
    && t in s.tasks
    && s.tasks[t] == Task(Reader([k], true), Replied(map[k := Pick(v, s.clock, true)], None, s.clock))
    && forall i | 0 <= i < |s.history| && s.history[i].time == s.clock ::
      k in s.history[i].primary && s.history[i].primary[k].value == w
  }

  lemma StaleIsNotCurrent(s: State, t: TaskId, k: Slot, v: Dict, w: Dict, d: Time)
    requires StaleReply(s, t, k, v, w) && v != w
    ensures !RepliedCurrent(s.history, [k], map[k := Pick(v, s.clock, true)], true, s.clock, d)
  {
    var found := map[k := Pick(v, s.clock, true)];
    assert k in found;
    forall i | 0 <= i < |s.history| && s.history[i].time == s.clock
      ensures !RepliedFrom(s.history[i].primary, [k], found, true, s.clock, d)
    {
      assert !PickOf(s.history[i].primary, k, found[k], d);
    }
  }

  /** States with property p have no snapshots of the future. */
  ghost predicate Dated(p: Property) {
    forall s :: p(s) ==> forall i | 0 <= i < |s.history| :: s.history[i].time <= s.clock
  }

  /** The cache holds v and the primary w: a later read is served v. */
  lemma StaleFromHere(c: Clamp, allowed: Allowed, p: Property, s: State, k: Slot, e: Entry, w: Dict)
    returns (s': State)
    requires Closed(c, allowed, p) && Dated(p) && p(s) && 2 !in s.tasks && allowed(s, Tick(1.0))
    requires forall s1: State {:trigger allowed(s1, Spawn(2, Reader([k], true)))} | s1.tasks == s.tasks ::
      allowed(s1, Spawn(2, Reader([k], true)))
    requires Free(allowed, s.tasks, 2, Reader([k], true))
    requires k in s.cache && s.cache[k] == e && Usable(e, true, s.clock + 1.0)
    requires k in s.primary && s.primary[k].value == w
    ensures p(s') && StaleReply(s', 2, k, e.value, w)
  {
    var s1 := Wait(c, allowed, p, s, 1.0);
    assert forall i | 0 <= i < |s.history| :: s.history[i].time <= s.clock;
    assert forall i | 0 <= i < |s1.history| && s1.history[i].time == s1.clock :: s1.history[i].primary == s.primary;
    s' := ReadFromCache(c, allowed, p, s1, 2, k, e);
    StaleEnd(s1, s', k, w);
  }

  lemma StaleEnd(s1: State, s': State, k: Slot, w: Dict)
    requires k in s1.primary && s1.primary[k].value == w && s'.primary == s1.primary && s'.clock == s1.clock
    requires forall i | 0 <= i < |s1.history| && s1.history[i].time == s1.clock :: s1.history[i].primary == s1.primary
    requires Continued(s1, s')
    ensures forall i | 0 <= i < |s'.history| && s'.history[i].time == s'.clock ::
      k in s'.history[i].primary && s'.history[i].primary[k].value == w
  {
    forall i | 0 <= i < |s'.history| && s'.history[i].time == s'.clock
      ensures s'.history[i].primary == s1.primary
    {
      if i < |s1.history| {
        assert s'.history[..|s1.history|][i] == s1.history[i];
      }
    }
  }

  // ----- Each condition is needed -----

  /** Readers wait for writers; writers do not wait for readers. */
  ghost predicate OnlyReadersWait(s: State, a: Action) {
    NoReadInWrite(s, a) && !a.Outside?
  }

  /** Writers wait for readers; readers do not wait for writers. */
  ghost predicate OnlyWritersWait(s: State, a: Action) {
    NoWriteInRead(s, a) && !a.Outside?
  }

  /** Both wait, but somebody else may change the primary. */
  ghost predicate OnlyCallersWait(s: State, a: Action) {
    NoReadInWrite(s, a) && NoWriteInRead(s, a)
  }

  ghost predicate QuickReadersWait(s: State, a: Action) {
    OnlyReadersWait(s, a) && Quick(s, a, 0.0)
  }

  ghost predicate QuickWritersWait(s: State, a: Action) {
    OnlyWritersWait(s, a) && Quick(s, a, 0.0)
  }

  ghost predicate QuickCallersWait(s: State, a: Action) {
    OnlyCallersWait(s, a) && Quick(s, a, 0.0)
  }

  ghost predicate NobodyWrites(tasks: map<TaskId, Task>) {
    forall t | t in tasks :: !Writes(tasks[t])
  }

  ghost predicate NobodyReads(tasks: map<TaskId, Task>) {
    forall t | t in tasks :: !Unfinished(tasks[t])
  }

  lemma ReaderMayRun(s: State, t: TaskId)
    requires t in s.tasks && s.tasks[t].goal.Reader? && NobodyWrites(s.tasks - {t})
    ensures NoReadInWrite(s, Run(t, 0.0)) && NoWriteInRead(s, Run(t, 0.0)) && Quick(s, Run(t, 0.0), 0.0)
  {
    forall u | u in s.tasks ensures !Writes(s.tasks[u]) {
      if u != t {
        assert u in s.tasks - {t};
      }
    }
  }

  lemma LoneWriterMayRun(s: State, t: TaskId)
    requires t in s.tasks && !s.tasks[t].goal.Reader? && NobodyReads(s.tasks - {t})
    ensures QuickWritersWait(s, Run(t, 0.0))
  {
    forall u | u in s.tasks ensures !Unfinished(s.tasks[u]) {
      if u != t {
        assert u in s.tasks - {t};
      }
    }
  }

  const DEFAULTS := CacheClamp(None, None)

  function Plain(v: Dict): Entry {
    Entry(v, None, None)
  }

  /** What the cache is filled with at time 0 from an entry without an expiry. */
  function Copy(v: Dict): Entry {
    NewEntry(v, Some(1800.0), 0.0)
  }

  lemma CopyIsFilled(v: Dict)
    ensures FillFrom(DEFAULTS, Plain(v), 0.0, 0.0) == Ok(Copy(v))
    ensures v != EMPTY_DICT ==> Usable(Plain(v), true, 0.0) && Usable(Copy(v), true, 1.0)
  {
  }

  /** Where a run has got to, still at time 0: what the tiers hold for k, and the tasks. */
  ghost predicate At(s: State, k: Slot, stored: Dict, cached: Option<Entry>, tasks: map<TaskId, Task>) {
    && s.clock == 0.0 && s.tasks == tasks
    && k in s.primary && s.primary[k] == Plain(stored)
    && (if cached.Some? then k in s.cache && s.cache[k] == cached.value else k !in s.cache)
  }

  function Answered(k: Slot, v: Dict): Task {
    Task(Reader([k], true), HasAnswer(k, Plain(v), 0.0))
  }

  function Served(k: Slot, v: Dict): Task {
    Task(Reader([k], true), Replied(map[k := Pick(v, 0.0, false)], Some(0.0), 0.0))
  }

  function Put(k: Slot, w: Dict, pc: Pc): Task {
    Task(Putter([k], [Plain(w)]), pc)
  }

  /** Calls may start at any time, and time may pass when no read is under way. */
  ghost predicate StartsFree(allowed: Allowed) {
    && (forall s, t, goal :: allowed(s, Spawn(t, goal)))
    && forall s: State {:trigger allowed(s, Tick(1.0))} | NobodyReads(s.tasks) :: allowed(s, Tick(1.0))
  }

  /** Readers may run, `anyway` or while nobody writes. */
  ghost predicate ReadsFree(allowed: Allowed, anyway: bool) {
    forall others: map<TaskId, Task>, t, goal: Goal | goal.Reader? && (anyway || NobodyWrites(others - {t})) ::
      Free(allowed, others, t, goal)
  }

  ghost predicate WritesFree(allowed: Allowed, anyway: bool) {
    forall others: map<TaskId, Task>, t, goal: Goal | !goal.Reader? && (anyway || NobodyReads(others - {t})) ::
      Free(allowed, others, t, goal)
  }

  /** A reader, task 0, and a writer, task 1, if they have started. */
  function Tasks(r: Option<Task>, w: Option<Task>): map<TaskId, Task> {
    match (r, w)
    case (None, None) => map[]
    case (Some(x), None) => map[0 := x]
    case (None, Some(y)) => map[1 := y]
    case (Some(x), Some(y)) => map[0 := x, 1 := y]
  }

  ghost predicate Idle(k: Option<Task>) {
    k.Some? ==> !Writes(k.value) && !Unfinished(k.value)
  }

  lemma TasksMove(r: Option<Task>, w: Option<Task>, x: Task)
    ensures Tasks(r, w)[0 := x] == Tasks(Some(x), w) && Tasks(r, w)[1 := x] == Tasks(r, Some(x))
    ensures Idle(w) ==> NobodyWrites(Tasks(r, w) - {0})
    ensures Idle(r) ==> NobodyReads(Tasks(r, w) - {1})
    ensures Idle(r) && Idle(w) ==> NobodyReads(Tasks(r, w)) && NobodyWrites(Tasks(r, w)) && NobodyWrites(Tasks(r, w) - {2})
  {
  }

  lemma ReadPart(allowed: Allowed, anyway: bool, p: Property, s: State, k: Slot, v: Dict, w: Option<Task>)
    returns (s': State)
    requires Closed(DEFAULTS, allowed, p) && p(s) && At(s, k, v, None, Tasks(None, w)) && v != EMPTY_DICT
    requires StartsFree(allowed) && ReadsFree(allowed, anyway) && (anyway || Idle(w))
    ensures p(s') && At(s', k, v, None, Tasks(Some(Answered(k, v)), w))
  {
    CopyIsFilled(v);
    TasksMove(None, w, Answered(k, v));
    s' := ReadFromPrimary(DEFAULTS, allowed, p, s, 0, k, Plain(v));
  }

  lemma FillPart(
      allowed: Allowed, anyway: bool, p: Property, s: State, k: Slot, v: Dict, stored: Dict, w: Option<Task>)
    returns (s': State)
    requires Closed(DEFAULTS, allowed, p) && p(s) && At(s, k, stored, None, Tasks(Some(Answered(k, v)), w))
    requires ReadsFree(allowed, anyway) && (anyway || Idle(w))
    ensures p(s') && At(s', k, stored, Some(Copy(v)), Tasks(Some(Served(k, v)), w))
  {
    CopyIsFilled(v);
    TasksMove(Some(Answered(k, v)), w, Served(k, v));
    s' := FillAndReply(DEFAULTS, allowed, p, s, 0, k, Plain(v), 0.0, Copy(v));
  }

  lemma DropPart(
      allowed: Allowed, anyway: bool, p: Property, s: State, k: Slot, v: Dict, w: Dict, r: Option<Task>)
    returns (s': State)
    requires Closed(DEFAULTS, allowed, p) && p(s) && At(s, k, v, None, Tasks(r, None))
    requires StartsFree(allowed) && WritesFree(allowed, anyway) && (anyway || Idle(r))
    ensures p(s') && At(s', k, v, None, Tasks(r, Some(Put(k, w, Writing(0)))))
  {
    TasksMove(r, None, Put(k, w, Writing(0)));
    s' := StartWriting(DEFAULTS, allowed, p, s, 1, k, Plain(w));
  }

  lemma WritePart(
      allowed: Allowed, anyway: bool, p: Property, s: State, k: Slot, v: Dict, w: Dict, cached: Option<Entry>,
      r: Option<Task>)
    returns (s': State)
    requires Closed(DEFAULTS, allowed, p) && p(s) && At(s, k, v, cached, Tasks(r, Some(Put(k, w, Writing(0)))))
    requires WritesFree(allowed, anyway) && (anyway || Idle(r))
    ensures p(s') && At(s', k, w, cached, Tasks(r, Some(Put(k, w, Written))))
  {
    TasksMove(r, Some(Put(k, w, Writing(0))), Put(k, w, Written));
    s' := FinishWriting(DEFAULTS, allowed, p, s, 1, k, Plain(w));
  }

  lemma StalePart(
      allowed: Allowed, anyway: bool, p: Property, s: State, k: Slot, v: Dict, w: Dict, r: Option<Task>, u: Option<Task>)
    returns (s': State)
    requires Closed(DEFAULTS, allowed, p) && Dated(p) && p(s) && At(s, k, w, Some(Copy(v)), Tasks(r, u))
    requires v != EMPTY_DICT && Idle(r) && Idle(u)
    requires StartsFree(allowed) && ReadsFree(allowed, anyway)
    ensures p(s') && StaleReply(s', 2, k, v, w)
  {
    CopyIsFilled(v);
    TasksMove(r, u, Served(k, v));
    s' := StaleFromHere(DEFAULTS, allowed, p, s, k, Copy(v), w);
  }

  /** A write between a reader's look at the primary and its fill. */
  lemma WriteBeforeFill(allowed: Allowed, p: Property, s0: State, k: Slot, v: Dict, w: Dict) returns (s: State)
    requires Closed(DEFAULTS, allowed, p) && Dated(p) && p(s0) && At(s0, k, v, None, Tasks(None, None)) && v != EMPTY_DICT
    requires StartsFree(allowed) && ReadsFree(allowed, false) && WritesFree(allowed, true)
    ensures p(s) && StaleReply(s, 2, k, v, w)
  {
    s := ReadPart(allowed, false, p, s0, k, v, None);
    s := DropPart(allowed, true, p, s, k, v, w, Some(Answered(k, v)));
    s := WritePart(allowed, true, p, s, k, v, w, None, Some(Answered(k, v)));
    s := FillPart(allowed, false, p, s, k, v, w, Some(Put(k, w, Written)));
    s := StalePart(allowed, false, p, s, k, v, w, Some(Served(k, v)), Some(Put(k, w, Written)));
  }

  /** A whole read between a writer's drop and its write. */
  lemma ReadBeforeWrite(allowed: Allowed, p: Property, s0: State, k: Slot, v: Dict, w: Dict) returns (s: State)
    requires Closed(DEFAULTS, allowed, p) && Dated(p) && p(s0) && At(s0, k, v, None, Tasks(None, None)) && v != EMPTY_DICT
    requires StartsFree(allowed) && ReadsFree(allowed, true) && WritesFree(allowed, false)
    ensures p(s) && StaleReply(s, 2, k, v, w)
  {
    s := DropPart(allowed, false, p, s0, k, v, w, None);
    s := ReadPart(allowed, true, p, s, k, v, Some(Put(k, w, Writing(0))));
    s := FillPart(allowed, true, p, s, k, v, v, Some(Put(k, w, Writing(0))));
    s := WritePart(allowed, false, p, s, k, v, w, Some(Copy(v)), Some(Served(k, v)));
    s := StalePart(allowed, true, p, s, k, v, w, Some(Served(k, v)), Some(Put(k, w, Written)));
  }

  /** A change of the primary from outside after a fill. */
  lemma OutsideAfterFill(allowed: Allowed, p: Property, s0: State, k: Slot, v: Dict, w: Dict) returns (s: State)
    requires Closed(DEFAULTS, allowed, p) && Dated(p) && p(s0) && At(s0, k, v, None, Tasks(None, None)) && v != EMPTY_DICT
    requires StartsFree(allowed) && ReadsFree(allowed, false)
    requires forall s :: allowed(s, Outside(map[k := Plain(w)]))
    ensures p(s) && StaleReply(s, 2, k, v, w)
  {
    s := ReadPart(allowed, false, p, s0, k, v, None);
    s := FillPart(allowed, false, p, s, k, v, v, None);
    s := ChangeOutside(DEFAULTS, allowed, p, s, map[k := Plain(w)]);
    s := StalePart(allowed, false, p, s, k, v, w, Some(Served(k, v)), None);
  }

  lemma ReadersWaitFree()
    ensures StartsFree(QuickReadersWait) && ReadsFree(QuickReadersWait, false) && WritesFree(QuickReadersWait, true)
  {
    forall others: map<TaskId, Task>, t, goal: Goal | goal.Reader? && NobodyWrites(others - {t})
      ensures Free(QuickReadersWait, others, t, goal)
    {
      forall s: State | t in s.tasks && s.tasks[t].goal == goal && s.tasks - {t} == others - {t}
        ensures QuickReadersWait(s, Run(t, 0.0))
      {
        ReaderMayRun(s, t);
      }
    }
  }

  lemma WritersWaitFree()
    ensures StartsFree(QuickWritersWait) && ReadsFree(QuickWritersWait, true) && WritesFree(QuickWritersWait, false)
  {
    forall others: map<TaskId, Task>, t, goal: Goal | !goal.Reader? && NobodyReads(others - {t})
      ensures Free(QuickWritersWait, others, t, goal)
    {
      forall s: State | t in s.tasks && s.tasks[t].goal == goal && s.tasks - {t} == others - {t}
        ensures QuickWritersWait(s, Run(t, 0.0))
      {
        LoneWriterMayRun(s, t);
      }
    }
  }

  lemma CallersWaitFree()
    ensures StartsFree(QuickCallersWait) && ReadsFree(QuickCallersWait, false)
    ensures forall s, primary :: QuickCallersWait(s, Outside(primary))
  {
    forall others: map<TaskId, Task>, t, goal: Goal | goal.Reader? && NobodyWrites(others - {t})
      ensures Free(QuickCallersWait, others, t, goal)
    {
      forall s: State | t in s.tasks && s.tasks[t].goal == goal && s.tasks - {t} == others - {t}
        ensures QuickCallersWait(s, Run(t, 0.0))
      {
        ReaderMayRun(s, t);
      }
    }
  }

  lemma ReachedIsDated(c: Clamp, primary: Table<Slot>, allowed: Allowed)
    requires forall s, a :: allowed(s, a) ==> Quick(s, a, 0.0)
    ensures Dated(s => ReachedBy(c, primary, allowed, s))
  {
    forall s | ReachedBy(c, primary, allowed, s) ensures forall i | 0 <= i < |s.history| :: s.history[i].time <= s.clock {
      var actions :| s == After(c, 0.0, primary, actions) && RunAllowed(c, 0.0, primary, actions, allowed);
      QuickRunsInTime(c, primary, actions, allowed, 0.0, |actions|);
      assert actions[..|actions|] == actions;
    }
  }

  /** The run ends in a stale reply, although its calls take no time. */
  ghost predicate EndsStale(actions: seq<Action>, allowed: Allowed, k: Slot, v: Dict, w: Dict) {
    && RunAllowed(DEFAULTS, 0.0, map[k := Plain(v)], actions, allowed)
    && RunsTimely(DEFAULTS, 0.0, map[k := Plain(v)], actions, 0.0)
    && StaleReply(After(DEFAULTS, 0.0, map[k := Plain(v)], actions), 2, k, v, w)
  }

  lemma StartReached(allowed: Allowed, k: Slot, v: Dict)
    ensures ReachedBy(DEFAULTS, map[k := Plain(v)], allowed, After(DEFAULTS, 0.0, map[k := Plain(v)], []))
    ensures At(After(DEFAULTS, 0.0, map[k := Plain(v)], []), k, v, None, Tasks(None, None))
  {
    assert RunAllowed(DEFAULTS, 0.0, map[k := Plain(v)], [], allowed);
  }

  lemma Weaken(primary: Table<Slot>, actions: seq<Action>, allowed: Allowed, allowed': Allowed)
    requires RunAllowed(DEFAULTS, 0.0, primary, actions, allowed)
    requires forall s, a {:trigger allowed(s, a)} :: allowed(s, a) ==> allowed'(s, a) && Quick(s, a, 0.0)
    ensures RunAllowed(DEFAULTS, 0.0, primary, actions, allowed') && RunsTimely(DEFAULTS, 0.0, primary, actions, 0.0)
  {
    QuickRunsAreTimely(DEFAULTS, primary, actions, allowed, 0.0);
  }

  /** That readers wait is not enough: a write that overtakes a read between its look at the
      primary and its fill leaves the old value in the cache. */
  lemma ReadersWaitingIsNotEnough(k: Slot, v: Dict, w: Dict) returns (actions: seq<Action>)
    requires v != w && v != EMPTY_DICT
    ensures EndsStale(actions, OnlyReadersWait, k, v, w)
  {
    var primary := map[k := Plain(v)];
    ReachedIsClosed(DEFAULTS, primary, QuickReadersWait);
    ReachedIsDated(DEFAULTS, primary, QuickReadersWait);
    StartReached(QuickReadersWait, k, v);
    ReadersWaitFree();
    var p: Property := x => ReachedBy(DEFAULTS, primary, QuickReadersWait, x);
    var s := WriteBeforeFill(QuickReadersWait, p, After(DEFAULTS, 0.0, primary, []), k, v, w);
    actions :| s == After(DEFAULTS, 0.0, primary, actions)
      && RunAllowed(DEFAULTS, 0.0, primary, actions, QuickReadersWait);
    Weaken(primary, actions, QuickReadersWait, OnlyReadersWait);
  }

  /** That writers wait is not enough: a read that comes and goes between a writer's drop and
      its write puts the old value back into the cache. */
  lemma WritersWaitingIsNotEnough(k: Slot, v: Dict, w: Dict) returns (actions: seq<Action>)
    requires v != w && v != EMPTY_DICT
    ensures EndsStale(actions, OnlyWritersWait, k, v, w)
  {
    var primary := map[k := Plain(v)];
    ReachedIsClosed(DEFAULTS, primary, QuickWritersWait);
    ReachedIsDated(DEFAULTS, primary, QuickWritersWait);
    StartReached(QuickWritersWait, k, v);
    WritersWaitFree();
    var p: Property := x => ReachedBy(DEFAULTS, primary, QuickWritersWait, x);
    var s := ReadBeforeWrite(QuickWritersWait, p, After(DEFAULTS, 0.0, primary, []), k, v, w);
    actions :| s == After(DEFAULTS, 0.0, primary, actions)
      && RunAllowed(DEFAULTS, 0.0, primary, actions, QuickWritersWait);
    Weaken(primary, actions, QuickWritersWait, OnlyWritersWait);
  }

  /** That both wait is not enough for a primary that others change too. */
  lemma CallersWaitingIsNotEnough(k: Slot, v: Dict, w: Dict) returns (actions: seq<Action>)
    requires v != w && v != EMPTY_DICT
    ensures EndsStale(actions, OnlyCallersWait, k, v, w)
  {
    var primary := map[k := Plain(v)];
    ReachedIsClosed(DEFAULTS, primary, QuickCallersWait);
    ReachedIsDated(DEFAULTS, primary, QuickCallersWait);
    StartReached(QuickCallersWait, k, v);
    CallersWaitFree();
    var p: Property := x => ReachedBy(DEFAULTS, primary, QuickCallersWait, x);
    var s := OutsideAfterFill(QuickCallersWait, p, After(DEFAULTS, 0.0, primary, []), k, v, w);
    actions :| s == After(DEFAULTS, 0.0, primary, actions)
      && RunAllowed(DEFAULTS, 0.0, primary, actions, QuickCallersWait);
    Weaken(primary, actions, QuickCallersWait, OnlyCallersWait);
  }

  // ----- Exactly when replies are current -----

  /** What callers of the store may agree on. */
  datatype Discipline = Discipline(readersWait: bool, writersWait: bool, nobodyElse: bool)

  ghost predicate Obeys(x: Discipline, s: State, a: Action) {
    && (x.readersWait ==> NoReadInWrite(s, a))
    && (x.writersWait ==> NoWriteInRead(s, a))
    && (x.nobodyElse ==> !a.Outside?)
  }

  /** In every run with the default limits whose calls take at most d from their first read of
      the primary, and that obeys the discipline, every reply is the primary's own. */
  ghost predicate AlwaysCurrent(x: Discipline) {
    forall start, primary, actions, d, t
      | RunsTimely(DEFAULTS, start, primary, actions, d)
        && RunAllowed(DEFAULTS, start, primary, actions, (s, a) => Obeys(x, s, a))
      :: TaskReplyCurrent(After(DEFAULTS, start, primary, actions), t, d)
  }

  ghost predicate TaskReplyCurrent(s: State, t: TaskId, d: Time) {
    t in s.tasks && s.tasks[t].goal.Reader? && s.tasks[t].pc.Replied? ==>
      RepliedCurrent(s.history, s.tasks[t].goal.keys, s.tasks[t].pc.found, s.tasks[t].goal.single, s.tasks[t].pc.at, d)
  }

  lemma EnoughDiscipline(x: Discipline)
    requires x == Discipline(true, true, true)
    ensures AlwaysCurrent(x)
  {
    forall start, primary, actions, d, t
      | RunsTimely(DEFAULTS, start, primary, actions, d)
        && RunAllowed(DEFAULTS, start, primary, actions, (s, a) => Obeys(x, s, a))
      ensures TaskReplyCurrent(After(DEFAULTS, start, primary, actions), t, d)
    {
      assert RunAllowed(DEFAULTS, start, primary, actions, Serial);
      var s := After(DEFAULTS, start, primary, actions);
      if t in s.tasks && s.tasks[t].goal.Reader? && s.tasks[t].pc.Replied? {
        SerialReadsAreCurrent(None, None, start, primary, actions, d, t);
      }
    }
  }

  lemma StaleRefutes(x: Discipline, actions: seq<Action>, allowed: Allowed, k: Slot, v: Dict, w: Dict)
    requires EndsStale(actions, allowed, k, v, w) && v != w
    requires forall s, a :: allowed(s, a) ==> Obeys(x, s, a)
    ensures !AlwaysCurrent(x)
  {
    var primary := map[k := Plain(v)];
    var s := After(DEFAULTS, 0.0, primary, actions);
    assert RunAllowed(DEFAULTS, 0.0, primary, actions, (s, a) => Obeys(x, s, a));
    StaleIsNotCurrent(s, 2, k, v, w, 0.0);
    assert !TaskReplyCurrent(s, 2, 0.0);
  }

  /** Of the eight disciplines that impose some of the three conditions, with tasks interleaved at
      every await: replies are the primary's own on all runs exactly when readers of a key wait
      for its writers, writers for its readers, and nobody else changes the primary. */
  lemma AlwaysCurrentIff(x: Discipline)
    ensures AlwaysCurrent(x) <==> x.readersWait && x.writersWait && x.nobodyElse
  {
    var k, v: Dict, w: Dict := Slot("c", "k"), map["x" := Null], map["x" := Bool(true)];
    assert v["x"] != w["x"];
    if !x.writersWait {
      var actions := ReadersWaitingIsNotEnough(k, v, w);
      StaleRefutes(x, actions, OnlyReadersWait, k, v, w);
    } else if !x.readersWait {
      var actions := WritersWaitingIsNotEnough(k, v, w);
      StaleRefutes(x, actions, OnlyWritersWait, k, v, w);
    } else if !x.nobodyElse {
      var actions := CallersWaitingIsNotEnough(k, v, w);
      StaleRefutes(x, actions, OnlyCallersWait, k, v, w);
    } else {
      EnoughDiscipline(x);
    }
  }
}
