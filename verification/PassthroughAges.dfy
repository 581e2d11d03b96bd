/** How old a value taken from the cache can be when a reply is given with it, exactly. */
module PassthroughAges {
  import opened Prelude
  import opened TimeToLive
  import opened ManagedEntries
  import opened KeyValue
  import opened TtlClamps
  import opened PassthroughSpec
  import opened PassthroughInterleaving
  import opened PassthroughSerial
  import opened PassthroughRuns
  import opened PassthroughWitnesses

  /** Task t has replied with a value for k from the cache, at most x after it checked what it
      had found there. For a single read x can be 0. */
  ghost predicate HitReply(s: State, t: TaskId, k: Slot, x: Time) {
    && t in s.tasks && s.tasks[t].goal.Reader? && s.tasks[t].pc.Replied?
    && k in s.tasks[t].pc.found && s.tasks[t].pc.found[k].fromCache
    && s.tasks[t].pc.at <= s.tasks[t].pc.found[k].at + x
  }

  ghost predicate ReplyWithin(s: State, t: TaskId, k: Slot, age: Time)
    requires t in s.tasks && s.tasks[t].pc.Replied? && k in s.tasks[t].pc.found
  {
    RecentlyLive(s.history, k, s.tasks[t].pc.found[k].value, s.tasks[t].pc.at, age)
  }

  /** On every run whose calls take at most d from their first read of the primary to their
      end, every value from the cache that is replied with at most x after the cache was
      checked was live in the primary less than `age` before the reply. */
  ghost predicate AlwaysWithin(c: Clamp, d: Time, x: Time, age: Time) {
    forall start, primary, actions, t, k
      | RunsTimely(c, start, primary, actions, d) && HitReply(After(c, start, primary, actions), t, k, x)
      :: ReplyWithin(After(c, start, primary, actions), t, k, age)
  }

  lemma OlderIsRecent(h: seq<Snapshot>, k: Slot, v: Dict, at: Time, age: Time, more: Time)
    requires RecentlyLive(h, k, v, at, age) && age <= more
    ensures RecentlyLive(h, k, v, at, more)
  {
    var t: Time :| WasLive(h, k, v, t) && t <= at < t + age;
    assert t <= at < t + more;
  }

  lemma WithinTheSum(maximumTtl: Option<real>, missingTtl: Option<real>, d: Time, x: Time, age: Time)
    requires age >= LongestTtl(CacheClamp(maximumTtl, missingTtl)) + d + x
    ensures AlwaysWithin(CacheClamp(maximumTtl, missingTtl), d, x, age)
  {
    var c := CacheClamp(maximumTtl, missingTtl);
    forall start, primary, actions, t, k
      | RunsTimely(c, start, primary, actions, d) && HitReply(After(c, start, primary, actions), t, k, x)
      ensures ReplyWithin(After(c, start, primary, actions), t, k, age)
    {
      ServedValuesAreRecent(maximumTtl, missingTtl, c.maxTtl, c.missingTtl.value, start, primary, actions, d, t, k);
      var s := After(c, start, primary, actions);
      var p := s.tasks[t].pc.found[k];
      var repliedAt := s.tasks[t].pc.at;
      OlderIsRecent(s.history, k, p.value, repliedAt, LongestTtl(c) + d + (repliedAt - p.at), age);
    }
  }

  // ----- A run in which a value gets as old as it can -----

  ghost predicate IsQuick(quick: Allowed, d: Time) {
    forall s, a :: quick(s, a) <==> Quick(s, a, d)
  }

  lemma ReadersFree(quick: Allowed, d: Time, others: map<TaskId, Task>, t: TaskId, goal: Goal)
    requires IsQuick(quick, d)
    ensures Free(quick, others, t, goal) && forall s :: quick(s, Spawn(t, goal))
  {
  }

  lemma MayWait(quick: Allowed, d: Time, s: State, delay: Time)
    requires IsQuick(quick, d) && delay >= 0.0
    requires forall t | t in s.tasks && Unfinished(s.tasks[t]) :: PcTimely(s.tasks[t].pc, s.clock + delay, d)
    ensures quick(s, Tick(delay))
  {
  }

  /** An entry whose copy in the cache lives as long as any can. */
  function LongLived(c: Clamp, v: Dict): Entry
    requires c.missingTtl.Some?
  {
    Entry(v, None, if c.maxTtl > c.missingTtl.value then Some(c.maxTtl) else None)
  }

  lemma LongestCopy(c: Clamp, v: Dict, d: Time)
    requires Positive(c) && v != EMPTY_DICT
    ensures Usable(LongLived(c, v), true, 0.0)
    ensures FillFrom(c, LongLived(c, v), 0.0, d) == Ok(Entry(v, Some(d), Some(d + LongestTtl(c))))
  {
  }

  function Filled(k: Slot, v: Dict, d: Time): Task {
    Task(Reader([k], true), Replied(map[k := Pick(v, 0.0, false)], Some(0.0), d))
  }

  function Asked(c: Clamp, k: Slot, v: Dict): Task
    requires c.missingTtl.Some?
  {
    Task(Reader([k], true), HasAnswer(k, LongLived(c, v), 0.0))
  }

  /** The value is read at time 0 and leaves the primary at once. */
  lemma ReadThenGone(
      c: Clamp, quick: Allowed, p: Property, s0: State, k: Slot, v: Dict, d: Time) returns (s: State)
    requires Positive(c) && v != EMPTY_DICT && IsQuick(quick, d) && Closed(c, quick, p) && p(s0)
    requires s0.clock == 0.0 && s0.tasks == map[] && s0.cache == map[] && s0.primary == map[k := LongLived(c, v)]
    ensures p(s) && s.clock == 0.0 && s.primary == map[] && s.cache == map[] && s.tasks == map[0 := Asked(c, k, v)]
  {
    LongestCopy(c, v, d);
    ReadersFree(quick, d, s0.tasks, 0, Reader([k], true));
    s := ReadFromPrimary(c, quick, p, s0, 0, k, LongLived(c, v));
    s := ChangeOutside(c, quick, p, s, map[]);
  }

  lemma AskedMayWait(quick: Allowed, s: State, k: Slot, e: Entry, d: Time)
    requires IsQuick(quick, d) && d >= 0.0 && s.clock == 0.0
    requires s.tasks == map[0 := Task(Reader([k], true), HasAnswer(k, e, 0.0))]
    ensures quick(s, Tick(d))
  {
    forall t | t in s.tasks ensures PcTimely(s.tasks[t].pc, s.clock + d, d) {
      assert t == 0;
    }
    MayWait(quick, d, s, d);
  }

  lemma FilledAfter(
      c: Clamp, quick: Allowed, p: Property, s1: State, k: Slot, e: Entry, f: Entry, d: Time)
    returns (s: State)
    requires IsQuick(quick, d) && Closed(c, quick, p) && p(s1) && s1.clock == d
    requires 0 in s1.tasks && s1.tasks[0] == Task(Reader([k], true), HasAnswer(k, e, 0.0))
    requires FillFrom(c, e, 0.0, d) == Ok(f)
    ensures p(s) && s.clock == d && s.primary == s1.primary && Continued(s1, s)
    ensures s.cache == s1.cache[k := f]
    ensures s.tasks == s1.tasks[0 := Task(Reader([k], true), Replied(map[k := Pick(e.value, 0.0, false)], Some(0.0), d))]
  {
    ReadersFree(quick, d, s1.tasks, 0, Reader([k], true));
    s := FillAndReply(c, quick, p, s1, 0, k, e, 0.0, f);
  }

  lemma Waited(c: Clamp, quick: Allowed, p: Property, s: State, delay: Time) returns (s': State)
    requires Closed(c, quick, p) && p(s) && quick(s, Tick(delay)) && delay >= 0.0
    ensures p(s') && s'.clock == s.clock + delay && Continued(s, s')
    ensures s'.primary == s.primary && s'.cache == s.cache && s'.tasks == s.tasks
  {
    s' := Wait(c, quick, p, s, delay);
  }

  /** It enters the cache at time d. */
  lemma FilledLate(
      c: Clamp, quick: Allowed, p: Property, s1: State, k: Slot, v: Dict, d: Time)
    returns (s: State)
    requires Positive(c) && d >= 0.0 && v != EMPTY_DICT && IsQuick(quick, d) && Closed(c, quick, p) && p(s1)
    requires s1.clock == 0.0 && s1.primary == map[] && s1.cache == map[] && s1.tasks == map[0 := Asked(c, k, v)]
    ensures p(s) && s.clock == d && s.primary == map[] && Continued(s1, s)
    ensures s.cache == map[k := Entry(v, Some(d), Some(d + LongestTtl(c)))] && s.tasks == map[0 := Filled(k, v, d)]
  {
    LongestCopy(c, v, d);
    AskedMayWait(quick, s1, k, LongLived(c, v), d);
    var s2 := Waited(c, quick, p, s1, d);
    s := FilledAfter(c, quick, p, s2, k, LongLived(c, v), Entry(v, Some(d), Some(d + LongestTtl(c))), d);
    FilledTables(s2, s, k, v, d, LongestTtl(c), Asked(c, k, v));
    ContinuedOn(s1, s2, s);
  }

  lemma FilledTables(s1: State, s: State, k: Slot, v: Dict, d: Time, l: Time, asked: Task)
    requires s1.cache == map[] && s1.tasks == map[0 := asked]
    requires s.cache == s1.cache[k := Entry(v, Some(d), Some(d + l))] && s.tasks == s1.tasks[0 := Filled(k, v, d)]
    ensures s.cache == map[k := Entry(v, Some(d), Some(d + l))] && s.tasks == map[0 := Filled(k, v, d)]
  {
  }

  lemma ContinuedOn(s1: State, s2: State, s3: State)
    requires Continued(s1, s2) && Continued(s2, s3) && s2.primary == s3.primary
    ensures Continued(s1, s3)
  {
    forall i | |s1.history| <= i < |s3.history| ensures s3.history[i].primary == s3.primary {
      if i < |s2.history| {
        assert s3.history[..|s2.history|][i] == s2.history[i];
      }
    }
    assert s3.history[..|s1.history|] == s3.history[..|s2.history|][..|s1.history|];
  }

  // ----- A bulk read that hits one key and asks the primary for the other -----

  function Both(k: Slot, m: Slot): Goal {
    Reader([k, m], false)
  }

  function OneHit(k: Slot, v: Dict, checked: Time): map<Slot, Pick> {
    map[k := Pick(v, checked, true)]
  }

  lemma BulkLooks(c: Clamp, s: State, k: Slot, m: Slot, f: Entry)
    requires k != m && s.cache == map[k := f] && !ExpiredAt(f.expires, s.clock)
    ensures ReaderStep(c, s, [k, m], false, Looking(0, map[]), s.clock) == (Looking(1, map[k := f]), s.cache)
    ensures ReaderStep(c, s, [k, m], false, Looking(1, map[k := f]), s.clock) == (Looking(2, map[k := f]), s.cache)
    ensures ReaderStep(c, s, [k, m], false, Looking(2, map[k := f]), s.clock)
         == (Asking([m], 0, OneHit(k, f.value, s.clock), [], None), s.cache)
  {
    var none: map<Slot, Entry> := map[];
    assert none[k := f] == map[k := f] && map[k := f] - {m} == map[k := f];
    var found := OneHit(k, f.value, s.clock);
    assert Hits(map[k := f], false, s.clock) == found;
    assert [k, m][..1] == [k] && [k][..0] == [];
    assert Missing([k][..0], found) == [];
    assert Missing([k], found) == [];
    assert Missing([k, m], found) == [m];
  }

  lemma BulkAsks(c: Clamp, s: State, k: Slot, m: Slot, found: map<Slot, Pick>)
    requires m !in s.primary
    ensures ReaderStep(c, s, [k, m], false, Asking([m], 0, found, [], None), s.clock)
         == (Asking([m], 1, found, [], Some(s.clock)), s.cache)
    ensures ReaderStep(c, s, [k, m], false, Asking([m], 1, found, [], Some(s.clock)), s.clock)
         == (Preparing(found, [], Some(s.clock)), s.cache)
    ensures ReaderStep(c, s, [k, m], false, Preparing(found, [], Some(s.clock)), s.clock)
         == (Filling([], 0, found, Some(s.clock)), s.cache)
    ensures ReaderStep(c, s, [k, m], false, Filling([], 0, found, Some(s.clock)), s.clock)
         == (Replied(found, Some(s.clock), s.clock), s.cache)
  {
    var none: seq<PrimaryRead> := [];
    assert none + [] == none;
  }

  lemma BulkHit(c: Clamp, quick: Allowed, d: Time, p: Property, s: State, k: Slot, m: Slot, f: Entry) returns (s': State)
    requires IsQuick(quick, d) && Closed(c, quick, p) && p(s) && 1 !in s.tasks
    requires k != m && s.cache == map[k := f] && !ExpiredAt(f.expires, s.clock)
    ensures p(s')
    ensures Came(s, s', 1, Task(Both(k, m), Asking([m], 0, OneHit(k, f.value, s.clock), [], None)), s.cache)
  {
    var g := Both(k, m);
    ReadersFree(quick, d, s.tasks, 1, g);
    s' := StartReading(c, quick, p, s, 1, g);
    BulkLooks(c, s', k, m, f);
    s' := ReadOn(c, quick, p, s, s', 1, g, Looking(0, map[]), Looking(1, map[k := f]), s.cache);
    BulkLooks(c, s', k, m, f);
    s' := ReadOn(c, quick, p, s, s', 1, g, Looking(1, map[k := f]), Looking(2, map[k := f]), s.cache);
    BulkLooks(c, s', k, m, f);
    s' := ReadOn(c, quick, p, s, s', 1, g, Looking(2, map[k := f]),
                 Asking([m], 0, OneHit(k, f.value, s.clock), [], None), s.cache);
  }

  lemma BulkRest(c: Clamp, quick: Allowed, d: Time, p: Property, s: State, k: Slot, m: Slot, found: map<Slot, Pick>)
    returns (s': State)
    requires IsQuick(quick, d) && Closed(c, quick, p) && p(s) && m !in s.primary
    requires 1 in s.tasks && s.tasks[1] == Task(Both(k, m), Asking([m], 0, found, [], None))
    ensures p(s') && Came(s, s', 1, Task(Both(k, m), Replied(found, Some(s.clock), s.clock)), s.cache)
  {
    var g := Both(k, m);
    ReadersFree(quick, d, s.tasks, 1, g);
    SameTask(s, 1, Task(g, Asking([m], 0, found, [], None)));
    BulkAsks(c, s, k, m, found);
    s' := ReadOn(c, quick, p, s, s, 1, g, Asking([m], 0, found, [], None),
                 Asking([m], 1, found, [], Some(s.clock)), s.cache);
    BulkAsks(c, s', k, m, found);
    s' := ReadOn(c, quick, p, s, s', 1, g, Asking([m], 1, found, [], Some(s.clock)),
                 Preparing(found, [], Some(s.clock)), s.cache);
    BulkAsks(c, s', k, m, found);
    s' := ReadOn(c, quick, p, s, s', 1, g, Preparing(found, [], Some(s.clock)),
                 Filling([], 0, found, Some(s.clock)), s.cache);
    BulkAsks(c, s', k, m, found);
    s' := ReadOn(c, quick, p, s, s', 1, g, Filling([], 0, found, Some(s.clock)),
                 Replied(found, Some(s.clock), s.clock), s.cache);
  }

  /** A bulk read finds the copy just before it is gone, then waits x for the primary. */
  lemma ServedLate(
      c: Clamp, quick: Allowed, p: Property, s0: State, k: Slot, m: Slot, v: Dict, d: Time, wait: Time, x: Time)
    returns (s: State)
    requires Positive(c) && d >= 0.0 && x >= 0.0 && 0.0 <= wait < LongestTtl(c) && k != m
    requires IsQuick(quick, d) && Closed(c, quick, p) && p(s0) && s0.clock == d && s0.primary == map[]
    requires s0.cache == map[k := Entry(v, Some(d), Some(d + LongestTtl(c)))] && s0.tasks == map[0 := Filled(k, v, d)]
    ensures p(s) && Continued(s0, s) && s.primary == map[] && s.clock == d + wait + x
    ensures 1 in s.tasks
    ensures s.tasks[1] == Task(Both(k, m), Replied(OneHit(k, v, d + wait), Some(s.clock), s.clock))
  {
    var f := Entry(v, Some(d), Some(d + LongestTtl(c)));
    MayWait(quick, d, s0, wait);
    var s1 := Waited(c, quick, p, s0, wait);
    var s2 := BulkHit(c, quick, d, p, s1, k, m, f);
    ContinuedOn(s0, s1, s2);
    MayWait(quick, d, s2, x);
    var s3 := Waited(c, quick, p, s2, x);
    ContinuedOn(s0, s2, s3);
    s := BulkRest(c, quick, d, p, s3, k, m, OneHit(k, v, d + wait));
    ContinuedOn(s0, s3, s);
  }

  /** Since s1, of time 0, the primary has held nothing: what was live was so at time 0. */
  lemma OldByNow(s1: State, s: State, k: Slot, v: Dict, at: Time, age: Time)
    requires s1.clock == 0.0 && Continued(s1, s) && s.primary == map[] && age <= at
    requires forall i | 0 <= i < |s1.history| :: s1.history[i].time <= s1.clock
    ensures !RecentlyLive(s.history, k, v, at, age)
  {
    forall t: Time | WasLive(s.history, k, v, t) ensures t <= 0.0 {
      var i :| 0 <= i < |s.history| && s.history[i].time == t && GetOne(s.history[i].primary, k, t) == Some(v);
      assert s.history[..|s1.history|][i] == s1.history[i];
    }
  }

  /** Where such a run begins. */
  ghost predicate Start(c: Clamp, s: State, k: Slot, v: Dict)
    requires c.missingTtl.Some?
  {
    s.clock == 0.0 && s.tasks == map[] && s.cache == map[] && s.primary == map[k := LongLived(c, v)]
  }

  lemma OldReply(
      c: Clamp, quick: Allowed, p: Property, s0: State, k: Slot, m: Slot, v: Dict, d: Time, wait: Time, x: Time, age: Time)
    returns (s: State)
    requires Positive(c) && d >= 0.0 && x >= 0.0 && 0.0 <= wait < LongestTtl(c) && k != m && v != EMPTY_DICT
    requires IsQuick(quick, d) && Closed(c, quick, p) && Dated(p) && p(s0) && Start(c, s0, k, v)
    requires age <= d + wait + x
    ensures p(s) && HitReply(s, 1, k, x) && !ReplyWithin(s, 1, k, age)
  {
    var s1 := ReadThenGone(c, quick, p, s0, k, v, d);
    var s2 := FilledLate(c, quick, p, s1, k, v, d);
    s := ServedLate(c, quick, p, s2, k, m, v, d, wait, x);
    ContinuedOn(s1, s2, s);
    assert k in OneHit(k, v, d + wait);
    OldByNow(s1, s, k, v, s.clock, age);
  }

  lemma QuickIsDated(c: Clamp, primary: Table<Slot>, quick: Allowed, d: Time)
    requires d >= 0.0 && IsQuick(quick, d)
    ensures Dated(s => ReachedBy(c, primary, quick, s))
  {
    forall s | ReachedBy(c, primary, quick, s) ensures forall i | 0 <= i < |s.history| :: s.history[i].time <= s.clock {
      var actions :| s == After(c, 0.0, primary, actions) && RunAllowed(c, 0.0, primary, actions, quick);
      QuickRunsInTime(c, primary, actions, quick, d, |actions|);
      assert actions[..|actions|] == actions;
    }
  }

  /** For every lesser age there is a run with an older reply. */
  lemma OlderRun(c: Clamp, d: Time, x: Time, age: Time) returns (actions: seq<Action>, primary: Table<Slot>, k: Slot)
    requires Positive(c) && d >= 0.0 && x >= 0.0 && age < LongestTtl(c) + d + x
    ensures RunsTimely(c, 0.0, primary, actions, d)
    ensures HitReply(After(c, 0.0, primary, actions), 1, k, x) && !ReplyWithin(After(c, 0.0, primary, actions), 1, k, age)
  {
    var v: Dict := map["x" := Null];
    assert "x" in v;
    k := Slot("c", "k");
    primary := map[k := LongLived(c, v)];
    var quick: Allowed := (s, a) => Quick(s, a, d);
    ReachedIsClosed(c, primary, quick);
    QuickIsDated(c, primary, quick, d);
    assert RunAllowed(c, 0.0, primary, [], quick);
    assert ReachedBy(c, primary, quick, After(c, 0.0, primary, []));
    var spare := Min(LongestTtl(c) + d + x - age, LongestTtl(c)) / 2.0;
    var s := OldReply(c, quick, s => ReachedBy(c, primary, quick, s), After(c, 0.0, primary, []), k, Slot("c", "m"), v, d,
                      LongestTtl(c) - spare, x, age);
    actions :| s == After(c, 0.0, primary, actions) && RunAllowed(c, 0.0, primary, actions, quick);
    QuickRunsAreTimely(c, primary, actions, quick, d);
  }

  /** The age at the reply of a value from the cache is bounded by L + d + x and by nothing
      less: L is the larger of maximum_ttl, m, and missing_ttl, n, d bounds the time from a call's
      first read of the primary to its end, and x the time from a call's check of what it found
      in the cache to its reply. So L + d is a bound exactly when x is 0: for single reads, and
      for bulk reads that reply at the instant they check. */
  lemma AlwaysWithinIff(
      maximumTtl: Option<real>, missingTtl: Option<real>, m: real, n: real, d: Time, x: Time, age: Time)
    requires LimitsNotNegative(maximumTtl, missingTtl) && IsLimit(maximumTtl, m) && IsLimit(missingTtl, n)
    requires d >= 0.0 && x >= 0.0
    ensures AlwaysWithin(CacheClamp(maximumTtl, missingTtl), d, x, age) <==> age >= (if m < n then n else m) + d + x
  {
    var c := CacheClamp(maximumTtl, missingTtl);
    PositiveUnlessNegative(maximumTtl, missingTtl);
    ClampInNumbers(maximumTtl, missingTtl, m, n);
    if age >= LongestTtl(c) + d + x {
      WithinTheSum(maximumTtl, missingTtl, d, x, age);
    } else {
      var actions, primary, k := OlderRun(c, d, x, age);
      assert !ReplyWithin(After(c, 0.0, primary, actions), 1, k, age);
    }
  }
}
