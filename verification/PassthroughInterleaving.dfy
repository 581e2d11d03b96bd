/** The two-tier store under any interleaving of any number of tasks, each suspended at every
    await. The stores may meanwhile be changed from outside and the cache may lose entries;
    the claim is how old a served value can be. */
module PassthroughInterleaving {
  import opened Prelude
  import opened TimeToLive
  import opened ManagedEntries
  import opened KeyValue
  import opened TtlClamps
  import opened PassthroughSpec

  type TaskId = nat

  /** A value a reader has got hold of: when, and from which tier. */
  datatype Pick = Pick(value: Dict, at: Time, fromCache: bool)

  /** An entry read from the primary, and when. Whether it has expired is found out later. */
  datatype PrimaryRead = PrimaryRead(slot: Slot, entry: Entry, at: Time)

  /** What a task has been asked to do. `single` is get or ttl, for one key; otherwise it is
      get_many or ttl_many. */
  datatype Goal =
    | Reader(keys: seq<Slot>, single: bool)
    | Putter(keys: seq<Slot>, entries: seq<Entry>)
    | Deleter(keys: seq<Slot>)

  datatype Pc =
    | Looking(i: nat, seen: map<Slot, Entry>)                     // cache get, key by key
    | Asking(missing: seq<Slot>, i: nat, found: map<Slot, Pick>,
              readings: seq<PrimaryRead>, since: Option<Time>)         // primary ttl, key by key
    | Preparing(found: map<Slot, Pick>, answers: seq<PrimaryRead>,
                since: Option<Time>)                                // cache put, entries not built yet
    | Filling(entries: seq<(Slot, Entry)>, i: nat,
              found: map<Slot, Pick>, since: Option<Time>)        // cache put, key by key
    | Replied(found: map<Slot, Pick>, since: Option<Time>, at: Time)
    | FillRaised
    | Dropping(i: nat)                                            // cache delete, key by key
    | Writing(i: nat)                                             // primary put or delete, key by key
    | Written

  datatype Task = Task(goal: Goal, pc: Pc)

  /** The primary as it was at some time. */
  datatype Snapshot = Snapshot(time: Time, primary: Table<Slot>)

  datatype State = State(
    clock: Time,
    primary: Table<Slot>,
    cache: Table<Slot>,
    tasks: map<TaskId, Task>,
    history: seq<Snapshot>)

  // ----- Steps -----

  /** Has not expired; and a single read takes the empty dict for a missing value. */
  predicate Usable(e: Entry, single: bool, now: Time) {
    !ExpiredAt(e.expires, now) && (single ==> e.value != EMPTY_DICT)
  }

  /** What the cache answers: their expiry is checked once the last one has been read. */
  function Hits(seen: map<Slot, Entry>, single: bool, now: Time): map<Slot, Pick> {
    map k | k in seen && Usable(seen[k], single, now) :: Pick(seen[k].value, now, true)
  }

  /** What the primary answers, likewise. */
  function Answers(readings: seq<PrimaryRead>, single: bool, now: Time): seq<PrimaryRead> {
    if readings == [] then []
    else
      var n := |readings| - 1;
      Answers(readings[..n], single, now) + if Usable(readings[n].entry, single, now) then [readings[n]] else []
  }

  function Picks(found: map<Slot, Pick>, answers: seq<PrimaryRead>): map<Slot, Pick> {
    if answers == [] then found
    else
      var n := |answers| - 1;
      Picks(found, answers[..n])[answers[n].slot := Pick(answers[n].entry.value, answers[n].at, false)]
  }

  /** The keys without an answer, each once. */
  function Missing(keys: seq<Slot>, found: map<Slot, Pick>): seq<Slot> {
    if keys == [] then []
    else
      var n := |keys| - 1;
      var before := Missing(keys[..n], found);
      if keys[n] in found || keys[n] in before then before else before + [keys[n]]
  }

  /** The entries a reader is about to put into the cache, their expiry counted from `now`. */
  function Prepare(c: Clamp, answers: seq<PrimaryRead>, now: Time): Result<seq<(Slot, Entry)>> {
    if answers == [] then Ok([])
    else
      var n := |answers| - 1;
      match Prepare(c, answers[..n], now)
      case Err(e) => Err(e)
      case Ok(before) =>
        match FillFrom(c, answers[n].entry, answers[n].at, now)
        case Err(e) => Err(e)
        case Ok(entry) => Ok(before + [(answers[n].slot, entry)])
  }

  /** One step of a reader, which ends at time `later`. */
  function ReaderStep(c: Clamp, s: State, keys: seq<Slot>, single: bool, pc: Pc, later: Time): (Pc, Table<Slot>) {
    match pc
    case Looking(i, seen) =>
      if i < |keys| then
        (Looking(i + 1, if keys[i] in s.cache then seen[keys[i] := s.cache[keys[i]]] else seen - {keys[i]}), s.cache)
      else
        var found := Hits(seen, single, later);
        (if single && found != map[] then Replied(found, None, later)
         else Asking(Missing(keys, found), 0, found, [], None), s.cache)
    case Asking(missing, i, found, readings, since) =>
      if i < |missing| then
        var more := if missing[i] in s.primary then [PrimaryRead(missing[i], s.primary[missing[i]], later)] else [];
        (Asking(missing, i + 1, found, readings + more, if since.None? then Some(s.clock) else since), s.cache)
      else
        var answers := Answers(readings, single, later);
        (Preparing(Picks(found, answers), answers, since), s.cache)
    case Preparing(found, answers, since) =>
      (match Prepare(c, answers, later)
       case Err(_) => (FillRaised, s.cache)
       case Ok(entries) => (Filling(entries, 0, found, since), s.cache))
    case Filling(entries, i, found, since) =>
      if i < |entries| then (Filling(entries, i + 1, found, since), s.cache[entries[i].0 := entries[i].1])
      else (Replied(found, since, later), s.cache)
    case _ => (pc, s.cache)
  }

  /** One step of a writer: it drops its keys from the cache, then writes the primary. */
  function WriterStep(s: State, goal: Goal, pc: Pc): (Pc, Table<Slot>, Table<Slot>)
    requires !goal.Reader?
  {
    match pc
    case Dropping(i) =>
      if i < |goal.keys| then (Dropping(i + 1), s.primary, s.cache - {goal.keys[i]})
      else (Writing(0), s.primary, s.cache)
    case Writing(i) =>
      if goal.Deleter? && i < |goal.keys| then (Writing(i + 1), s.primary - {goal.keys[i]}, s.cache)
      else if goal.Putter? && i < |goal.keys| && i < |goal.entries| then
        (Writing(i + 1), s.primary[goal.keys[i] := goal.entries[i]], s.cache)
      else (Written, s.primary, s.cache)
    case _ => (pc, s.primary, s.cache)
  }

  datatype Action =
    | Spawn(t: TaskId, goal: Goal)
    | Run(t: TaskId, drift: Time)          // one step of task t, taking `drift`
    | Tick(drift: Time)                    // time passes
    | Evict(slots: set<Slot>)              // the cache loses entries
    | Outside(primary: Table<Slot>)        // somebody else changes the primary

  function Elapsed(a: Action): Time {
    if (a.Run? || a.Tick?) && a.drift > 0.0 then a.drift else 0.0
  }

  function RunTask(c: Clamp, s: State, t: TaskId, later: Time): State
    requires t in s.tasks
  {
    var k := s.tasks[t];
    if k.goal.Reader? then
      var (pc, cache) := ReaderStep(c, s, k.goal.keys, k.goal.single, k.pc, later);
      s.(cache := cache, tasks := s.tasks[t := k.(pc := pc)])
    else
      var (pc, primary, cache) := WriterStep(s, k.goal, k.pc);
      s.(primary := primary, cache := cache, tasks := s.tasks[t := k.(pc := pc)])
  }

  /** The change an action makes, before the clock and the history are brought up to date. */
  function Change(c: Clamp, s: State, a: Action): State {
    var later := s.clock + Elapsed(a);
    match a
    case Spawn(t, goal) =>
      if t in s.tasks then s
      else s.(tasks := s.tasks[t := Task(goal, if goal.Reader? then Looking(0, map[]) else Dropping(0))])
    case Run(t, _) => if t in s.tasks then RunTask(c, s, t, later) else s
    case Tick(_) => s
    case Evict(slots) => s.(cache := s.cache - slots)
    case Outside(primary) => s.(primary := primary)
  }

  /** The primary is recorded as it was when the step's reads were checked, and as it is left. */
  function Next(c: Clamp, s: State, a: Action): State {
    var later := s.clock + Elapsed(a);
    var s' := Change(c, s, a);
    s'.(clock := later, history := s.history + [Snapshot(later, s.primary), Snapshot(later, s'.primary)])
  }

  /** The state after the actions, from an empty cache. */
  function After(c: Clamp, start: Time, primary: Table<Slot>, actions: seq<Action>): State {
    if actions == [] then State(start, primary, map[], map[], [Snapshot(start, primary)])
    else Next(c, After(c, start, primary, actions[..|actions| - 1]), actions[|actions| - 1])
  }

  // ----- Where served values come from -----

  /** The primary, as recorded, had v live under k at time t. */
  ghost predicate WasLive(h: seq<Snapshot>, k: Slot, v: Dict, t: Time) {
    exists i | 0 <= i < |h| :: h[i].time == t && GetOne(h[i].primary, k, t) == Some(v)
  }

  /** v was live under k at some time no later than `at` and less than `age` before it. */
  ghost predicate RecentlyLive(h: seq<Snapshot>, k: Slot, v: Dict, at: Time, age: Time) {
    exists t: Time :: WasLive(h, k, v, t) && t <= at < t + age
  }

  ghost predicate PickOk(h: seq<Snapshot>, k: Slot, p: Pick, age: Time) {
    if p.fromCache then RecentlyLive(h, k, p.value, p.at, age) else WasLive(h, k, p.value, p.at)
  }

  /** The entry copies a value that was live by `now`, and is gone `age` after that. */
  ghost predicate EntryOk(h: seq<Snapshot>, k: Slot, e: Entry, now: Time, age: Time) {
    e.expires.Some? && exists t: Time :: WasLive(h, k, e.value, t) && t <= now && e.expires.value <= t + age
  }

  ghost predicate PicksOk(
      h: seq<Snapshot>, found: map<Slot, Pick>, single: bool, since: Option<Time>, now: Time, age: Time)
  {
    forall k | k in found ::
      && PickOk(h, k, found[k], age)
      && (found[k].fromCache ==> !single)
      && found[k].at <= now
      && (!found[k].fromCache ==> since.Some? && since.value <= found[k].at)
  }

  ghost predicate SeenOk(h: seq<Snapshot>, seen: map<Slot, Entry>, now: Time, age: Time) {
    forall k | k in seen :: EntryOk(h, k, seen[k], now, age)
  }

  ghost predicate WasStored(h: seq<Snapshot>, r: PrimaryRead) {
    exists i | 0 <= i < |h| :: h[i].time == r.at && r.slot in h[i].primary && h[i].primary[r.slot] == r.entry
  }

  predicate ReadBetween(r: PrimaryRead, since: Option<Time>, now: Time) {
    since.Some? && since.value <= r.at <= now
  }

  ghost predicate ReadsOk(h: seq<Snapshot>, readings: seq<PrimaryRead>, since: Option<Time>, now: Time) {
    forall j | 0 <= j < |readings| :: WasStored(h, readings[j]) && ReadBetween(readings[j], since, now)
  }

  ghost predicate AnswersOk(h: seq<Snapshot>, answers: seq<PrimaryRead>, since: Option<Time>, now: Time) {
    forall j | 0 <= j < |answers| ::
      && WasLive(h, answers[j].slot, answers[j].entry.value, answers[j].at)
      && ReadBetween(answers[j], since, now)
  }

  ghost predicate EntriesOk(h: seq<Snapshot>, entries: seq<(Slot, Entry)>, now: Time, age: Time) {
    forall j | 0 <= j < |entries| :: EntryOk(h, entries[j].0, entries[j].1, now, age)
  }

  ghost predicate RepliedOk(
      h: seq<Snapshot>, found: map<Slot, Pick>, single: bool, since: Option<Time>, at: Time, age: Time)
  {
    forall k | k in found ::
      && PickOk(h, k, found[k], age)
      && found[k].at <= at
      && (found[k].fromCache && single ==> found[k].at == at)
      && (!found[k].fromCache ==> since.Some? && since.value <= found[k].at)
  }

  ghost predicate PcOk(h: seq<Snapshot>, now: Time, single: bool, pc: Pc, age: Time) {
    match pc
    case Looking(_, seen) => SeenOk(h, seen, now, age)
    case Asking(_, _, found, readings, since) =>
      && PicksOk(h, found, single, since, now, age)
      && (since.Some? ==> since.value <= now)
      && ReadsOk(h, readings, since, now)
    case Preparing(found, answers, since) =>
      PicksOk(h, found, single, since, now, age) && AnswersOk(h, answers, since, now)
    case Filling(entries, _, found, since) =>
      PicksOk(h, found, single, since, now, age) && EntriesOk(h, entries, now, age)
    case Replied(found, since, at) => at <= now && RepliedOk(h, found, single, since, at, age)
    case _ => true
  }

  ghost predicate CacheOk(s: State, age: Time) {
    forall k | k in s.cache :: EntryOk(s.history, k, s.cache[k], s.clock, age)
  }

  /** A reader's program counter is acceptable; of writers nothing is asked. */
  ghost predicate ReaderOk(s: State, t: TaskId, age: Time) {
    t in s.tasks && s.tasks[t].goal.Reader? ==>
      PcOk(s.history, s.clock, s.tasks[t].goal.single, s.tasks[t].pc, age)
  }

  ghost predicate Inv(s: State, age: Time) {
    CacheOk(s, age) && forall t :: ReaderOk(s, t, age)
  }

  /** No call has taken longer than d since it first read the primary. */
  predicate PcTimely(pc: Pc, now: Time, d: Time) {
    match pc
    case Asking(_, _, _, _, since) => since.Some? ==> now <= since.value + d
    case Preparing(_, _, since) => since.Some? ==> now <= since.value + d
    case Filling(_, _, _, since) => since.Some? ==> now <= since.value + d
    case Replied(_, since, at) => since.Some? ==> at <= since.value + d
    case _ => true
  }

  ghost predicate Timely(s: State, d: Time) {
    forall t | t in s.tasks :: PcTimely(s.tasks[t].pc, s.clock, d)
  }

  /** The larger of maximum_ttl and missing_ttl. */
  function LongestTtl(c: Clamp): Time
    requires c.missingTtl.Some?
  {
    Max(c.maxTtl, c.missingTtl.value)
  }

  // ----- Later states know no less -----

  lemma StillWasLive(h: seq<Snapshot>, more: seq<Snapshot>, k: Slot, v: Dict, t: Time)
    requires WasLive(h, k, v, t)
    ensures WasLive(h + more, k, v, t)
  {
    var i :| 0 <= i < |h| && h[i].time == t && GetOne(h[i].primary, k, t) == Some(v);
    assert (h + more)[i] == h[i];
  }

  lemma StillPickOk(h: seq<Snapshot>, more: seq<Snapshot>, k: Slot, p: Pick, age: Time)
    requires PickOk(h, k, p, age)
    ensures PickOk(h + more, k, p, age)
  {
    if p.fromCache {
      var t: Time :| WasLive(h, k, p.value, t) && t <= p.at < t + age;
      StillWasLive(h, more, k, p.value, t);
    } else {
      StillWasLive(h, more, k, p.value, p.at);
    }
  }

  lemma StillEntryOk(h: seq<Snapshot>, more: seq<Snapshot>, k: Slot, e: Entry, now: Time, later: Time, age: Time)
    requires EntryOk(h, k, e, now, age) && now <= later
    ensures EntryOk(h + more, k, e, later, age)
  {
    var t: Time :| WasLive(h, k, e.value, t) && t <= now && e.expires.value <= t + age;
    StillWasLive(h, more, k, e.value, t);
  }

  lemma StillPicksOk(
      h: seq<Snapshot>, more: seq<Snapshot>, found: map<Slot, Pick>, single: bool, since: Option<Time>,
      now: Time, later: Time, age: Time)
    requires PicksOk(h, found, single, since, now, age) && now <= later
    ensures PicksOk(h + more, found, single, since, later, age)
  {
    forall k | k in found ensures PickOk(h + more, k, found[k], age) {
      StillPickOk(h, more, k, found[k], age);
    }
  }

  lemma StillSeenOk(h: seq<Snapshot>, more: seq<Snapshot>, seen: map<Slot, Entry>, now: Time, later: Time, age: Time)
    requires SeenOk(h, seen, now, age) && now <= later
    ensures SeenOk(h + more, seen, later, age)
  {
    forall k | k in seen ensures EntryOk(h + more, k, seen[k], later, age) {
      StillEntryOk(h, more, k, seen[k], now, later, age);
    }
  }

  lemma StillReadsOk(
      h: seq<Snapshot>, more: seq<Snapshot>, readings: seq<PrimaryRead>, since: Option<Time>, now: Time, later: Time)
    requires ReadsOk(h, readings, since, now) && now <= later
    ensures ReadsOk(h + more, readings, since, later)
  {
    forall j | 0 <= j < |readings| ensures WasStored(h + more, readings[j]) && ReadBetween(readings[j], since, later) {
      StillWasStored(h, more, readings[j]);
    }
  }

  lemma StillWasStored(h: seq<Snapshot>, more: seq<Snapshot>, r: PrimaryRead)
    requires WasStored(h, r)
    ensures WasStored(h + more, r)
  {
    var i :| 0 <= i < |h| && h[i].time == r.at && r.slot in h[i].primary && h[i].primary[r.slot] == r.entry;
    assert (h + more)[i] == h[i];
  }

  lemma StillAnswersOk(
      h: seq<Snapshot>, more: seq<Snapshot>, answers: seq<PrimaryRead>, since: Option<Time>, now: Time, later: Time)
    requires AnswersOk(h, answers, since, now) && now <= later
    ensures AnswersOk(h + more, answers, since, later)
  {
    forall j | 0 <= j < |answers|
      ensures WasLive(h + more, answers[j].slot, answers[j].entry.value, answers[j].at)
    {
      StillWasLive(h, more, answers[j].slot, answers[j].entry.value, answers[j].at);
    }
  }

  lemma StillEntriesOk(
      h: seq<Snapshot>, more: seq<Snapshot>, entries: seq<(Slot, Entry)>, now: Time, later: Time, age: Time)
    requires EntriesOk(h, entries, now, age) && now <= later
    ensures EntriesOk(h + more, entries, later, age)
  {
    forall j | 0 <= j < |entries| ensures EntryOk(h + more, entries[j].0, entries[j].1, later, age) {
      StillEntryOk(h, more, entries[j].0, entries[j].1, now, later, age);
    }
  }

  lemma StillRepliedOk(
      h: seq<Snapshot>, more: seq<Snapshot>, found: map<Slot, Pick>, single: bool, since: Option<Time>,
      at: Time, age: Time)
    requires RepliedOk(h, found, single, since, at, age)
    ensures RepliedOk(h + more, found, single, since, at, age)
  {
    forall k | k in found ensures PickOk(h + more, k, found[k], age) {
      StillPickOk(h, more, k, found[k], age);
    }
  }

  lemma StillPcOk(h: seq<Snapshot>, more: seq<Snapshot>, now: Time, later: Time, single: bool, pc: Pc, age: Time)
    requires PcOk(h, now, single, pc, age) && now <= later
    ensures PcOk(h + more, later, single, pc, age)
  {
    match pc
    case Looking(_, seen) => StillSeenOk(h, more, seen, now, later, age);
    case Asking(_, _, found, readings, since) =>
      StillPicksOk(h, more, found, single, since, now, later, age);
      StillReadsOk(h, more, readings, since, now, later);
    case Preparing(found, answers, since) =>
      StillPicksOk(h, more, found, single, since, now, later, age);
      StillAnswersOk(h, more, answers, since, now, later);
    case Filling(entries, _, found, since) =>
      StillPicksOk(h, more, found, single, since, now, later, age);
      StillEntriesOk(h, more, entries, now, later, age);
    case Replied(found, since, at) => StillRepliedOk(h, more, found, single, since, at, age);
    case _ =>
  }

  // ----- A reader's own step -----

  /** A live cached entry may be served: it was live in the primary less than `age` ago. */
  lemma HitIsRecent(h: seq<Snapshot>, k: Slot, e: Entry, now: Time, later: Time, age: Time)
    requires EntryOk(h, k, e, now, age) && now <= later && !ExpiredAt(e.expires, later)
    ensures RecentlyLive(h, k, e.value, later, age)
  {
    var t: Time :| WasLive(h, k, e.value, t) && t <= now && e.expires.value <= t + age;
    assert t <= later < t + age;
  }

  /** What counts as found in the cache was live recently enough. */
  lemma HitsAreRecent(h: seq<Snapshot>, seen: map<Slot, Entry>, single: bool, now: Time, later: Time, age: Time)
    requires SeenOk(h, seen, now, age) && now <= later
    ensures forall k | k in Hits(seen, single, later) :: PickOk(h, k, Hits(seen, single, later)[k], age)
  {
    forall k | k in Hits(seen, single, later) ensures PickOk(h, k, Hits(seen, single, later)[k], age) {
      HitIsRecent(h, k, seen[k], now, later, age);
    }
  }

  /** An entry that has not expired when it is checked was live when it was read. */
  lemma StoredWasLive(h: seq<Snapshot>, r: PrimaryRead, later: Time)
    requires WasStored(h, r) && r.at <= later && !ExpiredAt(r.entry.expires, later)
    ensures WasLive(h, r.slot, r.entry.value, r.at)
  {
    var i :| 0 <= i < |h| && h[i].time == r.at && r.slot in h[i].primary && h[i].primary[r.slot] == r.entry;
    assert GetOne(h[i].primary, r.slot, r.at) == Some(r.entry.value);
  }

  lemma {:induction false} AnswersWereLive(
      h: seq<Snapshot>, readings: seq<PrimaryRead>, single: bool, since: Option<Time>, later: Time)
    requires ReadsOk(h, readings, since, later)
    ensures AnswersOk(h, Answers(readings, single, later), since, later)
  {
    if readings != [] {
      var n := |readings| - 1;
      AnswersWereLive(h, readings[..n], single, since, later);
      if Usable(readings[n].entry, single, later) {
        StoredWasLive(h, readings[n], later);
      }
    }
  }

  lemma {:induction false} PicksOfAnswers(
      h: seq<Snapshot>, found: map<Slot, Pick>, answers: seq<PrimaryRead>, single: bool, since: Option<Time>,
      later: Time, age: Time)
    requires PicksOk(h, found, single, since, later, age) && AnswersOk(h, answers, since, later)
    ensures PicksOk(h, Picks(found, answers), single, since, later, age)
  {
    if answers != [] {
      var n := |answers| - 1;
      PicksOfAnswers(h, found, answers[..n], single, since, later, age);
      assert WasLive(h, answers[n].slot, answers[n].entry.value, answers[n].at);
    }
  }

  lemma AppendedEntriesOk(
      h: seq<Snapshot>, entries: seq<(Slot, Entry)>, k: Slot, e: Entry, now: Time, age: Time)
    requires EntriesOk(h, entries, now, age) && EntryOk(h, k, e, now, age)
    ensures EntriesOk(h, entries + [(k, e)], now, age)
  {
  }

  /** The cache is filled with entries that are gone soon enough: the expiry counts from the
      fill, at most d after the read, and lasts at most the longest TTL. */
  lemma FillIsOk(
      c: Clamp, h: seq<Snapshot>, r: PrimaryRead, since: Option<Time>, now: Time, d: Time)
    requires c.minTtl == 0.0 && c.missingTtl.Some?
    requires WasLive(h, r.slot, r.entry.value, r.at) && ReadBetween(r, since, now) && now <= since.value + d
    requires FillFrom(c, r.entry, r.at, now).Ok?
    ensures EntryOk(h, r.slot, FillFrom(c, r.entry, r.at, now).value, now, LongestTtl(c) + d)
  {
    var e := FillFrom(c, r.entry, r.at, now).value;
    assert WasLive(h, r.slot, e.value, r.at) && e.expires.value <= r.at + (LongestTtl(c) + d);
  }

  lemma {:induction false} PreparedAreOk(
      c: Clamp, h: seq<Snapshot>, answers: seq<PrimaryRead>, since: Option<Time>, now: Time, d: Time)
    requires c.minTtl == 0.0 && c.missingTtl.Some? && Prepare(c, answers, now).Ok?
    requires since.Some? ==> now <= since.value + d
    requires AnswersOk(h, answers, since, now)
    ensures EntriesOk(h, Prepare(c, answers, now).value, now, LongestTtl(c) + d)
  {
    if answers != [] {
      var n := |answers| - 1;
      PreparedAreOk(c, h, answers[..n], since, now, d);
      var r := answers[n];
      FillIsOk(c, h, r, since, now, d);
      AppendedEntriesOk(h, Prepare(c, answers[..n], now).value, r.slot, FillFrom(c, r.entry, r.at, now).value,
                        now, LongestTtl(c) + d);
    }
  }

  /** What an action adds to the history, and that it records what the step read. */
  function Recorded(c: Clamp, s: State, a: Action): seq<Snapshot> {
    var later := s.clock + Elapsed(a);
    [Snapshot(later, s.primary), Snapshot(later, Change(c, s, a).primary)]
  }

  lemma ReadIsRecorded(h: seq<Snapshot>, primary: Table<Slot>, k: Slot, later: Time, after: Snapshot)
    requires k in primary
    ensures WasStored(h + [Snapshot(later, primary), after], PrimaryRead(k, primary[k], later))
  {
    assert (h + [Snapshot(later, primary), after])[|h|] == Snapshot(later, primary);
  }

  /** Looking a key up in the cache, or checking what was looked up. */
  lemma LookStepOk(
      c: Clamp, s: State, keys: seq<Slot>, single: bool, pc: Pc, later: Time, age: Time)
    requires CacheOk(s, age) && s.clock <= later
    requires pc.Looking? && PcOk(s.history, s.clock, single, pc, age)
    ensures PcOk(s.history, later, single, ReaderStep(c, s, keys, single, pc, later).0, age)
  {
    if pc.i < |keys| {
      LookStillOk(s, pc.seen, keys[pc.i], later, age);
    } else {
      HitsAreRecent(s.history, pc.seen, single, s.clock, later, age);
    }
  }

  lemma LookStillOk(s: State, seen: map<Slot, Entry>, k: Slot, later: Time, age: Time)
    requires CacheOk(s, age) && s.clock <= later && SeenOk(s.history, seen, s.clock, age)
    ensures SeenOk(s.history, if k in s.cache then seen[k := s.cache[k]] else seen - {k}, later, age)
  {
    var seen' := if k in s.cache then seen[k := s.cache[k]] else seen - {k};
    assert SeenOk(s.history, seen', s.clock, age);
    StillSeenOk(s.history, [], seen', s.clock, later, age);
    assert s.history + [] == s.history;
  }

  /** Noting the time of the first read invalidates nothing: without one there are no reads. */
  lemma SinceFirstRead(
      h: seq<Snapshot>, found: map<Slot, Pick>, readings: seq<PrimaryRead>, single: bool, since: Option<Time>,
      first: Time, now: Time, age: Time)
    requires PicksOk(h, found, single, since, now, age) && ReadsOk(h, readings, since, now)
    ensures
      var since' := if since.None? then Some(first) else since;
      PicksOk(h, found, single, since', now, age) && ReadsOk(h, readings, since', now)
  {
    forall j | 0 <= j < |readings|
      ensures WasStored(h, readings[j]) && ReadBetween(readings[j], if since.None? then Some(first) else since, now)
    {
      assert ReadBetween(readings[j], since, now);
    }
  }

  lemma AppendedReadsOk(h: seq<Snapshot>, readings: seq<PrimaryRead>, r: PrimaryRead, since: Option<Time>, now: Time)
    requires ReadsOk(h, readings, since, now) && WasStored(h, r) && ReadBetween(r, since, now)
    ensures ReadsOk(h, readings + [r], since, now)
  {
  }

  /** Asking the primary for a key; the answer is recorded in the history. */
  lemma AskStepOk(
      c: Clamp, s: State, keys: seq<Slot>, single: bool, pc: Pc, later: Time, after: Snapshot, age: Time)
    requires s.clock <= later
    requires pc.Asking? && pc.i < |pc.missing| && PcOk(s.history, s.clock, single, pc, age)
    ensures PcOk(s.history + [Snapshot(later, s.primary), after], later, single,
                 ReaderStep(c, s, keys, single, pc, later).0, age)
  {
    var h := s.history + [Snapshot(later, s.primary), after];
    StillPicksOk(s.history, [Snapshot(later, s.primary), after], pc.found, single, pc.since, s.clock, later, age);
    StillReadsOk(s.history, [Snapshot(later, s.primary), after], pc.readings, pc.since, s.clock, later);
    SinceFirstRead(h, pc.found, pc.readings, single, pc.since, s.clock, later, age);
    var k := pc.missing[pc.i];
    if k in s.primary {
      ReadIsRecorded(s.history, s.primary, k, later, after);
      AppendedReadsOk(h, pc.readings, PrimaryRead(k, s.primary[k], later),
                      if pc.since.None? then Some(s.clock) else pc.since, later);
    } else {
      assert pc.readings + [] == pc.readings;
    }
  }

  /** Checking what was read from the primary. */
  lemma CheckStepOk(c: Clamp, s: State, keys: seq<Slot>, single: bool, pc: Pc, later: Time, age: Time)
    requires s.clock <= later
    requires pc.Asking? && pc.i >= |pc.missing| && PcOk(s.history, s.clock, single, pc, age)
    ensures PcOk(s.history, later, single, ReaderStep(c, s, keys, single, pc, later).0, age)
  {
    StillPcOk(s.history, [], s.clock, later, single, pc, age);
    assert s.history + [] == s.history;
    AnswersWereLive(s.history, pc.readings, single, pc.since, later);
    PicksOfAnswers(s.history, pc.found, Answers(pc.readings, single, later), single, pc.since, later, age);
  }

  /** Preparing the fill, in time. */
  lemma PrepareStepOk(
      c: Clamp, s: State, keys: seq<Slot>, single: bool, pc: Pc, later: Time, d: Time)
    requires s.clock <= later && c.minTtl == 0.0 && c.missingTtl.Some?
    requires pc.Preparing? && PcOk(s.history, s.clock, single, pc, LongestTtl(c) + d)
    requires PcTimely(ReaderStep(c, s, keys, single, pc, later).0, later, d)
    ensures PcOk(s.history, later, single, ReaderStep(c, s, keys, single, pc, later).0, LongestTtl(c) + d)
  {
    StillPcOk(s.history, [], s.clock, later, single, pc, LongestTtl(c) + d);
    assert s.history + [] == s.history;
    if Prepare(c, pc.answers, later).Ok? {
      PreparedAreOk(c, s.history, pc.answers, pc.since, later, d);
    }
  }

  /** Filling the cache, or replying once it is filled. */
  lemma FillStepOk(c: Clamp, s: State, keys: seq<Slot>, single: bool, pc: Pc, later: Time, age: Time)
    requires s.clock <= later
    requires pc.Filling? && PcOk(s.history, s.clock, single, pc, age)
    ensures PcOk(s.history, later, single, ReaderStep(c, s, keys, single, pc, later).0, age)
  {
    StillPcOk(s.history, [], s.clock, later, single, pc, age);
    assert s.history + [] == s.history;
  }

  /** A step that does not read the primary needs nothing recorded. */
  lemma QuietStepOk(c: Clamp, s: State, keys: seq<Slot>, single: bool, pc: Pc, later: Time, d: Time)
    requires s.clock <= later && c.minTtl == 0.0 && c.missingTtl.Some?
    requires CacheOk(s, LongestTtl(c) + d) && PcOk(s.history, s.clock, single, pc, LongestTtl(c) + d)
    requires PcTimely(ReaderStep(c, s, keys, single, pc, later).0, later, d)
    requires !(pc.Asking? && pc.i < |pc.missing|)
    ensures PcOk(s.history, later, single, ReaderStep(c, s, keys, single, pc, later).0, LongestTtl(c) + d)
  {
    if pc.Looking? {
      LookStepOk(c, s, keys, single, pc, later, LongestTtl(c) + d);
    } else if pc.Asking? {
      CheckStepOk(c, s, keys, single, pc, later, LongestTtl(c) + d);
    } else if pc.Preparing? {
      PrepareStepOk(c, s, keys, single, pc, later, d);
    } else if pc.Filling? {
      FillStepOk(c, s, keys, single, pc, later, LongestTtl(c) + d);
    } else {
      StillPcOk(s.history, [], s.clock, later, single, pc, LongestTtl(c) + d);
      assert s.history + [] == s.history;
    }
  }

  lemma ReaderStepOk(
      c: Clamp, s: State, keys: seq<Slot>, single: bool, pc: Pc, later: Time, after: Snapshot, d: Time)
    requires s.clock <= later && c.minTtl == 0.0 && c.missingTtl.Some?
    requires CacheOk(s, LongestTtl(c) + d) && PcOk(s.history, s.clock, single, pc, LongestTtl(c) + d)
    requires PcTimely(ReaderStep(c, s, keys, single, pc, later).0, later, d)
    ensures PcOk(s.history + [Snapshot(later, s.primary), after], later, single,
                 ReaderStep(c, s, keys, single, pc, later).0, LongestTtl(c) + d)
  {
    if pc.Asking? && pc.i < |pc.missing| {
      AskStepOk(c, s, keys, single, pc, later, after, LongestTtl(c) + d);
    } else {
      QuietStepOk(c, s, keys, single, pc, later, d);
      StillPcOk(s.history, [Snapshot(later, s.primary), after], later, later, single,
                ReaderStep(c, s, keys, single, pc, later).0, LongestTtl(c) + d);
    }
  }

  /** A reader puts only what it has prepared into the cache. */
  lemma ReaderCacheOk(c: Clamp, s: State, keys: seq<Slot>, single: bool, pc: Pc, later: Time, age: Time)
    requires CacheOk(s, age) && PcOk(s.history, s.clock, single, pc, age)
    ensures
      var cache := ReaderStep(c, s, keys, single, pc, later).1;
      forall k | k in cache :: EntryOk(s.history, k, cache[k], s.clock, age)
  {
  }

  // ----- Every action keeps the invariant -----

  lemma CacheStillOk(s: State, cache: Table<Slot>, more: seq<Snapshot>, later: Time, age: Time)
    requires s.clock <= later
    requires forall k | k in cache :: EntryOk(s.history, k, cache[k], s.clock, age)
    ensures forall k | k in cache :: EntryOk(s.history + more, k, cache[k], later, age)
  {
    forall k | k in cache ensures EntryOk(s.history + more, k, cache[k], later, age) {
      StillEntryOk(s.history, more, k, cache[k], s.clock, later, age);
    }
  }

  /** The cache after an action holds only acceptable entries, as of before it. */
  lemma ChangedCacheOk(c: Clamp, s: State, a: Action, age: Time)
    requires Inv(s, age)
    ensures
      var cache := Change(c, s, a).cache;
      forall k | k in cache :: EntryOk(s.history, k, cache[k], s.clock, age)
  {
    if a.Run? && a.t in s.tasks && s.tasks[a.t].goal.Reader? {
      var k := s.tasks[a.t];
      assert ReaderOk(s, a.t, age);
      ReaderCacheOk(c, s, k.goal.keys, k.goal.single, k.pc, s.clock + Elapsed(a), age);
    }
  }

  lemma NextShape(c: Clamp, s: State, a: Action)
    ensures Next(c, s, a).history == s.history + Recorded(c, s, a)
    ensures Next(c, s, a).clock == s.clock + Elapsed(a)
    ensures Next(c, s, a).tasks == Change(c, s, a).tasks
  {
  }

  /** The pc that a reader is left with. */
  lemma RunShape(c: Clamp, s: State, a: Action)
    requires a.Run? && a.t in s.tasks && s.tasks[a.t].goal.Reader?
    ensures
      var k := s.tasks[a.t];
      var pc := ReaderStep(c, s, k.goal.keys, k.goal.single, k.pc, s.clock + Elapsed(a)).0;
      a.t in Next(c, s, a).tasks && Next(c, s, a).tasks[a.t] == Task(k.goal, pc)
  {
  }

  lemma RunTimely(c: Clamp, s: State, a: Action, d: Time)
    requires Timely(Next(c, s, a), d)
    requires a.Run? && a.t in s.tasks && s.tasks[a.t].goal.Reader?
    ensures
      var k := s.tasks[a.t];
      PcTimely(ReaderStep(c, s, k.goal.keys, k.goal.single, k.pc, s.clock + Elapsed(a)).0, s.clock + Elapsed(a), d)
  {
    RunShape(c, s, a);
    NextShape(c, s, a);
    assert PcTimely(Next(c, s, a).tasks[a.t].pc, Next(c, s, a).clock, d);
  }

  lemma RunPcOk(c: Clamp, s: State, a: Action, d: Time)
    requires c.minTtl == 0.0 && c.missingTtl.Some?
    requires CacheOk(s, LongestTtl(c) + d) && Timely(Next(c, s, a), d)
    requires a.Run? && a.t in s.tasks && s.tasks[a.t].goal.Reader? && ReaderOk(s, a.t, LongestTtl(c) + d)
    ensures ReaderOk(Next(c, s, a), a.t, LongestTtl(c) + d)
  {
    var later := s.clock + Elapsed(a);
    var k := s.tasks[a.t];
    RunTimely(c, s, a, d);
    ReaderStepOk(c, s, k.goal.keys, k.goal.single, k.pc, later, Snapshot(later, Change(c, s, a).primary), d);
    RunShape(c, s, a);
    NextShape(c, s, a);
  }

  /** An action leaves every task alone but the one it runs or spawns. */
  lemma OthersUnchanged(c: Clamp, s: State, a: Action, t: TaskId)
    requires t in Next(c, s, a).tasks && !(a.Run? && a.t == t)
    ensures if t in s.tasks then Next(c, s, a).tasks[t] == s.tasks[t]
            else Next(c, s, a).tasks[t].pc == Looking(0, map[]) || Next(c, s, a).tasks[t].pc == Dropping(0)
  {
  }

  lemma OtherPcOk(c: Clamp, s: State, a: Action, age: Time, t: TaskId)
    requires ReaderOk(s, t, age) && !(a.Run? && a.t == t)
    ensures ReaderOk(Next(c, s, a), t, age)
  {
    NextShape(c, s, a);
    if t in Next(c, s, a).tasks {
      OthersUnchanged(c, s, a, t);
    }
    if t in s.tasks && s.tasks[t].goal.Reader? {
      StillPcOk(s.history, Recorded(c, s, a), s.clock, s.clock + Elapsed(a), s.tasks[t].goal.single,
                s.tasks[t].pc, age);
    }
  }

  /** A writer stays a writer. */
  lemma GoalsUnchanged(c: Clamp, s: State, a: Action)
    requires a.Run? && a.t in s.tasks
    ensures a.t in Next(c, s, a).tasks && Next(c, s, a).tasks[a.t].goal == s.tasks[a.t].goal
  {
  }

  lemma NoNewTask(c: Clamp, s: State, a: Action)
    requires a.Run? && a.t !in s.tasks
    ensures Next(c, s, a).tasks == s.tasks
  {
  }

  lemma RunOk(c: Clamp, s: State, a: Action, d: Time)
    requires c.minTtl == 0.0 && c.missingTtl.Some?
    requires CacheOk(s, LongestTtl(c) + d) && Timely(Next(c, s, a), d)
    requires a.Run? && ReaderOk(s, a.t, LongestTtl(c) + d)
    ensures ReaderOk(Next(c, s, a), a.t, LongestTtl(c) + d)
  {
    if a.t !in s.tasks {
      NoNewTask(c, s, a);
    } else if s.tasks[a.t].goal.Reader? {
      RunPcOk(c, s, a, d);
    } else {
      GoalsUnchanged(c, s, a);
    }
  }

  lemma CacheKept(c: Clamp, s: State, a: Action, age: Time)
    requires Inv(s, age)
    ensures CacheOk(Next(c, s, a), age)
  {
    ChangedCacheOk(c, s, a, age);
    CacheStillOk(s, Next(c, s, a).cache, Recorded(c, s, a), Next(c, s, a).clock, age);
  }

  lemma InvKept(c: Clamp, s: State, a: Action, d: Time)
    requires c.minTtl == 0.0 && c.missingTtl.Some? && Inv(s, LongestTtl(c) + d) && Timely(Next(c, s, a), d)
    ensures Inv(Next(c, s, a), LongestTtl(c) + d)
  {
    var s', age := Next(c, s, a), LongestTtl(c) + d;
    CacheKept(c, s, a, age);
    forall t ensures ReaderOk(s', t, age) {
      if a.Run? && a.t == t {
        RunOk(c, s, a, d);
      } else {
        OtherPcOk(c, s, a, age, t);
      }
    }
  }

  /** Every state of the run is timely. */
  ghost predicate RunsTimely(c: Clamp, start: Time, primary: Table<Slot>, actions: seq<Action>, d: Time) {
    forall n | 0 <= n <= |actions| :: Timely(After(c, start, primary, actions[..n]), d)
  }

  lemma {:induction false} InvHolds(
      c: Clamp, start: Time, primary: Table<Slot>, actions: seq<Action>, n: nat, d: Time)
    requires c.minTtl == 0.0 && c.missingTtl.Some? && n <= |actions|
    requires RunsTimely(c, start, primary, actions, d)
    ensures Inv(After(c, start, primary, actions[..n]), LongestTtl(c) + d)
  {
    if n > 0 {
      InvHolds(c, start, primary, actions, n - 1, d);
      assert actions[..n][..n - 1] == actions[..n - 1];
      InvKept(c, After(c, start, primary, actions[..n - 1]), actions[n - 1], d);
    }
  }

  lemma AgeGrows(h: seq<Snapshot>, k: Slot, v: Dict, at: Time, age: Time, later: Time)
    requires RecentlyLive(h, k, v, at, age) && at <= later
    ensures RecentlyLive(h, k, v, later, age + (later - at))
  {
    var t: Time :| WasLive(h, k, v, t) && t <= at < t + age;
    assert t <= later < t + (age + (later - at));
  }

  /** In every interleaving, every value a read replies with was live in the primary. A value
      taken from the cache was so less than L + d before it was taken, where L is the larger
      of maximum_ttl, m, and missing_ttl, n, and d bounds the time from a call's first read of the
      primary to its end. A single read takes it at the moment it replies, so less than L + d
      before the reply; a bulk read takes it when it checks what it found in the cache, and
      asks the primary for the rest in between. A value taken from the primary was live when
      it was taken, at most d before the reply. */
  lemma ServedValuesAreRecent(
      maximumTtl: Option<real>, missingTtl: Option<real>, m: real, n: real, start: Time, primary: Table<Slot>,
      actions: seq<Action>, d: Time, t: TaskId, k: Slot)
    requires IsLimit(maximumTtl, m) && IsLimit(missingTtl, n)
    requires RunsTimely(CacheClamp(maximumTtl, missingTtl), start, primary, actions, d)
    requires
      var s := After(CacheClamp(maximumTtl, missingTtl), start, primary, actions);
      t in s.tasks && s.tasks[t].goal.Reader? && s.tasks[t].pc.Replied? && k in s.tasks[t].pc.found
    ensures
      var c := CacheClamp(maximumTtl, missingTtl);
      var s := After(c, start, primary, actions);
      var p := s.tasks[t].pc.found[k];
      var repliedAt := s.tasks[t].pc.at;
      var longest := if m < n then n else m;
      && p.at <= repliedAt
      && if p.fromCache
         then
           && RecentlyLive(s.history, k, p.value, p.at, longest + d)
           && RecentlyLive(s.history, k, p.value, repliedAt, longest + d + (repliedAt - p.at))
           && (s.tasks[t].goal.single ==> p.at == repliedAt)
         else WasLive(s.history, k, p.value, p.at) && repliedAt <= p.at + d
  {
    var c := CacheClamp(maximumTtl, missingTtl);
    ClampInNumbers(maximumTtl, missingTtl, m, n);
    assert actions[..|actions|] == actions;
    InvHolds(c, start, primary, actions, |actions|, d);
    var s := After(c, start, primary, actions);
    assert Timely(s, d);
    assert ReaderOk(s, t, LongestTtl(c) + d);
    var p := s.tasks[t].pc.found[k];
    if p.fromCache {
      AgeGrows(s.history, k, p.value, p.at, LongestTtl(c) + d, s.tasks[t].pc.at);
    }
  }
}
