/** When the interleaved two-tier store does answer as its primary: while a key is being written
    nobody reads it, and while it is being read nobody writes it. */
module PassthroughSerial {
  import opened Prelude
  import opened TimeToLive
  import opened ManagedEntries
  import opened KeyValue
  import opened TtlClamps
  import opened PassthroughSpec
  import opened PassthroughInterleaving

  // ----- Keeping reads and writes of a key apart -----

  predicate Unfinished(k: Task) {
    k.goal.Reader? && !k.pc.Replied? && !k.pc.FillRaised?
  }

  /** Between its start and its end; its first step drops a key, its last one writes one. */
  predicate Writes(k: Task) {
    !k.goal.Reader? && (k.pc.Dropping? || k.pc.Writing?)
  }

  ghost predicate BeingRead(s: State, k: Slot) {
    exists t | t in s.tasks :: Unfinished(s.tasks[t]) && k in s.tasks[t].goal.keys
  }

  ghost predicate BeingWritten(s: State, k: Slot) {
    exists t | t in s.tasks :: Writes(s.tasks[t]) && k in s.tasks[t].goal.keys
  }

  /** A reader takes no step while one of its keys is being written. */
  ghost predicate NoReadInWrite(s: State, a: Action) {
    a.Run? && a.t in s.tasks && Unfinished(s.tasks[a.t]) ==>
      forall k | k in s.tasks[a.t].goal.keys :: !BeingWritten(s, k)
  }

  /** No key is written in the primary while it is being read. */
  ghost predicate NoWriteInRead(s: State, a: Action) {
    a.Run? && a.t in s.tasks && !s.tasks[a.t].goal.Reader? && s.tasks[a.t].pc.Writing?
      && s.tasks[a.t].pc.i < |s.tasks[a.t].goal.keys| ==>
      !BeingRead(s, s.tasks[a.t].goal.keys[s.tasks[a.t].pc.i])
  }

  ghost predicate Serial(s: State, a: Action) {
    NoReadInWrite(s, a) && NoWriteInRead(s, a) && !a.Outside?
  }

  /** Every step of the run is allowed. */
  ghost predicate RunAllowed(
      c: Clamp, start: Time, primary: Table<Slot>, actions: seq<Action>, allowed: (State, Action) -> bool)
  {
    forall n | 0 <= n < |actions| :: allowed(After(c, start, primary, actions[..n]), actions[n])
  }

  /** No key is read and written at once, as under a lock that readers of a key share. */
  ghost predicate Exclusive(s: State) {
    forall k :: !(BeingRead(s, k) && BeingWritten(s, k))
  }

  lemma ExclusiveIsSerial(s: State, a: Action)
    requires Exclusive(s) && !a.Outside?
    ensures Serial(s, a)
  {
    if a.Run? && a.t in s.tasks {
      forall k | k in s.tasks[a.t].goal.keys
        ensures Unfinished(s.tasks[a.t]) ==> BeingRead(s, k)
        ensures Writes(s.tasks[a.t]) ==> BeingWritten(s, k)
      {
      }
    }
  }

  /** Waiting must come before the start: a reader and a writer that have both started on a key
      wait for each other for ever. `Exclusive` rules that out. */
  lemma StartedTogetherWaitForEver(s: State, t: TaskId, u: TaskId, a: Action)
    requires t in s.tasks && Unfinished(s.tasks[t])
    requires u in s.tasks && !s.tasks[u].goal.Reader? && s.tasks[u].pc.Writing?
    requires s.tasks[u].pc.i < |s.tasks[u].goal.keys| && s.tasks[u].goal.keys[s.tasks[u].pc.i] in s.tasks[t].goal.keys
    requires a.Run? && (a.t == t || a.t == u)
    ensures !Serial(s, a) && !Exclusive(s)
  {
    var k := s.tasks[u].goal.keys[s.tasks[u].pc.i];
    assert BeingRead(s, k) && BeingWritten(s, k);
  }

  // ----- What the cache and the tasks hold, against the primary -----

  /** The copy has the primary's value and is gone at most d after it. */
  predicate CellOk(primary: Table<Slot>, k: Slot, e: Entry, d: Time) {
    && k in primary && primary[k].value == e.value
    && (primary[k].expires.Some? ==> e.expires.Some? && e.expires.value <= primary[k].expires.value + d)
  }

  /** The primary stores the value, live or expired less than d before it was picked. */
  predicate PickOf(primary: Table<Slot>, k: Slot, p: Pick, d: Time) {
    && k in primary && primary[k].value == p.value
    && (primary[k].expires.Some? ==> p.at < primary[k].expires.value + d)
  }

  /** That was so when the value was picked. */
  ghost predicate PickedOk(h: seq<Snapshot>, k: Slot, p: Pick, d: Time) {
    exists i | 0 <= i < |h| :: h[i].time == p.at && PickOf(h[i].primary, k, p, d)
  }

  ghost predicate FoundCurrent(
      h: seq<Snapshot>, primary: Table<Slot>, keys: seq<Slot>, found: map<Slot, Pick>, d: Time)
  {
    forall k | k in found :: k in keys && PickOf(primary, k, found[k], d) && PickedOk(h, k, found[k], d)
  }

  /** What a reader has not found, the primary does not have either. */
  ghost predicate MissesCurrent(
      primary: Table<Slot>, keys: seq<Slot>, found: map<Slot, Pick>, single: bool, now: Time)
  {
    forall k | k in keys && k !in found :: !(k in primary && Usable(primary[k], single, now))
  }

  ghost predicate SeenCurrent(primary: Table<Slot>, keys: seq<Slot>, seen: map<Slot, Entry>, d: Time) {
    forall k | k in seen :: k in keys && CellOk(primary, k, seen[k], d)
  }

  ghost predicate Covered(keys: seq<Slot>, found: map<Slot, Pick>, missing: seq<Slot>) {
    && (forall k | k in missing :: k in keys)
    && (forall k | k in keys :: k in found || k in missing)
  }

  predicate StoredNow(primary: Table<Slot>, r: PrimaryRead) {
    r.slot in primary && primary[r.slot] == r.entry
  }

  ghost predicate ReadingsCurrent(
      h: seq<Snapshot>, primary: Table<Slot>, missing: seq<Slot>, readings: seq<PrimaryRead>,
      since: Option<Time>, now: Time)
  {
    forall j | 0 <= j < |readings| ::
      && readings[j].slot in missing && StoredNow(primary, readings[j])
      && WasStored(h, readings[j]) && ReadBetween(readings[j], since, now)
  }

  ghost predicate HasReading(readings: seq<PrimaryRead>, k: Slot) {
    exists j | 0 <= j < |readings| :: readings[j].slot == k
  }

  ghost predicate AskedAll(primary: Table<Slot>, missing: seq<Slot>, i: nat, readings: seq<PrimaryRead>) {
    forall j | 0 <= j < |missing| && j < i :: missing[j] in primary ==> HasReading(readings, missing[j])
  }

  ghost predicate AnswersCurrent(
      primary: Table<Slot>, keys: seq<Slot>, answers: seq<PrimaryRead>, since: Option<Time>, now: Time)
  {
    forall j | 0 <= j < |answers| ::
      && answers[j].slot in keys && StoredNow(primary, answers[j])
      && !ExpiredAt(answers[j].entry.expires, answers[j].at) && ReadBetween(answers[j], since, now)
  }

  ghost predicate EntriesCurrent(
      primary: Table<Slot>, keys: seq<Slot>, entries: seq<(Slot, Entry)>, d: Time)
  {
    forall j | 0 <= j < |entries| :: entries[j].0 in keys && CellOk(primary, entries[j].0, entries[j].1, d)
  }

  /** At the time of the reply the primary stores every value found, live or expired less than
      d before it was picked, and has no live value for any key that was not found. */
  ghost predicate RepliedCurrent(
      h: seq<Snapshot>, keys: seq<Slot>, found: map<Slot, Pick>, single: bool, at: Time, d: Time)
  {
    && (forall k | k in found :: PickedOk(h, k, found[k], d))
    && exists i | 0 <= i < |h| :: h[i].time == at && RepliedFrom(h[i].primary, keys, found, single, at, d)
  }

  ghost predicate RepliedFrom(
      primary: Table<Slot>, keys: seq<Slot>, found: map<Slot, Pick>, single: bool, at: Time, d: Time)
  {
    && (forall k | k in found :: PickOf(primary, k, found[k], d))
    && ((single ==> |keys| <= 1) ==> MissesCurrent(primary, keys, found, single, at))
  }

  ghost predicate PcCurrent(
      h: seq<Snapshot>, primary: Table<Slot>, now: Time, keys: seq<Slot>, single: bool, pc: Pc, d: Time)
  {
    match pc
    case Looking(_, seen) => SeenCurrent(primary, keys, seen, d)
    case Asking(missing, i, found, readings, since) =>
      && FoundCurrent(h, primary, keys, found, d) && Covered(keys, found, missing)
      && ReadingsCurrent(h, primary, missing, readings, since, now) && AskedAll(primary, missing, i, readings)
      && (since.Some? ==> since.value <= now)
    case Preparing(found, answers, since) =>
      && FoundCurrent(h, primary, keys, found, d) && MissesCurrent(primary, keys, found, single, now)
      && AnswersCurrent(primary, keys, answers, since, now)
    case Filling(entries, _, found, _) =>
      && FoundCurrent(h, primary, keys, found, d) && MissesCurrent(primary, keys, found, single, now)
      && EntriesCurrent(primary, keys, entries, d)
    case Replied(found, _, at) => RepliedCurrent(h, keys, found, single, at, d)
    case _ => true
  }

  /** What a writer has dropped stays out of the cache until it is through. */
  ghost predicate DropsStay(cache: Table<Slot>, keys: seq<Slot>, pc: Pc) {
    match pc
    case Dropping(i) => forall j | 0 <= j < |keys| && j < i :: keys[j] !in cache
    case Writing(_) => forall j | 0 <= j < |keys| :: keys[j] !in cache
    case _ => true
  }

  ghost predicate CacheCurrent(primary: Table<Slot>, cache: Table<Slot>, d: Time) {
    forall k | k in cache :: CellOk(primary, k, cache[k], d)
  }

  ghost predicate TaskCurrent(s: State, t: TaskId, d: Time) {
    t in s.tasks ==>
      if s.tasks[t].goal.Reader?
      then PcCurrent(s.history, s.primary, s.clock, s.tasks[t].goal.keys, s.tasks[t].goal.single, s.tasks[t].pc, d)
      else DropsStay(s.cache, s.tasks[t].goal.keys, s.tasks[t].pc)
  }

  ghost predicate Current(s: State, d: Time) {
    CacheCurrent(s.primary, s.cache, d) && forall t :: TaskCurrent(s, t, d)
  }

  // ----- A reader that is not run -----

  ghost predicate Agree(p: Table<Slot>, p': Table<Slot>, keys: seq<Slot>) {
    forall k | k in keys :: (k in p <==> k in p') && (k in p ==> p'[k] == p[k])
  }

  lemma StillPickedOk(h: seq<Snapshot>, more: seq<Snapshot>, k: Slot, p: Pick, d: Time)
    requires PickedOk(h, k, p, d)
    ensures PickedOk(h + more, k, p, d)
  {
    var i :| 0 <= i < |h| && h[i].time == p.at && PickOf(h[i].primary, k, p, d);
    assert (h + more)[i] == h[i];
  }

  lemma FoundStays(
      h: seq<Snapshot>, more: seq<Snapshot>, p: Table<Slot>, p': Table<Slot>, keys: seq<Slot>,
      found: map<Slot, Pick>, d: Time)
    requires FoundCurrent(h, p, keys, found, d) && Agree(p, p', keys)
    ensures FoundCurrent(h + more, p', keys, found, d)
  {
    forall k | k in found ensures PickedOk(h + more, k, found[k], d) {
      StillPickedOk(h, more, k, found[k], d);
    }
  }

  lemma MissesStay(
      p: Table<Slot>, p': Table<Slot>, keys: seq<Slot>, found: map<Slot, Pick>, single: bool, now: Time, later: Time)
    requires MissesCurrent(p, keys, found, single, now) && Agree(p, p', keys) && now <= later
    ensures MissesCurrent(p', keys, found, single, later)
  {
    forall k | k in keys && k !in found ensures !(k in p' && Usable(p'[k], single, later)) {
      assert !(k in p && Usable(p[k], single, now));
    }
  }

  lemma ReadingsStay(
      h: seq<Snapshot>, more: seq<Snapshot>, p: Table<Slot>, p': Table<Slot>, keys: seq<Slot>, missing: seq<Slot>,
      readings: seq<PrimaryRead>, since: Option<Time>, now: Time, later: Time)
    requires ReadingsCurrent(h, p, missing, readings, since, now) && Agree(p, p', keys) && now <= later
    requires forall k | k in missing :: k in keys
    ensures ReadingsCurrent(h + more, p', missing, readings, since, later)
  {
    forall j | 0 <= j < |readings| ensures WasStored(h + more, readings[j]) && StoredNow(p', readings[j]) {
      StillWasStored(h, more, readings[j]);
    }
  }

  lemma AskedAllStays(
      p: Table<Slot>, p': Table<Slot>, keys: seq<Slot>, missing: seq<Slot>, i: nat, readings: seq<PrimaryRead>)
    requires AskedAll(p, missing, i, readings) && Agree(p, p', keys) && forall k | k in missing :: k in keys
    ensures AskedAll(p', missing, i, readings)
  {
    forall j | 0 <= j < |missing| && j < i && missing[j] in p' ensures HasReading(readings, missing[j]) {
      assert missing[j] in keys;
    }
  }

  lemma AnswersStay(
      p: Table<Slot>, p': Table<Slot>, keys: seq<Slot>, answers: seq<PrimaryRead>, since: Option<Time>,
      now: Time, later: Time)
    requires AnswersCurrent(p, keys, answers, since, now) && Agree(p, p', keys) && now <= later
    ensures AnswersCurrent(p', keys, answers, since, later)
  {
  }

  lemma EntriesStay(p: Table<Slot>, p': Table<Slot>, keys: seq<Slot>, entries: seq<(Slot, Entry)>, d: Time)
    requires EntriesCurrent(p, keys, entries, d) && Agree(p, p', keys)
    ensures EntriesCurrent(p', keys, entries, d)
  {
  }

  lemma RepliedStays(
      h: seq<Snapshot>, more: seq<Snapshot>, keys: seq<Slot>, found: map<Slot, Pick>, single: bool, at: Time, d: Time)
    requires RepliedCurrent(h, keys, found, single, at, d)
    ensures RepliedCurrent(h + more, keys, found, single, at, d)
  {
    forall k | k in found ensures PickedOk(h + more, k, found[k], d) {
      StillPickedOk(h, more, k, found[k], d);
    }
    var i :| 0 <= i < |h| && h[i].time == at && RepliedFrom(h[i].primary, keys, found, single, at, d);
    assert (h + more)[i] == h[i];
  }

  /** A reader keeps what it knows while its keys stay as they are in the primary; once it has
      replied nothing can take that away. */
  lemma PcStays(
      h: seq<Snapshot>, more: seq<Snapshot>, p: Table<Slot>, p': Table<Slot>, now: Time, later: Time,
      keys: seq<Slot>, single: bool, pc: Pc, d: Time)
    requires PcCurrent(h, p, now, keys, single, pc, d) && now <= later
    requires pc.Replied? || pc.FillRaised? || Agree(p, p', keys)
    ensures PcCurrent(h + more, p', later, keys, single, pc, d)
  {
    match pc
    case Looking(_, seen) =>
    case Asking(missing, i, found, readings, since) =>
      FoundStays(h, more, p, p', keys, found, d);
      ReadingsStay(h, more, p, p', keys, missing, readings, since, now, later);
      AskedAllStays(p, p', keys, missing, i, readings);
    case Preparing(found, answers, since) =>
      FoundStays(h, more, p, p', keys, found, d);
      MissesStay(p, p', keys, found, single, now, later);
      AnswersStay(p, p', keys, answers, since, now, later);
    case Filling(entries, _, found, _) =>
      FoundStays(h, more, p, p', keys, found, d);
      MissesStay(p, p', keys, found, single, now, later);
      EntriesStay(p, p', keys, entries, d);
    case Replied(found, _, at) => RepliedStays(h, more, keys, found, single, at, d);
    case _ =>
  }

  // ----- A reader's own step -----

  lemma {:induction false} MissingMeans(keys: seq<Slot>, found: map<Slot, Pick>)
    ensures forall k :: k in Missing(keys, found) <==> k in keys && k !in found
  {
    if keys != [] {
      var n := |keys| - 1;
      MissingMeans(keys[..n], found);
      assert keys == keys[..n] + [keys[n]];
    }
  }

  lemma RecordedNow(h: seq<Snapshot>, primary: Table<Slot>, later: Time, after: Snapshot)
    ensures
      var h' := h + [Snapshot(later, primary), after];
      |h| < |h'| && h'[|h|].time == later && h'[|h|].primary == primary
  {
  }

  lemma PickedNow(h: seq<Snapshot>, primary: Table<Slot>, k: Slot, p: Pick, after: Snapshot, d: Time)
    requires PickOf(primary, k, p, d)
    ensures PickedOk(h + [Snapshot(p.at, primary), after], k, p, d)
  {
    RecordedNow(h, primary, p.at, after);
  }

  lemma RepliedNow(
      h: seq<Snapshot>, primary: Table<Slot>, keys: seq<Slot>, found: map<Slot, Pick>, single: bool,
      later: Time, after: Snapshot, d: Time)
    requires forall k | k in found :: PickedOk(h + [Snapshot(later, primary), after], k, found[k], d)
    requires RepliedFrom(primary, keys, found, single, later, d)
    ensures RepliedCurrent(h + [Snapshot(later, primary), after], keys, found, single, later, d)
  {
    RecordedNow(h, primary, later, after);
  }

  lemma HitsAreCurrent(
      h: seq<Snapshot>, primary: Table<Slot>, keys: seq<Slot>, seen: map<Slot, Entry>, single: bool,
      later: Time, after: Snapshot, d: Time)
    requires SeenCurrent(primary, keys, seen, d)
    ensures FoundCurrent(h + [Snapshot(later, primary), after], primary, keys, Hits(seen, single, later), d)
  {
    var found := Hits(seen, single, later);
    forall k | k in found
      ensures k in keys && PickOf(primary, k, found[k], d)
      ensures PickedOk(h + [Snapshot(later, primary), after], k, found[k], d)
    {
      PickedNow(h, primary, k, found[k], after, d);
    }
  }

  lemma OneKeyFound(
      primary: Table<Slot>, keys: seq<Slot>, found: map<Slot, Pick>, single: bool, later: Time)
    requires found != map[] && |keys| <= 1 && forall k | k in found :: k in keys
    ensures MissesCurrent(primary, keys, found, single, later)
  {
    var k :| k in found;
    assert keys[0] == k;
  }

  lemma LookEndCurrent(
      h: seq<Snapshot>, primary: Table<Slot>, keys: seq<Slot>, seen: map<Slot, Entry>, single: bool,
      later: Time, after: Snapshot, d: Time)
    requires SeenCurrent(primary, keys, seen, d)
    ensures
      var h' := h + [Snapshot(later, primary), after];
      var found := Hits(seen, single, later);
      && PcCurrent(h', primary, later, keys, single, Asking(Missing(keys, found), 0, found, [], None), d)
      && (single && found != map[] ==> PcCurrent(h', primary, later, keys, single, Replied(found, None, later), d))
  {
    var found := Hits(seen, single, later);
    HitsAreCurrent(h, primary, keys, seen, single, later, after, d);
    MissingMeans(keys, found);
    if single && found != map[] {
      if |keys| <= 1 {
        OneKeyFound(primary, keys, found, single, later);
      }
      RepliedNow(h, primary, keys, found, single, later, after, d);
    }
  }

  lemma AskCurrent(
      h: seq<Snapshot>, primary: Table<Slot>, now: Time, missing: seq<Slot>, i: nat, readings: seq<PrimaryRead>,
      since: Option<Time>, later: Time, after: Snapshot)
    requires now <= later && i < |missing| && (since.Some? ==> since.value <= now)
    requires ReadingsCurrent(h, primary, missing, readings, since, now) && AskedAll(primary, missing, i, readings)
    ensures
      var more := if missing[i] in primary then [PrimaryRead(missing[i], primary[missing[i]], later)] else [];
      var since' := if since.None? then Some(now) else since;
      && ReadingsCurrent(h + [Snapshot(later, primary), after], primary, missing, readings + more, since', later)
      && AskedAll(primary, missing, i + 1, readings + more)
  {
    var more := if missing[i] in primary then [PrimaryRead(missing[i], primary[missing[i]], later)] else [];
    var since' := if since.None? then Some(now) else since;
    var h' := h + [Snapshot(later, primary), after];
    ReadingsStay(h, [Snapshot(later, primary), after], primary, primary, missing, missing, readings, since, now, later);
    if missing[i] in primary {
      ReadIsRecorded(h, primary, missing[i], later, after);
    }
    forall j | 0 <= j < |readings + more|
      ensures (readings + more)[j].slot in missing && StoredNow(primary, (readings + more)[j])
      ensures WasStored(h', (readings + more)[j]) && ReadBetween((readings + more)[j], since', later)
    {
      assert j < |readings| ==> ReadBetween(readings[j], since, later);
    }
    forall j | 0 <= j < |missing| && j < i + 1 && missing[j] in primary ensures HasReading(readings + more, missing[j]) {
      if j < i {
        var n :| 0 <= n < |readings| && readings[n].slot == missing[j];
        assert (readings + more)[n].slot == missing[j];
      } else {
        assert (readings + more)[|readings|].slot == missing[j];
      }
    }
  }

  /** The answers are the readings that can be used. */
  lemma {:induction false} AnswersMean(readings: seq<PrimaryRead>, single: bool, later: Time)
    ensures forall r :: r in Answers(readings, single, later) <==> r in readings && Usable(r.entry, single, later)
  {
    if readings != [] {
      var n := |readings| - 1;
      AnswersMean(readings[..n], single, later);
      assert readings == readings[..n] + [readings[n]];
    }
  }

  lemma AnswersAreCurrent(
      h: seq<Snapshot>, primary: Table<Slot>, keys: seq<Slot>, missing: seq<Slot>, readings: seq<PrimaryRead>,
      single: bool, since: Option<Time>, later: Time)
    requires ReadingsCurrent(h, primary, missing, readings, since, later) && forall k | k in missing :: k in keys
    ensures AnswersCurrent(primary, keys, Answers(readings, single, later), since, later)
    ensures forall r | r in Answers(readings, single, later) :: WasStored(h, r)
  {
    AnswersMean(readings, single, later);
    var answers := Answers(readings, single, later);
    forall j | 0 <= j < |answers|
      ensures answers[j].slot in keys && StoredNow(primary, answers[j])
      ensures !ExpiredAt(answers[j].entry.expires, answers[j].at) && ReadBetween(answers[j], since, later)
    {
      assert answers[j] in readings;
    }
  }

  lemma {:induction false} PicksMean(found: map<Slot, Pick>, answers: seq<PrimaryRead>)
    ensures forall k :: k in Picks(found, answers) <==> k in found || HasReading(answers, k)
    ensures forall k | k in Picks(found, answers) ::
      || (k in found && Picks(found, answers)[k] == found[k])
      || (exists j | 0 <= j < |answers| ::
            answers[j].slot == k && Picks(found, answers)[k] == Pick(answers[j].entry.value, answers[j].at, false))
  {
    if answers != [] {
      var n := |answers| - 1;
      PicksMean(found, answers[..n]);
      forall k ensures HasReading(answers, k) <==> HasReading(answers[..n], k) || answers[n].slot == k {
        if HasReading(answers[..n], k) {
          var j :| 0 <= j < n && answers[..n][j].slot == k;
          assert answers[j].slot == k;
        }
        if j :| 0 <= j < n && answers[j].slot == k {
          assert answers[..n][j].slot == k;
        }
      }
    }
  }

  lemma AnswerPicked(h: seq<Snapshot>, primary: Table<Slot>, r: PrimaryRead, d: Time)
    requires d >= 0.0 && StoredNow(primary, r) && WasStored(h, r) && !ExpiredAt(r.entry.expires, r.at)
    ensures PickOf(primary, r.slot, Pick(r.entry.value, r.at, false), d)
    ensures PickedOk(h, r.slot, Pick(r.entry.value, r.at, false), d)
  {
    var i :| 0 <= i < |h| && h[i].time == r.at && r.slot in h[i].primary && h[i].primary[r.slot] == r.entry;
    assert PickOf(h[i].primary, r.slot, Pick(r.entry.value, r.at, false), d);
  }

  lemma PicksAreCurrent(
      h: seq<Snapshot>, primary: Table<Slot>, keys: seq<Slot>, found: map<Slot, Pick>, answers: seq<PrimaryRead>,
      since: Option<Time>, later: Time, d: Time)
    requires FoundCurrent(h, primary, keys, found, d) && AnswersCurrent(primary, keys, answers, since, later)
    requires forall r | r in answers :: WasStored(h, r)
    requires since.Some? ==> later <= since.value + d
    ensures FoundCurrent(h, primary, keys, Picks(found, answers), d)
  {
    PicksMean(found, answers);
    var picks := Picks(found, answers);
    forall k | k in picks ensures k in keys && PickOf(primary, k, picks[k], d) && PickedOk(h, k, picks[k], d) {
      if !(k in found && picks[k] == found[k]) {
        var j :| 0 <= j < |answers| && answers[j].slot == k
          && picks[k] == Pick(answers[j].entry.value, answers[j].at, false);
        assert answers[j] in answers && ReadBetween(answers[j], since, later);
        AnswerPicked(h, primary, answers[j], d);
      }
    }
  }

  lemma MissesAreCurrent(
      h: seq<Snapshot>, primary: Table<Slot>, keys: seq<Slot>, missing: seq<Slot>, i: nat, found: map<Slot, Pick>,
      readings: seq<PrimaryRead>, single: bool, since: Option<Time>, later: Time)
    requires Covered(keys, found, missing) && i >= |missing|
    requires ReadingsCurrent(h, primary, missing, readings, since, later) && AskedAll(primary, missing, i, readings)
    ensures MissesCurrent(primary, keys, Picks(found, Answers(readings, single, later)), single, later)
  {
    var answers := Answers(readings, single, later);
    AnswersMean(readings, single, later);
    PicksMean(found, answers);
    forall k | k in keys && k !in Picks(found, answers) ensures !(k in primary && Usable(primary[k], single, later)) {
      assert k in missing;
      if k in primary {
        var j :| 0 <= j < |missing| && missing[j] == k;
        var n :| 0 <= n < |readings| && readings[n].slot == k;
        assert StoredNow(primary, readings[n]);
        assert readings[n] in answers ==> HasReading(answers, k);
      }
    }
  }

  lemma CheckCurrent(
      h: seq<Snapshot>, primary: Table<Slot>, keys: seq<Slot>, missing: seq<Slot>, i: nat, found: map<Slot, Pick>,
      readings: seq<PrimaryRead>, single: bool, since: Option<Time>, later: Time, d: Time)
    requires FoundCurrent(h, primary, keys, found, d) && Covered(keys, found, missing) && i >= |missing|
    requires ReadingsCurrent(h, primary, missing, readings, since, later) && AskedAll(primary, missing, i, readings)
    requires since.Some? ==> later <= since.value + d
    ensures
      var answers := Answers(readings, single, later);
      PcCurrent(h, primary, later, keys, single, Preparing(Picks(found, answers), answers, since), d)
  {
    AnswersAreCurrent(h, primary, keys, missing, readings, single, since, later);
    PicksAreCurrent(h, primary, keys, found, Answers(readings, single, later), since, later, d);
    MissesAreCurrent(h, primary, keys, missing, i, found, readings, single, since, later);
  }

  /** What is filled from an answer is gone at most d after the primary's entry. */
  lemma FillIsCurrent(
      c: Clamp, primary: Table<Slot>, r: PrimaryRead, since: Option<Time>, now: Time, d: Time)
    requires c.minTtl == 0.0 && StoredNow(primary, r) && !ExpiredAt(r.entry.expires, r.at)
    requires ReadBetween(r, since, now) && now <= since.value + d
    requires FillFrom(c, r.entry, r.at, now).Ok?
    ensures CellOk(primary, r.slot, FillFrom(c, r.entry, r.at, now).value, d)
  {
  }

  lemma {:induction false} PreparedAreCurrent(
      c: Clamp, primary: Table<Slot>, keys: seq<Slot>, answers: seq<PrimaryRead>, since: Option<Time>,
      now: Time, d: Time)
    requires c.minTtl == 0.0 && AnswersCurrent(primary, keys, answers, since, now)
    requires since.Some? ==> now <= since.value + d
    requires Prepare(c, answers, now).Ok?
    ensures EntriesCurrent(primary, keys, Prepare(c, answers, now).value, d)
  {
    if answers != [] {
      var n := |answers| - 1;
      PreparedAreCurrent(c, primary, keys, answers[..n], since, now, d);
      FillIsCurrent(c, primary, answers[n], since, now, d);
    }
  }

  lemma FillStepCurrent(
      h: seq<Snapshot>, primary: Table<Slot>, keys: seq<Slot>, found: map<Slot, Pick>, single: bool,
      now: Time, later: Time, after: Snapshot, since: Option<Time>, d: Time)
    requires FoundCurrent(h, primary, keys, found, d) && MissesCurrent(primary, keys, found, single, now)
    requires now <= later
    ensures PcCurrent(h + [Snapshot(later, primary), after], primary, later, keys, single,
                      Replied(found, since, later), d)
  {
    var more := [Snapshot(later, primary), after];
    FoundStays(h, more, primary, primary, keys, found, d);
    MissesStay(primary, primary, keys, found, single, now, later);
    RepliedNow(h, primary, keys, found, single, later, after, d);
  }

  lemma LookCurrent(s: State, keys: seq<Slot>, seen: map<Slot, Entry>, k: Slot, d: Time)
    requires CacheCurrent(s.primary, s.cache, d) && SeenCurrent(s.primary, keys, seen, d) && k in keys
    ensures SeenCurrent(s.primary, keys, if k in s.cache then seen[k := s.cache[k]] else seen - {k}, d)
  {
  }

  lemma LookStepCurrent(
      c: Clamp, s: State, keys: seq<Slot>, single: bool, pc: Pc, later: Time, after: Snapshot, d: Time)
    requires pc.Looking? && SeenCurrent(s.primary, keys, pc.seen, d) && CacheCurrent(s.primary, s.cache, d)
    ensures PcCurrent(s.history + [Snapshot(later, s.primary), after], s.primary, later, keys, single,
                      ReaderStep(c, s, keys, single, pc, later).0, d)
  {
    if pc.i < |keys| {
      LookCurrent(s, keys, pc.seen, keys[pc.i], d);
    } else {
      LookEndCurrent(s.history, s.primary, keys, pc.seen, single, later, after, d);
    }
  }

  lemma AskStepCurrent(
      c: Clamp, s: State, keys: seq<Slot>, single: bool, pc: Pc, later: Time, after: Snapshot, d: Time)
    requires s.clock <= later && pc.Asking?
    requires PcCurrent(s.history, s.primary, s.clock, keys, single, pc, d)
    requires PcTimely(ReaderStep(c, s, keys, single, pc, later).0, later, d)
    ensures PcCurrent(s.history + [Snapshot(later, s.primary), after], s.primary, later, keys, single,
                      ReaderStep(c, s, keys, single, pc, later).0, d)
  {
    var more := [Snapshot(later, s.primary), after];
    if pc.i < |pc.missing| {
      FoundStays(s.history, more, s.primary, s.primary, keys, pc.found, d);
      AskCurrent(s.history, s.primary, s.clock, pc.missing, pc.i, pc.readings, pc.since, later, after);
    } else {
      ReadingsStay(s.history, more, s.primary, s.primary, keys, pc.missing, pc.readings, pc.since, s.clock, later);
      FoundStays(s.history, more, s.primary, s.primary, keys, pc.found, d);
      CheckCurrent(s.history + more, s.primary, keys, pc.missing, pc.i, pc.found, pc.readings, single, pc.since, later, d);
    }
  }

  lemma PrepareStepCurrent(
      c: Clamp, s: State, keys: seq<Slot>, single: bool, pc: Pc, later: Time, after: Snapshot, d: Time)
    requires s.clock <= later && pc.Preparing? && c.minTtl == 0.0
    requires PcCurrent(s.history, s.primary, s.clock, keys, single, pc, d)
    requires PcTimely(ReaderStep(c, s, keys, single, pc, later).0, later, d)
    ensures PcCurrent(s.history + [Snapshot(later, s.primary), after], s.primary, later, keys, single,
                      ReaderStep(c, s, keys, single, pc, later).0, d)
  {
    if Prepare(c, pc.answers, later).Ok? {
      FoundStays(s.history, [Snapshot(later, s.primary), after], s.primary, s.primary, keys, pc.found, d);
      MissesStay(s.primary, s.primary, keys, pc.found, single, s.clock, later);
      AnswersStay(s.primary, s.primary, keys, pc.answers, pc.since, s.clock, later);
      PreparedAreCurrent(c, s.primary, keys, pc.answers, pc.since, later, d);
    }
  }

  lemma FillOneCurrent(
      c: Clamp, s: State, keys: seq<Slot>, single: bool, pc: Pc, later: Time, after: Snapshot, d: Time)
    requires s.clock <= later && pc.Filling?
    requires PcCurrent(s.history, s.primary, s.clock, keys, single, pc, d)
    ensures PcCurrent(s.history + [Snapshot(later, s.primary), after], s.primary, later, keys, single,
                      ReaderStep(c, s, keys, single, pc, later).0, d)
  {
    if pc.i < |pc.entries| {
      FoundStays(s.history, [Snapshot(later, s.primary), after], s.primary, s.primary, keys, pc.found, d);
      MissesStay(s.primary, s.primary, keys, pc.found, single, s.clock, later);
    } else {
      FillStepCurrent(s.history, s.primary, keys, pc.found, single, s.clock, later, after, pc.since, d);
    }
  }

  lemma ReaderStepCurrent(
      c: Clamp, s: State, keys: seq<Slot>, single: bool, pc: Pc, later: Time, after: Snapshot, d: Time)
    requires s.clock <= later && c.minTtl == 0.0 && CacheCurrent(s.primary, s.cache, d)
    requires PcCurrent(s.history, s.primary, s.clock, keys, single, pc, d)
    requires PcTimely(ReaderStep(c, s, keys, single, pc, later).0, later, d)
    ensures PcCurrent(s.history + [Snapshot(later, s.primary), after], s.primary, later, keys, single,
                      ReaderStep(c, s, keys, single, pc, later).0, d)
  {
    if pc.Looking? {
      LookStepCurrent(c, s, keys, single, pc, later, after, d);
    } else if pc.Asking? {
      AskStepCurrent(c, s, keys, single, pc, later, after, d);
    } else if pc.Preparing? {
      PrepareStepCurrent(c, s, keys, single, pc, later, after, d);
    } else if pc.Filling? {
      FillOneCurrent(c, s, keys, single, pc, later, after, d);
    } else if pc.Replied? {
      RepliedStays(s.history, [Snapshot(later, s.primary), after], keys, pc.found, single, pc.at, d);
    }
  }

  // ----- Every serial action keeps the invariant -----

  /** What the primary loses or gains in a step without outside changes is the key that a
      writer writes. */
  lemma PrimaryChanges(c: Clamp, s: State, a: Action, k: Slot)
    requires !a.Outside?
    requires !(a.Run? && a.t in s.tasks && !s.tasks[a.t].goal.Reader? && s.tasks[a.t].pc.Writing?
               && s.tasks[a.t].pc.i < |s.tasks[a.t].goal.keys| && s.tasks[a.t].goal.keys[s.tasks[a.t].pc.i] == k)
    ensures (k in Next(c, s, a).primary <==> k in s.primary)
    ensures k in s.primary ==> Next(c, s, a).primary[k] == s.primary[k]
  {
  }

  lemma PrimaryStays(c: Clamp, s: State, a: Action, t: TaskId)
    requires Serial(s, a) && t in s.tasks && Unfinished(s.tasks[t])
    ensures Agree(s.primary, Next(c, s, a).primary, s.tasks[t].goal.keys)
  {
    forall k | k in s.tasks[t].goal.keys
      ensures (k in Next(c, s, a).primary <==> k in s.primary)
      ensures k in s.primary ==> Next(c, s, a).primary[k] == s.primary[k]
    {
      assert BeingRead(s, k);
      PrimaryChanges(c, s, a, k);
    }
  }

  lemma OtherReaderCurrent(c: Clamp, s: State, a: Action, t: TaskId, d: Time)
    requires Serial(s, a) && TaskCurrent(s, t, d) && !(a.Run? && a.t == t)
    requires t in s.tasks && s.tasks[t].goal.Reader?
    ensures t in Next(c, s, a).tasks && TaskCurrent(Next(c, s, a), t, d)
  {
    OtherTaskStays(c, s, a, t);
    NextShape(c, s, a);
    if Unfinished(s.tasks[t]) {
      PrimaryStays(c, s, a, t);
    }
    PcStays(s.history, Recorded(c, s, a), s.primary, Next(c, s, a).primary, s.clock, s.clock + Elapsed(a),
            s.tasks[t].goal.keys, s.tasks[t].goal.single, s.tasks[t].pc, d);
  }

  lemma OtherTaskStays(c: Clamp, s: State, a: Action, t: TaskId)
    requires t in s.tasks && !(a.Run? && a.t == t)
    ensures t in Next(c, s, a).tasks && Next(c, s, a).tasks[t] == s.tasks[t]
  {
  }

  lemma ReaderIsCurrent(s: State, t: TaskId, k: Task, h: seq<Snapshot>, primary: Table<Slot>, now: Time, d: Time)
    requires k.goal.Reader? && PcCurrent(h, primary, now, k.goal.keys, k.goal.single, k.pc, d)
    requires s.history == h && s.primary == primary && s.clock == now && t in s.tasks && s.tasks[t] == k
    ensures TaskCurrent(s, t, d)
  {
  }

  lemma ReaderWasCurrent(s: State, t: TaskId, d: Time)
    requires t in s.tasks && s.tasks[t].goal.Reader? && TaskCurrent(s, t, d)
    ensures PcCurrent(s.history, s.primary, s.clock, s.tasks[t].goal.keys, s.tasks[t].goal.single, s.tasks[t].pc, d)
  {
  }

  /** A reader's step, seen from the state it leads to. */
  lemma SteppedReaderCurrent(
      c: Clamp, s: State, t: TaskId, later: Time, after: Snapshot, s': State, d: Time)
    requires s.clock <= later && c.minTtl == 0.0 && CacheCurrent(s.primary, s.cache, d)
    requires t in s.tasks && s.tasks[t].goal.Reader? && TaskCurrent(s, t, d)
    requires
      var k := s.tasks[t];
      var pc := ReaderStep(c, s, k.goal.keys, k.goal.single, k.pc, later).0;
      && PcTimely(pc, later, d) && t in s'.tasks && s'.tasks[t] == Task(k.goal, pc)
    requires s'.history == s.history + [Snapshot(later, s.primary), after]
    requires s'.primary == s.primary && s'.clock == later
    ensures TaskCurrent(s', t, d)
  {
    var k := s.tasks[t];
    ReaderWasCurrent(s, t, d);
    ReaderStepCurrent(c, s, k.goal.keys, k.goal.single, k.pc, later, after, d);
    ReaderIsCurrent(s', t, Task(k.goal, ReaderStep(c, s, k.goal.keys, k.goal.single, k.pc, later).0),
                    s.history + [Snapshot(later, s.primary), after], s.primary, later, d);
  }

  lemma RunReaderCurrent(c: Clamp, s: State, a: Action, d: Time)
    requires c.minTtl == 0.0 && CacheCurrent(s.primary, s.cache, d) && Timely(Next(c, s, a), d)
    requires a.Run? && a.t in s.tasks && s.tasks[a.t].goal.Reader? && TaskCurrent(s, a.t, d)
    ensures TaskCurrent(Next(c, s, a), a.t, d)
  {
    var later := s.clock + Elapsed(a);
    RunTimely(c, s, a, d);
    RunShape(c, s, a);
    NextShape(c, s, a);
    ReadersWriteNothing(c, s, a);
    SteppedReaderCurrent(c, s, a.t, later, Snapshot(later, Change(c, s, a).primary), Next(c, s, a), d);
  }

  lemma ReadersWriteNothing(c: Clamp, s: State, a: Action)
    requires a.Run? && a.t in s.tasks && s.tasks[a.t].goal.Reader?
    ensures Next(c, s, a).primary == s.primary
  {
  }

  /** What a reader puts into the cache is one of its prepared entries. */
  lemma FilledCell(c: Clamp, s: State, a: Action, k: Slot)
    requires k in Next(c, s, a).cache && !(k in s.cache && Next(c, s, a).cache[k] == s.cache[k])
    ensures a.Run? && a.t in s.tasks && s.tasks[a.t].goal.Reader? && s.tasks[a.t].pc.Filling?
    ensures
      var pc := s.tasks[a.t].pc;
      pc.i < |pc.entries| && pc.entries[pc.i] == (k, Next(c, s, a).cache[k])
  {
  }

  /** A key that enters the cache is one of its reader's, so nobody is writing it. */
  lemma FilledIsNotWritten(c: Clamp, s: State, a: Action, k: Slot, d: Time)
    requires Serial(s, a) && Current(s, d) && k in Next(c, s, a).cache && k !in s.cache
    ensures !BeingWritten(s, k)
  {
    FilledCell(c, s, a, k);
    assert TaskCurrent(s, a.t, d);
    var pc := s.tasks[a.t].pc;
    assert pc.entries[pc.i].0 in s.tasks[a.t].goal.keys;
    assert Unfinished(s.tasks[a.t]);
  }

  lemma OtherWriterCurrent(c: Clamp, s: State, a: Action, t: TaskId, d: Time)
    requires Serial(s, a) && Current(s, d) && !(a.Run? && a.t == t)
    requires t in s.tasks && !s.tasks[t].goal.Reader?
    ensures t in Next(c, s, a).tasks && TaskCurrent(Next(c, s, a), t, d)
  {
    OtherTaskStays(c, s, a, t);
    assert TaskCurrent(s, t, d);
    if Writes(s.tasks[t]) {
      var keys := s.tasks[t].goal.keys;
      forall j | 0 <= j < |keys| && keys[j] !in s.cache ensures keys[j] !in Next(c, s, a).cache {
        assert BeingWritten(s, keys[j]);
        if keys[j] in Next(c, s, a).cache {
          FilledIsNotWritten(c, s, a, keys[j], d);
        }
      }
    }
  }

  lemma RunWriterShape(c: Clamp, s: State, a: Action)
    requires a.Run? && a.t in s.tasks && !s.tasks[a.t].goal.Reader?
    ensures
      var (pc, primary, cache) := WriterStep(s, s.tasks[a.t].goal, s.tasks[a.t].pc);
      && a.t in Next(c, s, a).tasks && Next(c, s, a).tasks[a.t] == Task(s.tasks[a.t].goal, pc)
      && Next(c, s, a).primary == primary && Next(c, s, a).cache == cache
  {
  }

  lemma RunWriterCurrent(c: Clamp, s: State, a: Action, d: Time)
    requires a.Run? && a.t in s.tasks && !s.tasks[a.t].goal.Reader? && TaskCurrent(s, a.t, d)
    ensures TaskCurrent(Next(c, s, a), a.t, d)
  {
    RunWriterShape(c, s, a);
  }

  lemma NewTaskCurrent(c: Clamp, s: State, a: Action, t: TaskId, d: Time)
    requires t !in s.tasks
    ensures TaskCurrent(Next(c, s, a), t, d)
  {
    if t in Next(c, s, a).tasks {
      SpawnedAtStart(c, s, a, t);
    }
  }

  lemma SpawnedAtStart(c: Clamp, s: State, a: Action, t: TaskId)
    requires t !in s.tasks && t in Next(c, s, a).tasks
    ensures
      var k := Next(c, s, a).tasks[t];
      k.pc == if k.goal.Reader? then Looking(0, map[]) else Dropping(0)
  {
  }

  lemma TaskStaysCurrent(c: Clamp, s: State, a: Action, t: TaskId, d: Time)
    requires c.minTtl == 0.0 && Serial(s, a) && Current(s, d) && Timely(Next(c, s, a), d)
    ensures TaskCurrent(Next(c, s, a), t, d)
  {
    assert TaskCurrent(s, t, d);
    if t !in s.tasks {
      NewTaskCurrent(c, s, a, t, d);
    } else if s.tasks[t].goal.Reader? {
      if a.Run? && a.t == t {
        RunReaderCurrent(c, s, a, d);
      } else {
        OtherReaderCurrent(c, s, a, t, d);
      }
    } else if a.Run? && a.t == t {
      RunWriterCurrent(c, s, a, d);
    } else {
      OtherWriterCurrent(c, s, a, t, d);
    }
  }

  /** A key is out of the cache when it is written in the primary. */
  lemma WrittenIsDropped(c: Clamp, s: State, a: Action, k: Slot, d: Time)
    requires Current(s, d) && k in s.cache && !a.Outside?
    ensures (k in Next(c, s, a).primary <==> k in s.primary)
    ensures k in s.primary ==> Next(c, s, a).primary[k] == s.primary[k]
  {
    if a.Run? && a.t in s.tasks && !s.tasks[a.t].goal.Reader? {
      assert TaskCurrent(s, a.t, d);
    }
    PrimaryChanges(c, s, a, k);
  }

  lemma CellStaysCurrent(c: Clamp, s: State, a: Action, k: Slot, d: Time)
    requires Serial(s, a) && Current(s, d) && k in Next(c, s, a).cache
    ensures CellOk(Next(c, s, a).primary, k, Next(c, s, a).cache[k], d)
  {
    if k in s.cache && Next(c, s, a).cache[k] == s.cache[k] {
      WrittenIsDropped(c, s, a, k, d);
    } else {
      FilledCell(c, s, a, k);
      assert TaskCurrent(s, a.t, d);
      ReadersWriteNothing(c, s, a);
    }
  }

  lemma StaysCurrent(c: Clamp, s: State, a: Action, d: Time)
    requires c.minTtl == 0.0 && Serial(s, a) && Current(s, d) && Timely(Next(c, s, a), d)
    ensures Current(Next(c, s, a), d)
  {
    var s' := Next(c, s, a);
    forall k | k in s'.cache ensures CellOk(s'.primary, k, s'.cache[k], d) {
      CellStaysCurrent(c, s, a, k, d);
    }
    forall t ensures TaskCurrent(s', t, d) {
      TaskStaysCurrent(c, s, a, t, d);
    }
  }

  lemma {:induction false} RunStaysCurrent(
      c: Clamp, start: Time, primary: Table<Slot>, actions: seq<Action>, n: nat, d: Time)
    requires c.minTtl == 0.0 && n <= |actions|
    requires RunsTimely(c, start, primary, actions, d) && RunAllowed(c, start, primary, actions, Serial)
    ensures Current(After(c, start, primary, actions[..n]), d)
  {
    if n > 0 {
      RunStaysCurrent(c, start, primary, actions, n - 1, d);
      assert actions[..n][..n - 1] == actions[..n - 1];
      StaysCurrent(c, After(c, start, primary, actions[..n - 1]), actions[n - 1], d);
    }
  }

  /** In every interleaving that keeps reads and writes of a key apart, a reply is the primary's
      own: at that time the primary stores every value replied with, live or expired less than d
      before the value was picked, and has no live value for any other key that was asked for.
      d bounds the time from a call's first read of the primary to its end, by which a copy in
      the cache can outlive the primary's entry; when reads and fills take no time the values
      are live. */
  lemma SerialReadsAreCurrent(
      maximumTtl: Option<real>, missingTtl: Option<real>, start: Time, primary: Table<Slot>,
      actions: seq<Action>, d: Time, t: TaskId)
    requires RunsTimely(CacheClamp(maximumTtl, missingTtl), start, primary, actions, d)
    requires RunAllowed(CacheClamp(maximumTtl, missingTtl), start, primary, actions, Serial)
    requires
      var s := After(CacheClamp(maximumTtl, missingTtl), start, primary, actions);
      t in s.tasks && s.tasks[t].goal.Reader? && s.tasks[t].pc.Replied?
    ensures
      var k := After(CacheClamp(maximumTtl, missingTtl), start, primary, actions).tasks[t];
      RepliedCurrent(After(CacheClamp(maximumTtl, missingTtl), start, primary, actions).history,
                     k.goal.keys, k.pc.found, k.goal.single, k.pc.at, d)
  {
    var c := CacheClamp(maximumTtl, missingTtl);
    assert actions[..|actions|] == actions;
    RunStaysCurrent(c, start, primary, actions, |actions|, d);
    assert TaskCurrent(After(c, start, primary, actions), t, d);
  }
}
