/** The interleaved store and the sequential one agree: a caller that is not interrupted, from its
    first step to its last, does to both tables what the call does, and replies as the call does. */
module PassthroughAlone {
  import opened Prelude
  import opened TimeToLive
  import opened KeyValue
  import opened BulkOperations
  import opened TtlClamps
  import opened PassthroughSpec
  import opened PassthroughInterleaving
  import opened PassthroughSerial

  // ----- Steps of one task -----

  /** The state after n steps of task t and nothing else, without any time passing. */
  function Alone(c: Clamp, s: State, t: TaskId, n: nat): State {
    if n == 0 then s else Next(c, Alone(c, s, t, n - 1), Run(t, 0.0))
  }

  /** As s, but for the two tables, for where t is, and for what is recorded. */
  predicate IsAt(s: State, s': State, t: TaskId, pc: Pc, tiers: Tiers<Slot>)
    requires t in s.tasks
  {
    && s'.clock == s.clock && s'.primary == tiers.primary && s'.cache == tiers.cache
    && s'.tasks == s.tasks[t := s.tasks[t].(pc := pc)]
  }

  ghost predicate Reaches(c: Clamp, s: State, t: TaskId, pc: Pc, tiers: Tiers<Slot>)
    requires t in s.tasks
  {
    exists n: nat :: IsAt(s, Alone(c, s, t, n), t, pc, tiers)
  }

  lemma StartsThere(c: Clamp, s: State, t: TaskId)
    requires t in s.tasks
    ensures Reaches(c, s, t, s.tasks[t].pc, Tiers(s.primary, s.cache))
  {
    assert Alone(c, s, t, 0) == s;
    assert s.tasks == s.tasks[t := s.tasks[t].(pc := s.tasks[t].pc)];
    assert IsAt(s, Alone(c, s, t, 0), t, s.tasks[t].pc, Tiers(s.primary, s.cache));
  }

  /** What ReaderStep and WriterStep look at. */
  function Before(s: State, tiers: Tiers<Slot>): State {
    s.(primary := tiers.primary, cache := tiers.cache)
  }

  lemma ReaderMoves(c: Clamp, s: State, s1: State, t: TaskId, pc: Pc, tiers: Tiers<Slot>)
    requires t in s.tasks && s.tasks[t].goal.Reader? && IsAt(s, s1, t, pc, tiers)
    ensures
      var goal := s.tasks[t].goal;
      var (pc', cache) := ReaderStep(c, s1, goal.keys, goal.single, pc, s.clock);
      IsAt(s, Next(c, s1, Run(t, 0.0)), t, pc', Tiers(tiers.primary, cache))
  {
  }

  lemma ReaderSteps(c: Clamp, s: State, t: TaskId, pc: Pc, tiers: Tiers<Slot>)
    requires t in s.tasks && s.tasks[t].goal.Reader? && Reaches(c, s, t, pc, tiers)
    ensures
      var goal := s.tasks[t].goal;
      var (pc', cache) := ReaderStep(c, Before(s, tiers), goal.keys, goal.single, pc, s.clock);
      Reaches(c, s, t, pc', Tiers(tiers.primary, cache))
  {
    var n: nat :| IsAt(s, Alone(c, s, t, n), t, pc, tiers);
    var goal, s1 := s.tasks[t].goal, Alone(c, s, t, n);
    SameReaderStep(c, s1, Before(s, tiers), goal.keys, goal.single, pc, s.clock);
    ReaderMoves(c, s, s1, t, pc, tiers);
    assert Alone(c, s, t, n + 1) == Next(c, s1, Run(t, 0.0));
  }

  lemma SameReaderStep(c: Clamp, s: State, s': State, keys: seq<Slot>, single: bool, pc: Pc, later: Time)
    requires s.clock == s'.clock && s.primary == s'.primary && s.cache == s'.cache
    ensures ReaderStep(c, s, keys, single, pc, later) == ReaderStep(c, s', keys, single, pc, later)
  {
  }

  lemma WriterMoves(c: Clamp, s: State, s1: State, t: TaskId, pc: Pc, tiers: Tiers<Slot>)
    requires t in s.tasks && !s.tasks[t].goal.Reader? && IsAt(s, s1, t, pc, tiers)
    ensures
      var (pc', primary, cache) := WriterStep(s1, s.tasks[t].goal, pc);
      IsAt(s, Next(c, s1, Run(t, 0.0)), t, pc', Tiers(primary, cache))
  {
  }

  lemma WriterSteps(c: Clamp, s: State, t: TaskId, pc: Pc, tiers: Tiers<Slot>)
    requires t in s.tasks && !s.tasks[t].goal.Reader? && Reaches(c, s, t, pc, tiers)
    ensures
      var (pc', primary, cache) := WriterStep(Before(s, tiers), s.tasks[t].goal, pc);
      Reaches(c, s, t, pc', Tiers(primary, cache))
  {
    var n: nat :| IsAt(s, Alone(c, s, t, n), t, pc, tiers);
    var s1 := Alone(c, s, t, n);
    SameWriterStep(s1, Before(s, tiers), s.tasks[t].goal, pc);
    WriterMoves(c, s, s1, t, pc, tiers);
    assert Alone(c, s, t, n + 1) == Next(c, s1, Run(t, 0.0));
  }

  lemma SameWriterStep(s: State, s': State, goal: Goal, pc: Pc)
    requires !goal.Reader? && s.primary == s'.primary && s.cache == s'.cache
    ensures WriterStep(s, goal, pc) == WriterStep(s', goal, pc)
  {
  }

  // ----- Writers -----

  lemma {:induction false} DropsAll(c: Clamp, s: State, t: TaskId, i: nat)
    requires t in s.tasks && !s.tasks[t].goal.Reader? && s.tasks[t].pc == Dropping(0) && i <= |s.tasks[t].goal.keys|
    ensures Reaches(c, s, t, Dropping(i), Tiers(s.primary, DeleteAll(s.cache, s.tasks[t].goal.keys[..i])))
  {
    var keys := s.tasks[t].goal.keys;
    if i == 0 {
      StartsThere(c, s, t);
    } else {
      DropsAll(c, s, t, i - 1);
      WriterSteps(c, s, t, Dropping(i - 1), Tiers(s.primary, DeleteAll(s.cache, keys[..i - 1])));
      assert keys[..i][..i - 1] == keys[..i - 1];
    }
  }

  lemma StartsWriting(c: Clamp, s: State, t: TaskId)
    requires t in s.tasks && !s.tasks[t].goal.Reader? && s.tasks[t].pc == Dropping(0)
    ensures Reaches(c, s, t, Writing(0), Tiers(s.primary, DeleteAll(s.cache, s.tasks[t].goal.keys)))
  {
    var keys := s.tasks[t].goal.keys;
    DropsAll(c, s, t, |keys|);
    assert keys[..|keys|] == keys;
    WriterSteps(c, s, t, Dropping(|keys|), Tiers(s.primary, DeleteAll(s.cache, keys)));
  }

  lemma {:induction false} PutsAll(c: Clamp, s: State, t: TaskId, i: nat)
    requires t in s.tasks && s.tasks[t].goal.Putter? && s.tasks[t].pc == Dropping(0)
    requires i <= |s.tasks[t].goal.keys| == |s.tasks[t].goal.entries|
    ensures
      var goal := s.tasks[t].goal;
      Reaches(c, s, t, Writing(i),
              Tiers(PutAll(s.primary, goal.keys[..i], goal.entries[..i]), DeleteAll(s.cache, goal.keys)))
  {
    var goal := s.tasks[t].goal;
    if i == 0 {
      StartsWriting(c, s, t);
    } else {
      PutsAll(c, s, t, i - 1);
      WriterSteps(c, s, t, Writing(i - 1),
                  Tiers(PutAll(s.primary, goal.keys[..i - 1], goal.entries[..i - 1]), DeleteAll(s.cache, goal.keys)));
      assert goal.keys[..i][..i - 1] == goal.keys[..i - 1] && goal.entries[..i][..i - 1] == goal.entries[..i - 1];
    }
  }

  lemma {:induction false} DeletesAll(c: Clamp, s: State, t: TaskId, i: nat)
    requires t in s.tasks && s.tasks[t].goal.Deleter? && s.tasks[t].pc == Dropping(0) && i <= |s.tasks[t].goal.keys|
    ensures
      var keys := s.tasks[t].goal.keys;
      Reaches(c, s, t, Writing(i), Tiers(DeleteAll(s.primary, keys[..i]), DeleteAll(s.cache, keys)))
  {
    var keys := s.tasks[t].goal.keys;
    if i == 0 {
      StartsWriting(c, s, t);
    } else {
      DeletesAll(c, s, t, i - 1);
      WriterSteps(c, s, t, Writing(i - 1), Tiers(DeleteAll(s.primary, keys[..i - 1]), DeleteAll(s.cache, keys)));
      assert keys[..i][..i - 1] == keys[..i - 1];
    }
  }

  lemma WritesBoth(c: Clamp, s: State, t: TaskId)
    requires t in s.tasks && s.tasks[t].goal.Deleter? && s.tasks[t].pc == Dropping(0)
    ensures
      var keys := s.tasks[t].goal.keys;
      Reaches(c, s, t, Written, Tiers(DeleteAll(s.primary, keys), DeleteAll(s.cache, keys)))
  {
    var keys := s.tasks[t].goal.keys;
    DeletesAll(c, s, t, |keys|);
    assert keys[..|keys|] == keys;
    WriterSteps(c, s, t, Writing(|keys|), Tiers(DeleteAll(s.primary, keys), DeleteAll(s.cache, keys)));
  }

  /** A delete that is not interrupted leaves both tables as delete_many leaves them. */
  lemma DeleterAlone(c: Clamp, s: State, t: TaskId)
    requires t in s.tasks && s.tasks[t].goal.Deleter? && s.tasks[t].pc == Dropping(0)
    ensures Reaches(c, s, t, Written,
                    Through(c, Tiers(s.primary, s.cache), DeleteMany(s.tasks[t].goal.keys), s.clock).state)
  {
    WritesBoth(c, s, t);
    DeletedThrough(c, Tiers(s.primary, s.cache), s.tasks[t].goal.keys, s.clock);
  }

  lemma PutThrough(c: Clamp, tiers: Tiers<Slot>, keys: seq<Slot>, values: seq<Dict>, ttl: TtlArg, now: Time)
    requires CountsFit(keys, values, ttl) && PrepareTtls(ttl, |keys|).Ok? && |PrepareTtls(ttl, |keys|).value| == |values|
    ensures |keys| == |values|
    ensures Through(c, tiers, PutMany(keys, values, ttl), now).state
         == Tiers(PutAll(tiers.primary, keys, NewEntries(values, PrepareTtls(ttl, |keys|).value, now)),
                  DeleteAll(tiers.cache, keys))
  {
    var put: Call<Slot> := PutMany(keys, values, ttl);
    assert Step(tiers.primary, put, now).state
        == PutAll(tiers.primary, keys, NewEntries(values, PrepareTtls(ttl, |keys|).value, now));
  }

  /** A put that is not interrupted leaves both tables as put_many leaves them, for the entries that
      put_many makes of its values and TTLs. */
  lemma PutterAlone(c: Clamp, s: State, t: TaskId, values: seq<Dict>, ttl: TtlArg)
    requires t in s.tasks && s.tasks[t].goal.Putter? && s.tasks[t].pc == Dropping(0)
    requires
      var goal := s.tasks[t].goal;
      && CountsFit(goal.keys, values, ttl) && PrepareTtls(ttl, |goal.keys|).Ok?
      && |PrepareTtls(ttl, |goal.keys|).value| == |values|
      && goal.entries == NewEntries(values, PrepareTtls(ttl, |goal.keys|).value, s.clock)
    ensures Reaches(c, s, t, Written,
                    Through(c, Tiers(s.primary, s.cache), PutMany(s.tasks[t].goal.keys, values, ttl), s.clock).state)
  {
    var goal := s.tasks[t].goal;
    var n := |goal.keys|;
    PutThrough(c, Tiers(s.primary, s.cache), goal.keys, values, ttl, s.clock);
    PutsAll(c, s, t, n);
    assert goal.keys[..n] == goal.keys && goal.entries[..n] == goal.entries;
    WriterSteps(c, s, t, Writing(n), Tiers(PutAll(s.primary, goal.keys, goal.entries), DeleteAll(s.cache, goal.keys)));
  }

  // ----- Readers -----

  function SeenIn(cache: Table<Slot>, keys: seq<Slot>): map<Slot, Entry> {
    map k | k in keys && k in cache :: cache[k]
  }

  function ReadingsOf(primary: Table<Slot>, missing: seq<Slot>, now: Time): seq<PrimaryRead> {
    if missing == [] then []
    else
      var n := |missing| - 1;
      ReadingsOf(primary, missing[..n], now)
      + if missing[n] in primary then [PrimaryRead(missing[n], primary[missing[n]], now)] else []
  }

  function WithEntries(cache: Table<Slot>, entries: seq<(Slot, Entry)>): Table<Slot> {
    if entries == [] then cache
    else
      var n := |entries| - 1;
      WithEntries(cache, entries[..n])[entries[n].0 := entries[n].1]
  }

  predicate Starting(s: State, t: TaskId) {
    t in s.tasks && s.tasks[t].goal.Reader? && s.tasks[t].pc == Looking(0, map[])
  }

  lemma {:induction false} LooksAtAll(c: Clamp, s: State, t: TaskId, i: nat)
    requires Starting(s, t) && i <= |s.tasks[t].goal.keys|
    ensures Reaches(c, s, t, Looking(i, SeenIn(s.cache, s.tasks[t].goal.keys[..i])), Tiers(s.primary, s.cache))
  {
    var keys := s.tasks[t].goal.keys;
    if i == 0 {
      StartsThere(c, s, t);
      assert SeenIn(s.cache, keys[..0]) == map[];
    } else {
      LooksAtAll(c, s, t, i - 1);
      ReaderSteps(c, s, t, Looking(i - 1, SeenIn(s.cache, keys[..i - 1])), Tiers(s.primary, s.cache));
      SeenOneMore(s.cache, keys, i);
    }
  }

  lemma SeenOneMore(cache: Table<Slot>, keys: seq<Slot>, i: nat)
    requires 0 < i <= |keys|
    ensures
      var k, seen := keys[i - 1], SeenIn(cache, keys[..i - 1]);
      SeenIn(cache, keys[..i]) == if k in cache then seen[k := cache[k]] else seen - {k}
  {
    assert keys[..i] == keys[..i - 1] + [keys[i - 1]];
  }

  lemma {:induction false} AsksForAll(
      c: Clamp, s: State, t: TaskId, missing: seq<Slot>, found: map<Slot, Pick>, i: nat)
    requires t in s.tasks && s.tasks[t].goal.Reader? && i <= |missing|
    requires Reaches(c, s, t, Asking(missing, 0, found, [], None), Tiers(s.primary, s.cache))
    ensures Reaches(c, s, t, Asking(missing, i, found, ReadingsOf(s.primary, missing[..i], s.clock),
                                    if i == 0 then None else Some(s.clock)), Tiers(s.primary, s.cache))
  {
    if i > 0 {
      AsksForAll(c, s, t, missing, found, i - 1);
      var readings := ReadingsOf(s.primary, missing[..i - 1], s.clock);
      AsksOnce(c, s, t, missing, found, i - 1, readings, if i == 1 then None else Some(s.clock));
      assert missing[..i][..i - 1] == missing[..i - 1];
    }
  }

  lemma AsksOnce(
      c: Clamp, s: State, t: TaskId, missing: seq<Slot>, found: map<Slot, Pick>, i: nat, readings: seq<PrimaryRead>,
      since: Option<Time>)
    requires t in s.tasks && s.tasks[t].goal.Reader? && i < |missing|
    requires since.None? || since == Some(s.clock)
    requires Reaches(c, s, t, Asking(missing, i, found, readings, since), Tiers(s.primary, s.cache))
    ensures
      var k := missing[i];
      var more := if k in s.primary then [PrimaryRead(k, s.primary[k], s.clock)] else [];
      Reaches(c, s, t, Asking(missing, i + 1, found, readings + more, Some(s.clock)), Tiers(s.primary, s.cache))
  {
    var goal, before := s.tasks[t].goal, Before(s, Tiers(s.primary, s.cache));
    AskStep(c, before, goal.keys, goal.single, missing, found, i, readings, since);
    ReaderSteps(c, s, t, Asking(missing, i, found, readings, since), Tiers(s.primary, s.cache));
  }

  lemma AskStep(
      c: Clamp, s: State, keys: seq<Slot>, single: bool, missing: seq<Slot>, found: map<Slot, Pick>, i: nat,
      readings: seq<PrimaryRead>, since: Option<Time>)
    requires i < |missing| && (since.None? || since == Some(s.clock))
    ensures
      var k := missing[i];
      var more := if k in s.primary then [PrimaryRead(k, s.primary[k], s.clock)] else [];
      ReaderStep(c, s, keys, single, Asking(missing, i, found, readings, since), s.clock)
      == (Asking(missing, i + 1, found, readings + more, Some(s.clock)), s.cache)
  {
  }

  lemma {:induction false} FillsAll(
      c: Clamp, s: State, t: TaskId, entries: seq<(Slot, Entry)>, found: map<Slot, Pick>, since: Option<Time>, i: nat)
    requires t in s.tasks && s.tasks[t].goal.Reader? && i <= |entries|
    requires Reaches(c, s, t, Filling(entries, 0, found, since), Tiers(s.primary, s.cache))
    ensures Reaches(c, s, t, Filling(entries, i, found, since), Tiers(s.primary, WithEntries(s.cache, entries[..i])))
  {
    if i > 0 {
      FillsAll(c, s, t, entries, found, since, i - 1);
      ReaderSteps(c, s, t, Filling(entries, i - 1, found, since),
                  Tiers(s.primary, WithEntries(s.cache, entries[..i - 1])));
      assert entries[..i][..i - 1] == entries[..i - 1];
    }
  }

  /** The cache answers k, for this kind of read. */
  predicate Hit(s: State, single: bool, k: Slot) {
    k in s.cache && Usable(s.cache[k], single, s.clock)
  }

  /** The primary has to answer k, and does. */
  predicate Asked(s: State, single: bool, k: Slot) {
    !Hit(s, single, k) && k in s.primary && Usable(s.primary[k], single, s.clock)
  }

  function HitsIn(s: State, keys: seq<Slot>, single: bool): map<Slot, Pick> {
    map k | k in keys && Hit(s, single, k) :: Pick(s.cache[k].value, s.clock, true)
  }

  function AnswersIn(s: State, keys: seq<Slot>, single: bool): seq<PrimaryRead> {
    Answers(ReadingsOf(s.primary, Missing(keys, HitsIn(s, keys, single)), s.clock), single, s.clock)
  }

  /** From the start to the entries being prepared. */
  lemma ReadsBothTiers(c: Clamp, s: State, t: TaskId)
    requires Starting(s, t)
    ensures
      var goal := s.tasks[t].goal;
      var found, answers := HitsIn(s, goal.keys, goal.single), AnswersIn(s, goal.keys, goal.single);
      if goal.single && found != map[] then Reaches(c, s, t, Replied(found, None, s.clock), Tiers(s.primary, s.cache))
      else exists since ::
        Reaches(c, s, t, Preparing(Picks(found, answers), answers, since), Tiers(s.primary, s.cache))
  {
    var goal := s.tasks[t].goal;
    var keys, tiers := goal.keys, Tiers(s.primary, s.cache);
    LooksAtAll(c, s, t, |keys|);
    assert keys[..|keys|] == keys;
    var seen, found := SeenIn(s.cache, keys), HitsIn(s, keys, goal.single);
    ReaderSteps(c, s, t, Looking(|keys|, seen), tiers);
    assert Hits(seen, goal.single, s.clock) == found;
    if !(goal.single && found != map[]) {
      var since := AsksAndChecks(c, s, t, Missing(keys, found), found);
      var answers := AnswersIn(s, keys, goal.single);
      assert Reaches(c, s, t, Preparing(Picks(found, answers), answers, since), tiers);
    }
  }

  lemma AsksAndChecks(c: Clamp, s: State, t: TaskId, missing: seq<Slot>, found: map<Slot, Pick>)
    returns (since: Option<Time>)
    requires t in s.tasks && s.tasks[t].goal.Reader?
    requires Reaches(c, s, t, Asking(missing, 0, found, [], None), Tiers(s.primary, s.cache))
    ensures
      var answers := Answers(ReadingsOf(s.primary, missing, s.clock), s.tasks[t].goal.single, s.clock);
      Reaches(c, s, t, Preparing(Picks(found, answers), answers, since), Tiers(s.primary, s.cache))
  {
    var readings := ReadingsOf(s.primary, missing, s.clock);
    var answers := Answers(readings, s.tasks[t].goal.single, s.clock);
    AsksForAll(c, s, t, missing, found, |missing|);
    assert missing[..|missing|] == missing;
    since := if |missing| == 0 then None else Some(s.clock);
    ReaderSteps(c, s, t, Asking(missing, |missing|, found, readings, since), Tiers(s.primary, s.cache));
  }

  lemma {:induction false} ReadingsMean(primary: Table<Slot>, missing: seq<Slot>, now: Time)
    ensures forall r | r in ReadingsOf(primary, missing, now) ::
      r.slot in missing && r.slot in primary && r == PrimaryRead(r.slot, primary[r.slot], now)
    ensures forall k | k in missing && k in primary ::
      PrimaryRead(k, primary[k], now) in ReadingsOf(primary, missing, now)
  {
    if missing != [] {
      var n := |missing| - 1;
      ReadingsMean(primary, missing[..n], now);
      assert missing == missing[..n] + [missing[n]];
      forall k | k in missing && k in primary
        ensures PrimaryRead(k, primary[k], now) in ReadingsOf(primary, missing, now)
      {
        if k !in missing[..n] {
          assert k == missing[n];
        }
      }
    }
  }

  lemma AnswersInMean(s: State, keys: seq<Slot>, single: bool)
    ensures forall r | r in AnswersIn(s, keys, single) ::
      r.slot in keys && Asked(s, single, r.slot) && r == PrimaryRead(r.slot, s.primary[r.slot], s.clock)
    ensures forall k | k in keys && Asked(s, single, k) ::
      PrimaryRead(k, s.primary[k], s.clock) in AnswersIn(s, keys, single)
  {
    var missing := Missing(keys, HitsIn(s, keys, single));
    MissingMeans(keys, HitsIn(s, keys, single));
    ReadingsMean(s.primary, missing, s.clock);
    AnswersMean(ReadingsOf(s.primary, missing, s.clock), single, s.clock);
    forall k | k in keys && Asked(s, single, k)
      ensures PrimaryRead(k, s.primary[k], s.clock) in AnswersIn(s, keys, single)
    {
      assert k in missing;
    }
    forall r | r in AnswersIn(s, keys, single) ensures r.slot in keys && Asked(s, single, r.slot) {
      assert r in ReadingsOf(s.primary, missing, s.clock);
    }
  }

  /** What a reader has found at the end. */
  function FoundIn(s: State, keys: seq<Slot>, single: bool): map<Slot, Pick> {
    map k | k in keys && (Hit(s, single, k) || Asked(s, single, k)) ::
      if Hit(s, single, k) then Pick(s.cache[k].value, s.clock, true) else Pick(s.primary[k].value, s.clock, false)
  }

  lemma HasReadingIff(s: State, keys: seq<Slot>, single: bool, k: Slot)
    ensures HasReading(AnswersIn(s, keys, single), k) <==> k in keys && Asked(s, single, k)
  {
    AnswersInMean(s, keys, single);
    var answers := AnswersIn(s, keys, single);
    if k in keys && Asked(s, single, k) {
      var r := PrimaryRead(k, s.primary[k], s.clock);
      var j :| 0 <= j < |answers| && answers[j] == r;
    }
  }

  lemma PicksAreFound(s: State, keys: seq<Slot>, single: bool)
    ensures Picks(HitsIn(s, keys, single), AnswersIn(s, keys, single)) == FoundIn(s, keys, single)
  {
    var hits, answers := HitsIn(s, keys, single), AnswersIn(s, keys, single);
    PicksMean(hits, answers);
    forall k ensures k in Picks(hits, answers) <==> k in FoundIn(s, keys, single) {
      HasReadingIff(s, keys, single, k);
    }
    forall k | k in FoundIn(s, keys, single) ensures Picks(hits, answers)[k] == FoundIn(s, keys, single)[k] {
      PickIsFound(s, keys, single, k);
    }
  }

  lemma PickIsFound(s: State, keys: seq<Slot>, single: bool, k: Slot)
    requires k in FoundIn(s, keys, single) && k in Picks(HitsIn(s, keys, single), AnswersIn(s, keys, single))
    ensures Picks(HitsIn(s, keys, single), AnswersIn(s, keys, single))[k] == FoundIn(s, keys, single)[k]
  {
    var hits, answers := HitsIn(s, keys, single), AnswersIn(s, keys, single);
    PicksMean(hits, answers);
    AnswersInMean(s, keys, single);
    if j :| 0 <= j < |answers| && answers[j].slot == k
            && Picks(hits, answers)[k] == Pick(answers[j].entry.value, answers[j].at, false) {
      assert answers[j] in answers;
    }
  }

  /** Preparing succeeds exactly when each fill does, and then has each of them. */
  lemma {:induction false} PreparedEach(c: Clamp, answers: seq<PrimaryRead>, now: Time)
    ensures Prepare(c, answers, now).Ok? <==> forall r | r in answers :: FillFrom(c, r.entry, r.at, now).Ok?
    ensures Prepare(c, answers, now).Ok? ==>
      var entries := Prepare(c, answers, now).value;
      && |entries| == |answers|
      && forall j | 0 <= j < |answers| ::
        && FillFrom(c, answers[j].entry, answers[j].at, now).Ok?
        && entries[j] == (answers[j].slot, FillFrom(c, answers[j].entry, answers[j].at, now).value)
  {
    if answers != [] {
      var n := |answers| - 1;
      PreparedEach(c, answers[..n], now);
      assert answers == answers[..n] + [answers[n]];
    }
  }

  lemma {:induction false} WithEntriesMeans(cache: Table<Slot>, entries: seq<(Slot, Entry)>)
    ensures forall k :: k in WithEntries(cache, entries) <==>
      k in cache || exists j :: 0 <= j < |entries| && entries[j].0 == k
    ensures forall k | k in WithEntries(cache, entries) ::
      || (k in cache && WithEntries(cache, entries)[k] == cache[k] && forall j | 0 <= j < |entries| :: entries[j].0 != k)
      || (exists j :: 0 <= j < |entries| && entries[j].0 == k && WithEntries(cache, entries)[k] == entries[j].1)
  {
    if entries != [] {
      var n := |entries| - 1;
      WithEntriesMeans(cache, entries[..n]);
    }
  }

  /** Some fill raises. */
  ghost predicate Fails(c: Clamp, s: State, keys: seq<Slot>, single: bool) {
    exists k | k in keys :: Asked(s, single, k) && FillEntry(c, s.primary[k], s.clock).Err?
  }

  /** The cache with a copy of everything that had to be asked for. */
  function CacheFilled(c: Clamp, s: State, keys: seq<Slot>, single: bool): Table<Slot>
    requires !Fails(c, s, keys, single)
  {
    s.cache + map k | k in keys && Asked(s, single, k) :: FillEntry(c, s.primary[k], s.clock).value
  }

  lemma PreparedIn(c: Clamp, s: State, keys: seq<Slot>, single: bool)
    ensures
      var prepared := Prepare(c, AnswersIn(s, keys, single), s.clock);
      && (prepared.Ok? <==> !Fails(c, s, keys, single))
      && (prepared.Ok? ==> WithEntries(s.cache, prepared.value) == CacheFilled(c, s, keys, single))
  {
    var answers := AnswersIn(s, keys, single);
    AnswersInMean(s, keys, single);
    PreparedEach(c, answers, s.clock);
    if Fails(c, s, keys, single) {
      var k :| k in keys && Asked(s, single, k) && FillEntry(c, s.primary[k], s.clock).Err?;
      assert PrimaryRead(k, s.primary[k], s.clock) in answers;
    } else {
      EntriesFillTheCache(c, s, keys, single);
    }
  }

  lemma FilledBy(cache: Table<Slot>, entries: seq<(Slot, Entry)>, filled: Table<Slot>)
    requires forall j | 0 <= j < |entries| :: entries[j].0 in filled && entries[j].1 == filled[entries[j].0]
    requires forall k | k in filled :: exists j :: 0 <= j < |entries| && entries[j].0 == k
    ensures WithEntries(cache, entries) == cache + filled
  {
    WithEntriesMeans(cache, entries);
  }

  lemma EntriesFillTheCache(c: Clamp, s: State, keys: seq<Slot>, single: bool)
    requires !Fails(c, s, keys, single) && Prepare(c, AnswersIn(s, keys, single), s.clock).Ok?
    ensures WithEntries(s.cache, Prepare(c, AnswersIn(s, keys, single), s.clock).value)
         == CacheFilled(c, s, keys, single)
  {
    EntriesAreCopies(c, s, keys, single);
    var filled := map k | k in keys && Asked(s, single, k) :: FillEntry(c, s.primary[k], s.clock).value;
    FilledBy(s.cache, Prepare(c, AnswersIn(s, keys, single), s.clock).value, filled);
  }

  lemma EntriesAreCopies(c: Clamp, s: State, keys: seq<Slot>, single: bool)
    requires !Fails(c, s, keys, single) && Prepare(c, AnswersIn(s, keys, single), s.clock).Ok?
    ensures
      var entries := Prepare(c, AnswersIn(s, keys, single), s.clock).value;
      && (forall j | 0 <= j < |entries| ::
            && entries[j].0 in keys && Asked(s, single, entries[j].0)
            && entries[j].1 == FillEntry(c, s.primary[entries[j].0], s.clock).value)
      && (forall k | k in keys && Asked(s, single, k) :: exists j :: 0 <= j < |entries| && entries[j].0 == k)
  {
    var answers := AnswersIn(s, keys, single);
    var entries := Prepare(c, answers, s.clock).value;
    AnswersInMean(s, keys, single);
    PreparedEach(c, answers, s.clock);
    forall j | 0 <= j < |entries|
      ensures entries[j].0 in keys && Asked(s, single, entries[j].0)
      ensures entries[j].1 == FillEntry(c, s.primary[entries[j].0], s.clock).value
    {
      assert answers[j] in answers;
    }
    forall k | k in keys && Asked(s, single, k) ensures exists j :: 0 <= j < |entries| && entries[j].0 == k {
      HasReadingIff(s, keys, single, k);
      var j :| 0 <= j < |answers| && answers[j].slot == k;
      assert entries[j].0 == k;
    }
  }

  /** A read that is not interrupted: it raises when some fill does, and else replies with what it
      found in either tier and leaves copies of what it had to ask for. A single read that hits the
      cache stops there. */
  lemma ReaderAlone(c: Clamp, s: State, t: TaskId)
    requires Starting(s, t)
    ensures
      var goal := s.tasks[t].goal;
      var hits := HitsIn(s, goal.keys, goal.single);
      if goal.single && hits != map[] then Reaches(c, s, t, Replied(hits, None, s.clock), Tiers(s.primary, s.cache))
      else if Fails(c, s, goal.keys, goal.single) then Reaches(c, s, t, FillRaised, Tiers(s.primary, s.cache))
      else exists since ::
        Reaches(c, s, t, Replied(FoundIn(s, goal.keys, goal.single), since, s.clock),
                Tiers(s.primary, CacheFilled(c, s, goal.keys, goal.single)))
  {
    var goal := s.tasks[t].goal;
    var found, answers := FoundIn(s, goal.keys, goal.single), AnswersIn(s, goal.keys, goal.single);
    ReadsBothTiers(c, s, t);
    if !(goal.single && HitsIn(s, goal.keys, goal.single) != map[]) {
      PicksAreFound(s, goal.keys, goal.single);
      PreparedIn(c, s, goal.keys, goal.single);
      var since :| Reaches(c, s, t, Preparing(found, answers, since), Tiers(s.primary, s.cache));
      ReaderSteps(c, s, t, Preparing(found, answers, since), Tiers(s.primary, s.cache));
      if !Fails(c, s, goal.keys, goal.single) {
        FillsAndReplies(c, s, t, Prepare(c, answers, s.clock).value, found, since);
        assert Reaches(c, s, t, Replied(found, since, s.clock),
                       Tiers(s.primary, CacheFilled(c, s, goal.keys, goal.single)));
      }
    }
  }

  lemma FillsAndReplies(
      c: Clamp, s: State, t: TaskId, entries: seq<(Slot, Entry)>, found: map<Slot, Pick>, since: Option<Time>)
    requires t in s.tasks && s.tasks[t].goal.Reader?
    requires Reaches(c, s, t, Filling(entries, 0, found, since), Tiers(s.primary, s.cache))
    ensures Reaches(c, s, t, Replied(found, since, s.clock), Tiers(s.primary, WithEntries(s.cache, entries)))
  {
    FillsAll(c, s, t, entries, found, since, |entries|);
    assert entries[..|entries|] == entries;
    ReaderSteps(c, s, t, Filling(entries, |entries|, found, since), Tiers(s.primary, WithEntries(s.cache, entries)));
  }

  // ----- As the calls -----

  /** The reader ends with these tables, and with these values for its keys. */
  ghost predicate RepliesWith(
      c: Clamp, s: State, t: TaskId, tiers: Tiers<Slot>, keys: seq<Slot>, values: seq<Option<Dict>>)
    requires t in s.tasks
  {
    |values| == |keys|
    && exists found: map<Slot, Pick>, since: Option<Time> ::
      && Reaches(c, s, t, Replied(found, since, s.clock), tiers)
      && forall i | 0 <= i < |keys| :: values[i] == if keys[i] in found then Some(found[keys[i]].value) else None
  }

  lemma BulkOutcome(c: Clamp, s: State, keys: seq<Slot>)
    ensures
      var outcome := Through(c, Tiers(s.primary, s.cache), GetMany(keys), s.clock);
      if Fails(c, s, keys, false) then outcome.reply.Raised? && outcome.state == Tiers(s.primary, s.cache)
      else
        && outcome.state == Tiers(s.primary, CacheFilled(c, s, keys, false))
        && outcome.reply == GotMany(ValuesOf(ServedAll(Tiers(s.primary, s.cache), keys, s.clock)))
  {
    AskedIffNeeded(c, s, keys);
  }

  lemma AskedIffNeeded(c: Clamp, s: State, keys: seq<Slot>)
    ensures
      var tiers := Tiers(s.primary, s.cache);
      && (Fails(c, s, keys, false) <==> FillsFail(c, tiers, keys, s.clock))
      && (!Fails(c, s, keys, false) ==> CacheFilled(c, s, keys, false) == Filled(c, tiers, keys, s.clock))
  {
    var tiers := Tiers(s.primary, s.cache);
    forall k ensures Asked(s, false, k) <==> NeedsFill(tiers, k, s.clock) {
    }
  }

  lemma FoundIsServed(s: State, keys: seq<Slot>, k: Slot)
    requires k in keys
    ensures
      var found := FoundIn(s, keys, false);
      Served(Tiers(s.primary, s.cache), k, s.clock).value == if k in found then Some(found[k].value) else None
  {
  }

  /** A bulk read that is not interrupted does what get_many does. */
  lemma BulkReaderAlone(c: Clamp, s: State, t: TaskId)
    requires Starting(s, t) && !s.tasks[t].goal.single
    ensures
      var keys := s.tasks[t].goal.keys;
      var outcome := Through(c, Tiers(s.primary, s.cache), GetMany(keys), s.clock);
      if outcome.reply.Raised? then Reaches(c, s, t, FillRaised, outcome.state)
      else outcome.reply.GotMany? && RepliesWith(c, s, t, outcome.state, keys, outcome.reply.values)
  {
    var keys := s.tasks[t].goal.keys;
    ReaderAlone(c, s, t);
    BulkOutcome(c, s, keys);
    if !Fails(c, s, keys, false) {
      var found := FoundIn(s, keys, false);
      var since :| Reaches(c, s, t, Replied(found, since, s.clock), Tiers(s.primary, CacheFilled(c, s, keys, false)));
      var values := ValuesOf(ServedAll(Tiers(s.primary, s.cache), keys, s.clock));
      forall i | 0 <= i < |keys| ensures values[i] == if keys[i] in found then Some(found[keys[i]].value) else None {
        FoundIsServed(s, keys, keys[i]);
      }
    }
  }

  /** What get answers and does, by the case it meets. */
  lemma GetOutcome(c: Clamp, s: State, k: Slot)
    ensures
      var outcome := Through(c, Tiers(s.primary, s.cache), Get(k), s.clock);
      if Hit(s, true, k) then outcome == Outcome(Tiers(s.primary, s.cache), Got(Some(s.cache[k].value)))
      else if !Asked(s, true, k) then outcome == Outcome(Tiers(s.primary, s.cache), Got(None))
      else
        match FillEntry(c, s.primary[k], s.clock)
        case Err(_) => outcome.reply.Raised? && outcome.state == Tiers(s.primary, s.cache)
        case Ok(e) => outcome == Outcome(Tiers(s.primary, s.cache[k := e]), Got(Some(s.primary[k].value)))
  {
  }

  /** A single read that is not interrupted does what get does. */
  lemma SingleReaderAlone(c: Clamp, s: State, t: TaskId, k: Slot)
    requires Starting(s, t) && s.tasks[t].goal == Reader([k], true)
    ensures
      var outcome := Through(c, Tiers(s.primary, s.cache), Get(k), s.clock);
      if outcome.reply.Raised? then Reaches(c, s, t, FillRaised, outcome.state)
      else outcome.reply.Got? && RepliesWith(c, s, t, outcome.state, [k], [outcome.reply.value])
  {
    GetOutcome(c, s, k);
    ReaderAlone(c, s, t);
    var hits, found := HitsIn(s, [k], true), FoundIn(s, [k], true);
    if Hit(s, true, k) {
      assert k in hits;
      assert Reaches(c, s, t, Replied(hits, None, s.clock), Tiers(s.primary, s.cache));
    } else {
      assert hits == map[];
      assert Fails(c, s, [k], true) <==> Asked(s, true, k) && FillEntry(c, s.primary[k], s.clock).Err?;
      if !Fails(c, s, [k], true) {
        var since :| Reaches(c, s, t, Replied(found, since, s.clock), Tiers(s.primary, CacheFilled(c, s, [k], true)));
        OneFilled(c, s, k);
      }
    }
  }

  lemma OneFilled(c: Clamp, s: State, k: Slot)
    requires !Fails(c, s, [k], true)
    ensures CacheFilled(c, s, [k], true)
         == if Asked(s, true, k) then s.cache[k := FillEntry(c, s.primary[k], s.clock).value] else s.cache
  {
    assert k in [k];
  }

  // ----- Repeated keys -----

  /** The n-th action is the look of task t at its p-th key. */
  ghost predicate LooksAt(
      c: Clamp, start: Time, primary: Table<Slot>, actions: seq<Action>, n: nat, t: TaskId, p: nat)
    requires n < |actions|
  {
    && actions[n].Run? && actions[n].t == t
    && var s := After(c, start, primary, actions[..n]);
       t in s.tasks && s.tasks[t].goal.Reader? && s.tasks[t].pc.Looking? && s.tasks[t].pc.i == p
  }

  /** On every run, what a reader has seen of a key that it asked the cache for more than once is
      what was there at its last look. */
  lemma {:induction false} SeenAtTheLastLook(
      c: Clamp, start: Time, primary: Table<Slot>, actions: seq<Action>, m: nat, t: TaskId, p: nat) returns (n: nat)
    requires m <= |actions| && t in After(c, start, primary, actions[..m]).tasks
    requires
      var k := After(c, start, primary, actions[..m]).tasks[t];
      && k.goal.Reader? && k.pc.Looking? && p < k.pc.i && p < |k.goal.keys|
      && forall q | p < q < k.pc.i && q < |k.goal.keys| :: k.goal.keys[q] != k.goal.keys[p]
    ensures n < m && LooksAt(c, start, primary, actions, n, t, p)
    ensures
      var k := After(c, start, primary, actions[..m]).tasks[t];
      var slot, cache := k.goal.keys[p], After(c, start, primary, actions[..n]).cache;
      (slot in k.pc.seen <==> slot in cache) && (slot in cache ==> k.pc.seen[slot] == cache[slot])
  {
    assert m > 0 && actions[..m][..m - 1] == actions[..m - 1];
    var s, a := After(c, start, primary, actions[..m - 1]), actions[m - 1];
    assert After(c, start, primary, actions[..m]) == Next(c, s, a);
    CameFrom(c, s, a, t);
    if a.Run? && a.t == t && s.tasks[t].pc.i == p {
      n := m - 1;
    } else {
      n := SeenAtTheLastLook(c, start, primary, actions, m - 1, t, p);
    }
  }

  /** What a look has changed. */
  ghost predicate Looked(before: Pc, after: Pc, k: Slot, cache: Table<Slot>)
    requires before.Looking? && after.Looking?
  {
    && after.i == before.i + 1
    && (k in after.seen <==> k in cache) && (k in cache ==> after.seen[k] == cache[k])
    && forall k' | k' != k ::
      (k' in after.seen <==> k' in before.seen) && (k' in before.seen ==> after.seen[k'] == before.seen[k'])
  }

  lemma CameFrom(c: Clamp, s: State, a: Action, t: TaskId)
    requires t in Next(c, s, a).tasks
    requires
      var k := Next(c, s, a).tasks[t];
      k.goal.Reader? && k.pc.Looking? && k.pc.i > 0
    ensures
      var k := Next(c, s, a).tasks[t];
      && t in s.tasks && s.tasks[t].goal == k.goal && s.tasks[t].pc.Looking?
      && if a.Run? && a.t == t then
           s.tasks[t].pc.i < |k.goal.keys| && Looked(s.tasks[t].pc, k.pc, k.goal.keys[s.tasks[t].pc.i], s.cache)
         else s.tasks[t] == k
  {
    if t !in s.tasks {
      SpawnedAtStart(c, s, a, t);
    } else if !(a.Run? && a.t == t) {
      OtherTaskStays(c, s, a, t);
    } else {
      GoalsUnchanged(c, s, a);
      RunShape(c, s, a);
      LookStepMeans(c, s, s.tasks[t].goal.keys, s.tasks[t].goal.single, s.tasks[t].pc, s.clock + Elapsed(a));
    }
  }

  lemma LookStepMeans(c: Clamp, s: State, keys: seq<Slot>, single: bool, pc: Pc, later: Time)
    requires ReaderStep(c, s, keys, single, pc, later).0.Looking?
    ensures pc.Looking? && pc.i < |keys|
    ensures Looked(pc, ReaderStep(c, s, keys, single, pc, later).0, keys[pc.i], s.cache)
  {
  }

  /** The first place of a among the keys is before any place of b. */
  ghost predicate ComesBefore(keys: seq<Slot>, a: Slot, b: Slot) {
    exists p | 0 <= p < |keys| :: keys[p] == a && b !in keys[..p + 1]
  }

  /** The primary is asked for the missing keys in the order in which they are named first. */
  lemma {:induction false} MissingInOrder(keys: seq<Slot>, found: map<Slot, Pick>, i: nat, j: nat)
    requires i < j < |Missing(keys, found)|
    ensures ComesBefore(keys, Missing(keys, found)[i], Missing(keys, found)[j])
  {
    var n := |keys| - 1;
    var before := Missing(keys[..n], found);
    if j < |before| {
      MissingInOrder(keys[..n], found, i, j);
      var p :| 0 <= p < n && keys[..n][p] == before[i] && before[j] !in keys[..n][..p + 1];
      assert keys[..n][..p + 1] == keys[..p + 1];
    } else {
      MissingMeans(keys[..n], found);
      assert before[i] in before;
      var p :| 0 <= p < n && keys[..n][p] == before[i];
      assert keys[n] !in keys[..n];
      assert forall x | x in keys[..p + 1] :: x in keys[..n];
    }
  }
}
