/** What an interleaved reader puts into the cache, and when its fill raises. The TTL is computed
    when the primary is read, checked when all its answers are there, and counted from the fill. */
module PassthroughFills {
  import opened Prelude
  import opened TimeToLive
  import opened ManagedEntries
  import opened KeyValue
  import opened TtlClamps
  import opened PassthroughSpec
  import opened PassthroughInterleaving
  import opened PassthroughSerial
  import opened PassthroughRuns
  import opened PassthroughWitnesses

  // ----- What is prepared -----

  /** The answers had not expired when they were read. */
  predicate Fresh(answers: seq<PrimaryRead>) {
    forall j | 0 <= j < |answers| :: !ExpiredAt(answers[j].entry.expires, answers[j].at)
  }

  /** When the copy of an entry read at `read` is gone, filled in at `now`. */
  function GoneAt(c: Clamp, e: Entry, read: Time, now: Time): Time
    requires c.missingTtl.Some?
  {
    now + if e.expires.Some? then Min(e.expires.value - read, c.maxTtl) else c.missingTtl.value
  }

  ghost predicate ExactCopies(c: Clamp, answers: seq<PrimaryRead>, entries: seq<(Slot, Entry)>, now: Time)
    requires c.missingTtl.Some?
  {
    && |entries| == |answers|
    && forall j | 0 <= j < |answers| ::
      entries[j] == (answers[j].slot,
                     Entry(answers[j].entry.value, Some(now), Some(GoneAt(c, answers[j].entry, answers[j].at, now))))
  }

  lemma {:induction false} PreparedExactly(c: Clamp, answers: seq<PrimaryRead>, now: Time)
    requires Positive(c) && Fresh(answers)
    ensures Prepare(c, answers, now).Ok? && ExactCopies(c, answers, Prepare(c, answers, now).value, now)
  {
    if answers != [] {
      PreparedExactly(c, answers[..|answers| - 1], now);
    }
  }

  // ----- On every run -----

  ghost predicate PcFresh(pc: Pc, now: Time) {
    match pc
    case Asking(_, _, _, readings, _) => forall j | 0 <= j < |readings| :: readings[j].at <= now
    case Preparing(_, answers, _) => Fresh(answers)
    case FillRaised => false
    case _ => true
  }

  ghost predicate TaskFresh(s: State, t: TaskId) {
    t in s.tasks && s.tasks[t].goal.Reader? ==> PcFresh(s.tasks[t].pc, s.clock)
  }

  lemma CheckedAreFresh(readings: seq<PrimaryRead>, single: bool, later: Time)
    requires forall j | 0 <= j < |readings| :: readings[j].at <= later
    ensures Fresh(Answers(readings, single, later))
  {
    AnswersMean(readings, single, later);
    var answers := Answers(readings, single, later);
    forall j | 0 <= j < |answers| ensures !ExpiredAt(answers[j].entry.expires, answers[j].at) {
      assert answers[j] in readings;
    }
  }

  lemma ReaderStepFresh(c: Clamp, s: State, keys: seq<Slot>, single: bool, pc: Pc, later: Time)
    requires Positive(c) && s.clock <= later && PcFresh(pc, s.clock)
    ensures PcFresh(ReaderStep(c, s, keys, single, pc, later).0, later)
  {
    if pc.Asking? && pc.i >= |pc.missing| {
      CheckedAreFresh(pc.readings, single, later);
    } else if pc.Preparing? {
      PreparedExactly(c, pc.answers, later);
    }
  }

  lemma TaskStaysFresh(c: Clamp, s: State, a: Action, t: TaskId)
    requires Positive(c) && TaskFresh(s, t)
    ensures TaskFresh(Next(c, s, a), t)
  {
    NextShape(c, s, a);
    if t !in s.tasks {
      if t in Next(c, s, a).tasks {
        SpawnedAtStart(c, s, a, t);
      }
    } else if !(a.Run? && a.t == t) {
      OtherTaskStays(c, s, a, t);
    } else if s.tasks[t].goal.Reader? {
      var k := s.tasks[t];
      ReaderStepFresh(c, s, k.goal.keys, k.goal.single, k.pc, s.clock + Elapsed(a));
      RunShape(c, s, a);
    } else {
      RunWriterShape(c, s, a);
    }
  }

  lemma {:induction false} TasksAreFresh(c: Clamp, start: Time, primary: Table<Slot>, actions: seq<Action>, t: TaskId)
    requires Positive(c)
    ensures TaskFresh(After(c, start, primary, actions), t)
  {
    if actions != [] {
      var n := |actions| - 1;
      TasksAreFresh(c, start, primary, actions[..n], t);
      TaskStaysFresh(c, After(c, start, primary, actions[..n]), actions[n], t);
    }
  }

  /** In every interleaving a reader that is about to fill the cache goes on to fill it, with
      exact copies of its answers: however long it took, each keeps its value and is gone
      min(remaining when read, m) after the fill, or n after it, where m is maximum_ttl and n
      missing_ttl. */
  lemma FillsAreExact(
      maximumTtl: Option<real>, missingTtl: Option<real>, m: real, n: real, start: Time, primary: Table<Slot>,
      actions: seq<Action>, t: TaskId, drift: Time)
    requires LimitsNotNegative(maximumTtl, missingTtl) && IsLimit(maximumTtl, m) && IsLimit(missingTtl, n)
    requires
      var s := After(CacheClamp(maximumTtl, missingTtl), start, primary, actions);
      t in s.tasks && s.tasks[t].goal.Reader? && s.tasks[t].pc.Preparing?
    ensures
      var c := CacheClamp(maximumTtl, missingTtl);
      var s := After(c, start, primary, actions);
      var s' := Next(c, s, Run(t, drift));
      && t in s'.tasks && s'.tasks[t].pc.Filling? && s'.tasks[t].pc.i == 0
      && ExactCopies(Clamp(0.0, m, Some(n)), s.tasks[t].pc.answers, s'.tasks[t].pc.entries, s'.clock)
  {
    var c := CacheClamp(maximumTtl, missingTtl);
    var s := After(c, start, primary, actions);
    PositiveUnlessNegative(maximumTtl, missingTtl);
    ClampInNumbers(maximumTtl, missingTtl, m, n);
    TasksAreFresh(c, start, primary, actions, t);
    assert TaskFresh(s, t);
    PreparedExactly(c, s.tasks[t].pc.answers, s.clock + Elapsed(Run(t, drift)));
    NextShape(c, s, Run(t, drift));
    RunShape(c, s, Run(t, drift));
  }

  // ----- When a fill raises -----

  ghost predicate RaisesNowhere(c: Clamp) {
    forall start, primary, actions, t | t in After(c, start, primary, actions).tasks ::
      !FillRaisedBy(After(c, start, primary, actions).tasks[t])
  }

  predicate FillRaisedBy(k: Task) {
    k.goal.Reader? && k.pc.FillRaised?
  }

  ghost predicate Anything(s: State, a: Action) {
    true
  }

  /** With a limit that is not positive a read of a suitable entry raises. */
  lemma RaisingRun(c: Clamp, p: Property, s0: State, k: Slot, e: Entry) returns (s: State)
    requires Closed(c, Anything, p) && p(s0) && 0 !in s0.tasks && k !in s0.cache
    requires k in s0.primary && s0.primary[k] == e && Usable(e, true, s0.clock)
    requires FillFrom(c, e, s0.clock, s0.clock).Err?
    ensures p(s) && 0 in s.tasks && FillRaisedBy(s.tasks[0])
  {
    var g := Reader([k], true);
    s := ReadFromPrimary(c, Anything, p, s0, 0, k, e);
    SameTask(s, 0, Task(g, HasAnswer(k, e, s0.clock)));
    PrepareStep(c, s, k, e, s0.clock);
    s := ReadOn(c, Anything, p, s, s, 0, g, HasAnswer(k, e, s0.clock), FillRaised, s.cache);
  }

  lemma NegativeLimitRaises(maximumTtl: Option<real>, missingTtl: Option<real>)
    requires !LimitsNotNegative(maximumTtl, missingTtl)
    ensures !RaisesNowhere(CacheClamp(maximumTtl, missingTtl))
  {
    var c := CacheClamp(maximumTtl, missingTtl);
    var k, v: Dict := Slot("c", "k"), map["x" := Null];
    assert "x" in v;
    var e := Entry(v, None, if maximumTtl.Some? && maximumTtl.value < 0.0 then Some(1.0) else None);
    var primary := map[k := e];
    FillMeaning(maximumTtl, missingTtl, c.maxTtl, c.missingTtl.value, e, 0.0, 0.0, 0.0);
    ReachedIsClosed(c, primary, Anything);
    assert RunAllowed(c, 0.0, primary, [], Anything);
    assert ReachedBy(c, primary, Anything, After(c, 0.0, primary, []));
    var s := RaisingRun(c, x => ReachedBy(c, primary, Anything, x), After(c, 0.0, primary, []), k, e);
    var actions :| s == After(c, 0.0, primary, actions) && RunAllowed(c, 0.0, primary, actions, Anything);
    assert FillRaisedBy(After(c, 0.0, primary, actions).tasks[0]);
  }

  /** No fill raises, in any interleaving, exactly when neither limit was given as a negative
      number: every TTL that reaches a fill is then positive. */
  lemma FillsNeverRaiseIff(maximumTtl: Option<real>, missingTtl: Option<real>)
    ensures RaisesNowhere(CacheClamp(maximumTtl, missingTtl))
       <==> LimitsNotNegative(maximumTtl, missingTtl)
  {
    var c := CacheClamp(maximumTtl, missingTtl);
    if LimitsNotNegative(maximumTtl, missingTtl) {
      PositiveUnlessNegative(maximumTtl, missingTtl);
      forall start, primary, actions, t | t in After(c, start, primary, actions).tasks
        ensures !FillRaisedBy(After(c, start, primary, actions).tasks[t])
      {
        TasksAreFresh(c, start, primary, actions, t);
        assert TaskFresh(After(c, start, primary, actions), t);
      }
    } else {
      NegativeLimitRaises(maximumTtl, missingTtl);
    }
  }
}
