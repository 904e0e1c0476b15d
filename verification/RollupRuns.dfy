/** Runs of the rollup protocol: which schedules are timely, what becomes of a bucket no schedule reaches, and
    what every row and probe of a reachable state is like. */
module RollupRuns {
  import opened Prelude
  import opened Tables
  import opened Rollup
  import opened Requests
  import opened RollupProtocol

  // ---------------------------------------------------------------------------
  // Schedules.

  /** When the trailing window was last rolled before state `n`, or when the run began. */
  function LastRoll(states: seq<State>, steps: seq<Step>, n: nat): int
    requires n <= |steps| < |states|
  {
    if n == 0 then states[0].now
    else if steps[n - 1].TrailingRoll? then states[n - 1].now
    else LastRoll(states, steps, n - 1)
  }

  /** An answer or a cluster row is written at most `delay` after its probe was dispatched. */
  predicate Prompt(s: State, step: Step, delay: int) {
    match step
    case StoreAnswer(answer) => answer.probe in s.data.probes ==> s.now - s.data.probes[answer.probe].dispatchedAt <= delay
    case StoreCluster(id, _) => id in s.data.probes ==> s.now - s.data.probes[id].dispatchedAt <= delay
    case _ => true
  }

  predicate PromptAt(states: seq<State>, steps: seq<Step>, delay: int, i: nat)
    requires i < |steps| < |states|
  {
    Prompt(states[i], steps[i], delay)
  }

  predicate RolledRecently(states: seq<State>, steps: seq<Step>, gap: int, n: nat)
    requires n <= |steps| < |states|
  {
    states[n].now - LastRoll(states, steps, n) <= gap
  }

  /** Rows are written within `delay` of dispatch, and the trailing window is rolled every `gap`. */
  predicate OnSchedule(states: seq<State>, steps: seq<Step>, delay: int, gap: int)
    requires |states| == |steps| + 1
  {
    && (forall i | 0 <= i < |steps| :: PromptAt(states, steps, delay, i))
    && (forall n | 0 <= n <= |steps| :: RolledRecently(states, steps, gap, n))
  }

  lemma BucketMonotone(t: int, u: int, width: int)
    requires t <= u && width > 0
    ensures Bucket(t, width) <= Bucket(u, width)
  {
    QuotientMonotone(t, u, width);
    MultipleMonotone(t / width, u / width, width);
  }

  lemma NowRises(cfg: Config, s: State, step: Step, t: State)
    requires cfg.Valid() && Valid(s.data) && Next(cfg, s, step, t)
    ensures s.now <= t.now
  {
  }

  /** What a step can make dirty. */
  lemma DirtyGrows(cfg: Config, s: State, step: Step, t: State, delay: int, place: Place)
    requires cfg.Valid() && Valid(s.data) && Next(cfg, s, step, t) && Prompt(s, step, delay)
    requires place in t.dirty
    ensures place in s.dirty || place.start >= Bucket(s.now - delay, cfg.width)
  {
    if step.StoreAnswer? && place !in s.dirty {
      BucketMonotone(s.now - delay, s.data.probes[step.answer.probe].dispatchedAt, cfg.width);
    }
    if step.StoreCluster? && place !in s.dirty {
      BucketMonotone(s.now - delay, s.data.probes[step.id].dispatchedAt, cfg.width);
    }
  }

  predicate DirtySince(cfg: Config, s: State, t: int)
    requires cfg.Valid()
  {
    forall place <- s.dirty :: place.start >= Bucket(t, cfg.width)
  }

  lemma DirtySinceIsTimely(cfg: Config, s: State, t: int)
    requires cfg.Valid() && DirtySince(cfg, s, t) && TrailingFrom(cfg, s.now) <= t
    ensures Timely(cfg, s)
  {
    BucketMonotone(TrailingFrom(cfg, s.now), t, cfg.width);
  }

  lemma TrailingRollCleans(cfg: Config, s: State, t: State)
    requires cfg.Valid() && Valid(s.data) && Timely(cfg, s) && Next(cfg, s, TrailingRoll, t)
    ensures t.dirty == {}
  {
    assert WindowRange(cfg, TrailingFrom(cfg, s.now), None) == Window(WindowStart(cfg, s.now), None);
  }

  lemma StepKeepsDirtySince(cfg: Config, s: State, step: Step, t: State, delay: int, roll: int)
    requires cfg.Valid() && Valid(s.data) && Next(cfg, s, step, t) && Prompt(s, step, delay)
    requires DirtySince(cfg, s, roll - delay) && roll <= s.now
    ensures DirtySince(cfg, t, roll - delay)
  {
    forall place | place in t.dirty
      ensures place.start >= Bucket(roll - delay, cfg.width)
    {
      DirtyGrows(cfg, s, step, t, delay, place);
      BucketMonotone(roll - delay, s.now - delay, cfg.width);
    }
  }

  lemma {:induction false} DirtyIsRecent(cfg: Config, states: seq<State>, steps: seq<Step>, delay: int, gap: int, n: nat)
    requires cfg.Valid() && Run(cfg, states, steps) && n <= |steps|
    requires OnSchedule(states, steps, delay, gap) && delay + gap <= cfg.lookback
    ensures DirtySince(cfg, states[n], LastRoll(states, steps, n) - delay) && LastRoll(states, steps, n) <= states[n].now
  {
    if n > 0 {
      DirtyIsRecent(cfg, states, steps, delay, gap, n - 1);
      var s, step, t, roll := states[n - 1], steps[n - 1], states[n], LastRoll(states, steps, n - 1);
      assert TakenAt(cfg, states, steps, n - 1) && PromptAt(states, steps, delay, n - 1);
      NowRises(cfg, s, step, t);
      if step.TrailingRoll? {
        assert RolledRecently(states, steps, gap, n - 1);
        DirtySinceIsTimely(cfg, s, roll - delay);
        TrailingRollCleans(cfg, s, t);
      } else {
        StepKeepsDirtySince(cfg, s, step, t, delay, roll);
      }
    }
  }

  /** Timeliness is a matter of schedule: it holds in every state of a run that writes rows within `delay` of
      dispatch and rolls the trailing window every `gap`, when the two together are at most the lookback. */
  lemma ScheduleIsTimely(cfg: Config, states: seq<State>, steps: seq<Step>, delay: int, gap: int, n: nat)
    requires cfg.Valid() && Run(cfg, states, steps) && n <= |steps|
    requires OnSchedule(states, steps, delay, gap) && delay + gap <= cfg.lookback
    ensures Timely(cfg, states[n])
  {
    DirtyIsRecent(cfg, states, steps, delay, gap, n);
    assert RolledRecently(states, steps, gap, n);
    DirtySinceIsTimely(cfg, states[n], LastRoll(states, steps, n) - delay);
  }

  /** No detector run is cut short. */
  predicate NeverCutShort(steps: seq<Step>) {
    forall i | 0 <= i < |steps| :: !steps[i].Abort?
  }

  /** In every state, every stale bucket has a request, live or owed, or is in the window the next pass rolls. */
  ghost predicate NoneForsaken(cfg: Config, states: seq<State>, steps: seq<Step>)
    requires cfg.Valid() && |states| == |steps| + 1
  {
    forall n: nat, k: Key | n <= |steps| && Valid(states[n].data) :: !Forsaken(cfg, states[n], k)
  }

  ghost predicate TimelyThroughout(cfg: Config, states: seq<State>, steps: seq<Step>)
    requires cfg.Valid() && |states| == |steps| + 1
  {
    forall n | 0 <= n <= |steps| :: Timely(cfg, states[n])
  }

  const LATE_ANSWER := Observation(1, "A", None, None, None, None, None, Paid)

  /** A probe dispatched in the last second of a bucket, its answer stored `delay` later, and no roll for `gap`. */
  lemma LateRun(cfg: Config, delay: nat, gap: nat) returns (states: seq<State>, steps: seq<Step>)
    requires cfg.Valid() && delay + gap > cfg.lookback
    ensures Run(cfg, states, steps) && OnSchedule(states, steps, delay, gap) && NeverCutShort(steps)
    ensures !TimelyThroughout(cfg, states, steps)
    ensures Valid(states[|steps|].data) && Forsaken(cfg, states[|steps|], Key("A", "D", 0, cfg.width))
  {
    var sent := cfg.width - 1;
    var probe, place := Probe("D", sent, 100), Place("D", 0);
    var s0 := State(Data(map[], [], map[], map[], {}), map[], map[], 0, sent + delay, Idle, Resting, {});
    var s1 := s0.(data := s0.data.(probes := map[1 := probe]));
    var s2 := s1.(data := s1.data.(observations := [LATE_ANSWER]), dirty := {place});
    var s3 := s2.(now := sent + delay + gap);
    states, steps := [s0, s1, s2, s3], [StoreProbe(1, probe), StoreAnswer(LATE_ANSWER), Tick(s3.now)];
    LateIsRun(cfg, probe, states, steps, s0, s1, s2, s3);
    LateIsOnSchedule(states, steps, s0, s1, s2, s3, probe, delay, gap);
    NextBucket(cfg, TrailingFrom(cfg, s3.now));
    assert place in states[3].dirty && !Timely(cfg, states[3]);
    LateIsForsaken(cfg, s3, Key("A", "D", 0, cfg.width));
  }

  lemma LateIsForsaken(cfg: Config, s: State, k: Key)
    requires cfg.Valid() && s.qos == map[] && s.queue == map[] && s.detector.Resting? && k.start < WindowStart(cfg, s.now)
    requires Valid(s.data) && s.data.observations == [LATE_ANSWER] && s.data.attribution == map[]
    requires s.data.probes[1].deployment == "D" && s.data.probes[1].dispatchedAt == cfg.width - 1
    requires k == Key("A", "D", 0, cfg.width)
    ensures Forsaken(cfg, s, k)
  {
    FirstBucket(cfg);
    var fact := FactOf(cfg, s.data, LATE_ANSWER).value;
    assert fact.key == k;
    FactIsAmongItsKeys(cfg, s.data, s.data.observations, LATE_ANSWER);
  }

  lemma FirstBucket(cfg: Config)
    requires cfg.Valid()
    ensures Bucket(cfg.width - 1, cfg.width) == 0
  {
    MultipleBelow(0, cfg.width - 1, cfg.width);
    MultipleBelow(1, cfg.width - 1, cfg.width);
  }

  lemma LateIsRun(cfg: Config, probe: Probe, states: seq<State>, steps: seq<Step>, s0: State, s1: State, s2: State, s3: State)
    requires cfg.Valid() && probe.deployment == "D" && probe.dispatchedAt == cfg.width - 1 <= s0.now
    requires Init(cfg, s0) && s1 == s0.(data := s0.data.(probes := map[1 := probe]))
    requires s2 == s1.(data := s1.data.(observations := [LATE_ANSWER]), dirty := {Place("D", 0)})
    requires s2.now <= s3.now && s3 == s2.(now := s3.now)
    requires states == [s0, s1, s2, s3] && steps == [StoreProbe(1, probe), StoreAnswer(LATE_ANSWER), Tick(s3.now)]
    ensures Run(cfg, states, steps) && NeverCutShort(steps)
  {
    LateSteps(cfg, probe, s0, s1, s2, s3);
    assert TakenAt(cfg, states, steps, 0) && TakenAt(cfg, states, steps, 1) && TakenAt(cfg, states, steps, 2);
  }

  lemma LateSteps(cfg: Config, probe: Probe, s0: State, s1: State, s2: State, s3: State)
    requires cfg.Valid() && probe.deployment == "D" && probe.dispatchedAt == cfg.width - 1 <= s0.now
    requires Init(cfg, s0) && s1 == s0.(data := s0.data.(probes := map[1 := probe]))
    requires s2 == s1.(data := s1.data.(observations := [LATE_ANSWER]), dirty := {Place("D", 0)})
    requires s2.now <= s3.now && s3 == s2.(now := s3.now)
    ensures Valid(s0.data) && Next(cfg, s0, StoreProbe(1, probe), s1)
    ensures Valid(s1.data) && Next(cfg, s1, StoreAnswer(LATE_ANSWER), s2)
    ensures Valid(s2.data) && Next(cfg, s2, Tick(s3.now), s3)
  {
    assert s0.data.probes[1 := probe] == map[1 := probe];
    assert PlaceOf(cfg, s1.data, 1) == Place("D", 0);
    assert s1.dirty + {Place("D", 0)} == {Place("D", 0)};
  }

  lemma LateIsOnSchedule(states: seq<State>, steps: seq<Step>, s0: State, s1: State, s2: State, s3: State, probe: Probe,
                         delay: nat, gap: nat)
    requires states == [s0, s1, s2, s3] && steps == [StoreProbe(1, probe), StoreAnswer(LATE_ANSWER), Tick(s3.now)]
    requires s0.now == s1.now == s2.now == probe.dispatchedAt + delay && s3.now == s2.now + gap
    requires s1.data.probes == map[1 := probe]
    ensures OnSchedule(states, steps, delay, gap)
  {
    assert LastRoll(states, steps, 1) == LastRoll(states, steps, 0) == s0.now;
    assert LastRoll(states, steps, 3) == LastRoll(states, steps, 2) == s0.now;
    forall i | 0 <= i < |steps|
      ensures PromptAt(states, steps, delay, i)
    {
      assert i == 0 || i == 1 || i == 2;
    }
  }

  lemma NextBucket(cfg: Config, t: int)
    requires cfg.Valid() && t >= cfg.width
    ensures Bucket(t, cfg.width) > 0
  {
    BucketMonotone(cfg.width, t, cfg.width);
    assert cfg.width / cfg.width == 1;
  }

  /** And on no laxer one: every run on a schedule is timely exactly when the delay and the gap together are at
      most the lookback. */
  lemma ScheduleIsTimelyIff(cfg: Config, delay: nat, gap: nat)
    requires cfg.Valid()
    ensures (forall states, steps | Run(cfg, states, steps) && OnSchedule(states, steps, delay, gap) ::
               TimelyThroughout(cfg, states, steps))
       <==> delay + gap <= cfg.lookback
  {
    if delay + gap <= cfg.lookback {
      forall states, steps | Run(cfg, states, steps) && OnSchedule(states, steps, delay, gap)
        ensures TimelyThroughout(cfg, states, steps)
      {
        forall n | 0 <= n <= |steps|
          ensures Timely(cfg, states[n])
        {
          ScheduleIsTimely(cfg, states, steps, delay, gap, n);
        }
      }
    } else {
      var states, steps := LateRun(cfg, delay, gap);
    }
  }

  /** So on schedule, and short of a harmful abort, a stale bucket always has a request, live or owed, or lies
      in the window the next pass recomputes. */
  lemma ScheduledStaleIsReached(cfg: Config, states: seq<State>, steps: seq<Step>, delay: int, gap: int, n: nat, k: Key)
    requires cfg.Valid() && Run(cfg, states, steps) && n <= |steps| && NoHarmBefore(cfg, states, steps, n)
    requires OnSchedule(states, steps, delay, gap) && delay + gap <= cfg.lookback
    ensures Inv(cfg, states[n])
    ensures Stale(cfg, states[n], k) ==>
              || Covered(cfg, states[n].queue, k) || k.deployment in Owed(states[n])
              || WindowRange(cfg, TrailingFrom(cfg, states[n].now), None).Holds(k.start)
  {
    InvHolds(cfg, states, steps, n);
    ScheduleIsTimely(cfg, states, steps, delay, gap, n);
    if Stale(cfg, states[n], k) { TimelyStaleIsInWindow(cfg, states[n], k); }
  }

  /** So every abort-free run on a schedule leaves every stale bucket within reach, in every state, if and only if the
      delay and the gap are together at most the lookback. */
  lemma ScheduleReachesIff(cfg: Config, delay: nat, gap: nat)
    requires cfg.Valid()
    ensures (forall states, steps | Run(cfg, states, steps) && OnSchedule(states, steps, delay, gap) && NeverCutShort(steps) ::
               NoneForsaken(cfg, states, steps))
       <==> delay + gap <= cfg.lookback
  {
    if delay + gap <= cfg.lookback {
      forall states: seq<State>, steps: seq<Step>
        | Run(cfg, states, steps) && OnSchedule(states, steps, delay, gap) && NeverCutShort(steps)
        ensures NoneForsaken(cfg, states, steps)
      {
        forall n: nat, k: Key | n <= |steps| && Valid(states[n].data)
          ensures !Forsaken(cfg, states[n], k)
        {
          OnScheduleIsReached(cfg, states, steps, delay, gap, n, k);
        }
      }
    } else {
      var states, steps := LateRun(cfg, delay, gap);
    }
  }

  lemma OnScheduleIsReached(cfg: Config, states: seq<State>, steps: seq<Step>, delay: int, gap: int, n: nat, k: Key)
    requires cfg.Valid() && Run(cfg, states, steps) && n <= |steps| && NeverCutShort(steps)
    requires OnSchedule(states, steps, delay, gap) && delay + gap <= cfg.lookback
    ensures Valid(states[n].data) && !Forsaken(cfg, states[n], k)
  {
    ScheduledStaleIsReached(cfg, states, steps, delay, gap, n, k);
    assert WindowRange(cfg, TrailingFrom(cfg, states[n].now), None) == Window(WindowStart(cfg, states[n].now), None);
  }

  // ---------------------------------------------------------------------------
  // Off schedule.

  /** The step rolls bucket `k`. */
  predicate Rolls(cfg: Config, s: State, step: Step, k: Key)
    requires cfg.Valid()
  {
    match step
    case TrailingRoll => Targeted(cfg, WindowRange(cfg, TrailingFrom(cfg, s.now), None), None, k)
    case RollRequest =>
      s.loop.Draining? && s.loop.todo != [] && s.loop.todo[0] in s.queue && Covers(cfg, s.queue[s.loop.todo[0]], k)
    case Reroll(from, to) => Targeted(cfg, WindowRange(cfg, from, Some(to)), None, k)
    case _ => false
  }

  lemma RangeMoves(cfg: Config, s: State, from: int, to: Option<int>, deployment: Option<DeploymentId>, loop: Loop, t: State, k: Key)
    requires cfg.Valid() && Valid(s.data) && RangeRolled(cfg, s, from, to, deployment, loop, t)
    ensures Lookup(t.qos, k)
         == if Targeted(cfg, WindowRange(cfg, from, to), deployment, k) then Fresh(cfg, s.data, k) else Lookup(s.qos, k)
  {
    RollRangeIsFresh(cfg, s.data, s.qos, from, to, deployment, k);
  }

  /** Bucket `k` has the row the roll, if it was one, gave it. */
  predicate Moved(cfg: Config, s: State, step: Step, t: State, k: Key)
    requires cfg.Valid() && Valid(s.data)
  {
    Lookup(t.qos, k) == if Rolls(cfg, s, step, k) then Fresh(cfg, s.data, k) else Lookup(s.qos, k)
  }

  lemma TrailingMoves(cfg: Config, s: State, t: State, k: Key)
    requires cfg.Valid() && Valid(s.data) && Next(cfg, s, TrailingRoll, t)
    ensures Moved(cfg, s, TrailingRoll, t, k)
  {
    RangeMoves(cfg, s, TrailingFrom(cfg, s.now), None, None, Fetching, t, k);
  }

  lemma RequestMoves(cfg: Config, s: State, t: State, k: Key)
    requires cfg.Valid() && Valid(s.data) && Next(cfg, s, RollRequest, t)
    ensures Moved(cfg, s, RollRequest, t, k)
  {
    var r := s.queue[s.loop.todo[0]];
    RangeMoves(cfg, s, r.from, Some(r.to), r.deployment, s.loop.(rolled := true), t, k);
  }

  lemma RerollMoves(cfg: Config, s: State, from: int, to: int, t: State, k: Key)
    requires cfg.Valid() && Valid(s.data) && Next(cfg, s, Reroll(from, to), t)
    ensures Moved(cfg, s, Reroll(from, to), t, k)
  {
    RangeMoves(cfg, s, from, Some(to), None, s.loop, t, k);
  }

  lemma OthersMoveNothing(cfg: Config, s: State, step: Step, t: State, k: Key)
    requires cfg.Valid() && Valid(s.data) && Next(cfg, s, step, t) && !IsRoll(step)
    ensures Moved(cfg, s, step, t, k)
  {
  }

  /** A row moves only when its bucket is rolled, and then to what the data give. */
  lemma RowMovesOnlyByRoll(cfg: Config, s: State, step: Step, t: State, k: Key)
    requires cfg.Valid() && Valid(s.data) && Next(cfg, s, step, t)
    ensures Lookup(t.qos, k) == if Rolls(cfg, s, step, k) then Fresh(cfg, s.data, k) else Lookup(s.qos, k)
  {
    assert Moved(cfg, s, step, t, k) by {
      if step.TrailingRoll? {
        TrailingMoves(cfg, s, t, k);
      } else if step.RollRequest? {
        RequestMoves(cfg, s, t, k);
      } else if step.Reroll? {
        RerollMoves(cfg, s, step.from, step.to, t, k);
      } else {
        OthersMoveNothing(cfg, s, step, t, k);
      }
    }
  }

  ghost predicate RollsAt(cfg: Config, states: seq<State>, steps: seq<Step>, k: Key, i: nat)
    requires cfg.Valid() && i < |steps| && |states| == |steps| + 1
  {
    Rolls(cfg, states[i], steps[i], k)
  }

  /** Over any run, whatever happens to the data, a bucket keeps its row until it is rolled. */
  lemma {:induction false} RowStaysUntilRolled(cfg: Config, states: seq<State>, steps: seq<Step>, k: Key, m: nat, n: nat)
    requires cfg.Valid() && Run(cfg, states, steps) && m <= n <= |steps|
    requires forall i | m <= i < n :: !RollsAt(cfg, states, steps, k, i)
    ensures Lookup(states[n].qos, k) == Lookup(states[m].qos, k)
  {
    if m < n {
      RowStaysUntilRolled(cfg, states, steps, k, m, n - 1);
      assert TakenAt(cfg, states, steps, n - 1) && !RollsAt(cfg, states, steps, k, n - 1);
      RowMovesOnlyByRoll(cfg, states[n - 1], steps[n - 1], states[n], k);
    }
  }

  /** A stale bucket that the trailing window has passed, with no request for it queued or owed. */
  ghost predicate Forsaken(cfg: Config, s: State, k: Key)
    requires cfg.Valid() && Valid(s.data)
  {
    && Stale(cfg, s, k) && k.start < WindowStart(cfg, s.now)
    && !Covered(cfg, s.queue, k) && k.deployment !in Owed(s)
  }

  /** The step writes to the bucket's probes, re-attributes or re-flags its answers, or re-rolls it by hand. */
  ghost predicate Touches(cfg: Config, s: State, step: Step, k: Key)
    requires cfg.Valid() && Valid(s.data)
  {
    match step
    case StoreAnswer(answer) => answer.probe in s.data.probes && InPlace(cfg, s.data, answer.probe, k)
    case StoreCluster(id, _) => id in s.data.probes && InPlace(cfg, s.data, id, k)
    case Attribute(key, indexer) => exists r :: r in AttributionRequests(s.data, key, indexer) && Covers(cfg, r, k)
    case Flag(deployment) => deployment == k.deployment && deployment !in s.data.nondeterministic
    case Unflag => s.detector.Writing? && (k.deployment in s.data.nondeterministic) != (k.deployment in s.detector.found)
    case Reroll(from, to) => Targeted(cfg, WindowRange(cfg, from, Some(to)), None, k)
    case _ => false
  }

  lemma UntouchedKeepsFresh(cfg: Config, s: State, step: Step, t: State, k: Key)
    requires cfg.Valid() && Valid(s.data) && Valid(t.data) && Next(cfg, s, step, t) && !Touches(cfg, s, step, k)
    ensures Fresh(cfg, t.data, k) == Fresh(cfg, s.data, k)
  {
    match step
    case StoreProbe(id, probe) => NewProbeChangesNothing(cfg, s.data, id, probe, k);
    case StoreAnswer(answer) => NewAnswerStaysInPlace(cfg, s.data, answer, k);
    case StoreCluster(id, row) => NewClusterStaysInPlace(cfg, s.data, id, row, k);
    case Attribute(key, indexer) =>
      if Fresh(cfg, t.data, k) != Fresh(cfg, s.data, k) { AttributionIsCovered(cfg, s.data, key, indexer, k); }
    case Unresolved(key) =>
      if key !in s.data.attribution { UnresolvedChangesNothing(cfg, s.data, key, k); }
    case Flag(_) => UntouchedFlags(cfg, s, t, k);
    case Unflag => UntouchedFlags(cfg, s, t, k);
    case _ =>
  }

  lemma UntouchedFlags(cfg: Config, s: State, t: State, k: Key)
    requires cfg.Valid() && Valid(s.data) && t.data == s.data.(nondeterministic := t.data.nondeterministic)
    requires k.deployment in t.data.nondeterministic <==> k.deployment in s.data.nondeterministic
    ensures Fresh(cfg, t.data, k) == Fresh(cfg, s.data, k)
  {
    if Fresh(cfg, t.data, k) != Fresh(cfg, s.data, k) { FlagChangeIsCovered(cfg, s.data, t.data.nondeterministic, k); }
  }

  lemma UntouchedStaysUncovered(cfg: Config, s: State, step: Step, t: State, k: Key)
    requires cfg.Valid() && Valid(s.data) && Next(cfg, s, step, t) && !Touches(cfg, s, step, k)
    requires !Covered(cfg, s.queue, k) && k.deployment !in Owed(s)
    ensures !Covered(cfg, t.queue, k) && k.deployment !in Owed(t)
  {
    UntouchedOwesNothing(cfg, s, step, t, k);
    match step
    case Attribute(key, indexer) =>
      AppendedCovers(cfg, s.queue, s.next, t.queue, t.next, AttributionRequests(s.data, key, indexer), k);
    case Enqueue(deployment) =>
      AppendedCovers(cfg, s.queue, s.next, t.queue, t.next, DeploymentRequests(s.data, deployment), k);
    case _ =>
      assert forall id | id in t.queue :: id in s.queue && t.queue[id] == s.queue[id];
  }

  lemma UntouchedOwesNothing(cfg: Config, s: State, step: Step, t: State, k: Key)
    requires cfg.Valid() && Valid(s.data) && Next(cfg, s, step, t) && !Touches(cfg, s, step, k)
    requires k.deployment !in Owed(s)
    ensures k.deployment !in Owed(t)
  {
  }

  lemma AppendedCovers(cfg: Config, before: Queue, next: nat, after: Queue, next': nat, added: set<Request>, k: Key)
    requires cfg.Valid() && Appended(before, next, after, next', added)
    requires !Covered(cfg, before, k) && forall r | r in added :: !Covers(cfg, r, k)
    ensures !Covered(cfg, after, k)
  {
  }

  lemma UntouchedIsNotRolled(cfg: Config, s: State, step: Step, t: State, k: Key)
    requires cfg.Valid() && Valid(s.data) && Next(cfg, s, step, t) && !Touches(cfg, s, step, k)
    requires k.start < WindowStart(cfg, s.now) && !Covered(cfg, s.queue, k)
    ensures !Rolls(cfg, s, step, k)
  {
    assert WindowRange(cfg, TrailingFrom(cfg, s.now), None) == Window(WindowStart(cfg, s.now), None);
  }

  /** Nothing the loop, the detector or other buckets' traffic does ends it. */
  lemma ForsakenStays(cfg: Config, s: State, step: Step, t: State, k: Key)
    requires cfg.Valid() && Valid(s.data) && Valid(t.data) && Next(cfg, s, step, t)
    requires Forsaken(cfg, s, k) && !Touches(cfg, s, step, k)
    ensures Forsaken(cfg, t, k)
  {
    UntouchedKeepsFresh(cfg, s, step, t, k);
    UntouchedStaysUncovered(cfg, s, step, t, k);
    UntouchedIsNotRolled(cfg, s, step, t, k);
    RowMovesOnlyByRoll(cfg, s, step, t, k);
    NowRises(cfg, s, step, t);
    BucketMonotone(TrailingFrom(cfg, s.now), TrailingFrom(cfg, t.now), cfg.width);
  }

  ghost predicate TouchesAt(cfg: Config, states: seq<State>, steps: seq<Step>, k: Key, i: nat)
    requires cfg.Valid() && Run(cfg, states, steps) && i < |steps|
  {
    assert TakenAt(cfg, states, steps, i);
    Touches(cfg, states[i], steps[i], k)
  }

  lemma ValidThroughout(cfg: Config, states: seq<State>, steps: seq<Step>, n: nat)
    requires cfg.Valid() && Run(cfg, states, steps) && n <= |steps|
    ensures Valid(states[n].data)
  {
    if n < |steps| {
      assert TakenAt(cfg, states, steps, n);
    } else if n > 0 {
      assert TakenAt(cfg, states, steps, n - 1);
      NextKeepsValid(cfg, states[n - 1], steps[n - 1], states[n]);
    }
  }

  lemma NextKeepsValid(cfg: Config, s: State, step: Step, t: State)
    requires cfg.Valid() && Valid(s.data) && Next(cfg, s, step, t)
    ensures Valid(t.data)
  {
  }

  /** Over any run, with any number of passes, detector runs and new probes, a forsaken bucket stays stale until
      something touches it. */
  lemma {:induction false} ForsakenUntilTouched(cfg: Config, states: seq<State>, steps: seq<Step>, k: Key, m: nat, n: nat)
    requires cfg.Valid() && Run(cfg, states, steps) && m <= n <= |steps|
    requires Valid(states[m].data) && Forsaken(cfg, states[m], k)
    requires forall i | m <= i < n :: !TouchesAt(cfg, states, steps, k, i)
    ensures Valid(states[n].data) && Forsaken(cfg, states[n], k)
  {
    if m < n {
      ForsakenUntilTouched(cfg, states, steps, k, m, n - 1);
      assert TakenAt(cfg, states, steps, n - 1) && !TouchesAt(cfg, states, steps, k, n - 1);
      ValidThroughout(cfg, states, steps, n);
      ForsakenStays(cfg, states[n - 1], steps[n - 1], states[n], k);
    }
  }

  // ---------------------------------------------------------------------------
  // Every row has a probe behind it, and no probe is from the future.

  ghost predicate RowsHaveProbes(cfg: Config, d: Data, qos: Table)
    requires cfg.Valid()
  {
    forall k | k in qos && k.width == cfg.width :: HasProbe(cfg, d, k)
  }

  predicate NoneFromTheFuture(d: Data, now: int) {
    forall p <- d.probes :: d.probes[p].dispatchedAt <= now
  }

  lemma {:induction false} FactsHaveProbes(cfg: Config, d: Data, rows: seq<Observation>, k: Key)
    requires cfg.Valid() && forall o <- rows :: o.probe in d.probes
    ensures KeyFacts(cfg, d, rows, k) != [] ==> HasProbe(cfg, d, k)
  {
    if rows != [] {
      var init, o := rows[..|rows| - 1], rows[|rows| - 1];
      assert o in rows && forall q <- init :: q in rows;
      FactsHaveProbes(cfg, d, init, k);
      ContributionIsInPlace(cfg, d, o, k);
    }
  }

  lemma FreshHasProbe(cfg: Config, d: Data, k: Key)
    requires cfg.Valid() && Valid(d)
    ensures Fresh(cfg, d, k).Some? ==> HasProbe(cfg, d, k)
  {
    FactsHaveProbes(cfg, d, d.observations, k);
  }

  lemma ProbesStay(cfg: Config, s: State, step: Step, t: State)
    requires cfg.Valid() && Valid(s.data) && Next(cfg, s, step, t)
    ensures forall p | p in s.data.probes :: p in t.data.probes && t.data.probes[p] == s.data.probes[p]
  {
  }

  lemma HasProbeStays(cfg: Config, d: Data, d': Data, k: Key)
    requires cfg.Valid() && HasProbe(cfg, d, k)
    requires forall p | p in d.probes :: p in d'.probes && d'.probes[p] == d.probes[p]
    ensures HasProbe(cfg, d', k)
  {
    var p :| p in d.probes && InPlace(cfg, d, p, k);
    assert InPlace(cfg, d', p, k);
  }

  lemma NextKeepsRowsHaveProbes(cfg: Config, s: State, step: Step, t: State)
    requires cfg.Valid() && Valid(s.data) && Next(cfg, s, step, t) && RowsHaveProbes(cfg, s.data, s.qos)
    ensures RowsHaveProbes(cfg, t.data, t.qos)
  {
    ProbesStay(cfg, s, step, t);
    forall k | k in t.qos && k.width == cfg.width
      ensures HasProbe(cfg, t.data, k)
    {
      RowMovesOnlyByRoll(cfg, s, step, t, k);
      assert Lookup(t.qos, k).Some?;
      FreshHasProbe(cfg, s.data, k);
      assert HasProbe(cfg, s.data, k);
      HasProbeStays(cfg, s.data, t.data, k);
    }
  }

  lemma NextKeepsNoneFromTheFuture(cfg: Config, s: State, step: Step, t: State)
    requires cfg.Valid() && Valid(s.data) && Next(cfg, s, step, t) && NoneFromTheFuture(s.data, s.now)
    ensures NoneFromTheFuture(t.data, t.now)
  {
  }

  /** In every reachable state every row at the configured width has a probe in its bucket, and every probe was
      dispatched by now. */
  lemma {:induction false} RunsArePlaced(cfg: Config, states: seq<State>, steps: seq<Step>, n: nat)
    requires cfg.Valid() && Run(cfg, states, steps) && n <= |steps|
    ensures Valid(states[n].data) && RowsHaveProbes(cfg, states[n].data, states[n].qos)
    ensures NoneFromTheFuture(states[n].data, states[n].now)
  {
    ValidThroughout(cfg, states, steps, n);
    if n > 0 {
      RunsArePlaced(cfg, states, steps, n - 1);
      assert TakenAt(cfg, states, steps, n - 1);
      NextKeepsRowsHaveProbes(cfg, states[n - 1], steps[n - 1], states[n]);
      NextKeepsNoneFromTheFuture(cfg, states[n - 1], steps[n - 1], states[n]);
    }
  }
}
