/** Exactly what a flag change makes stale, in every state of every run, wherever detector runs were cut short; and
    from that when cutting one short loses something. */
module RollupAborts {
  import opened Prelude
  import opened Tables
  import opened Judgement
  import opened Rollup
  import opened Requests
  import opened RollupProtocol
  import opened RollupRuns
  import Detector

  /** The tables as they would be with one deployment's flag set or not. */
  function WithFlag(d: Data, deployment: DeploymentId, on: bool): Data {
    d.(nondeterministic := if on then d.nondeterministic + {deployment} else d.nondeterministic - {deployment})
  }

  /** A roll of bucket `k` is to come: a live request covers it, or it was written to since it was last rolled. */
  ghost predicate Awaited(cfg: Config, s: State, k: Key)
    requires cfg.Valid()
  {
    Queued(cfg, s, k) || Place(k.deployment, k.start) in s.dirty
  }

  /** Unless a roll is to come, bucket `k` has the row of the current data under the given flag of its deployment. */
  ghost predicate KeptUnder(cfg: Config, s: State, k: Key, on: bool)
    requires cfg.Valid() && Valid(s.data)
  {
    Awaited(cfg, s, k) || Lookup(s.qos, k) == Fresh(cfg, WithFlag(s.data, k.deployment, on), k)
  }

  /** Whether the bucket's deployment was flagged when the bucket was last rolled. */
  function FlagAtLastRoll(cfg: Config, states: seq<State>, steps: seq<Step>, n: nat, k: Key): bool
    requires cfg.Valid() && n <= |steps| < |states|
  {
    if n == 0 then k.deployment in states[0].data.nondeterministic
    else if Rolls(cfg, states[n - 1], steps[n - 1], k) then k.deployment in states[n - 1].data.nondeterministic
    else FlagAtLastRoll(cfg, states, steps, n - 1, k)
  }

  // ---------------------------------------------------------------------------
  // One step.

  lemma AwaitedStays(cfg: Config, s: State, t: State, k: Key)
    requires cfg.Valid() && Awaited(cfg, s, k)
    requires Spent(t) == Spent(s) || Spent(t).None?
    requires s.dirty <= t.dirty && forall id | id in s.queue :: id in t.queue && t.queue[id] == s.queue[id]
    ensures Awaited(cfg, t, k)
  {
  }

  lemma ProbeKeepsUnder(cfg: Config, s: State, id: ProbeId, probe: Probe, t: State, k: Key, on: bool)
    requires cfg.Valid() && Valid(s.data) && Valid(t.data) && ProbeStored(s, id, probe, t) && KeptUnder(cfg, s, k, on)
    ensures KeptUnder(cfg, t, k, on)
  {
    NewProbeChangesNothing(cfg, WithFlag(s.data, k.deployment, on), id, probe, k);
    if Awaited(cfg, s, k) { AwaitedStays(cfg, s, t, k); }
  }

  lemma AnswerKeepsUnder(cfg: Config, s: State, o: Observation, t: State, k: Key, on: bool)
    requires cfg.Valid() && Valid(s.data) && Valid(t.data) && AnswerStored(cfg, s, o, t) && KeptUnder(cfg, s, k, on)
    ensures KeptUnder(cfg, t, k, on)
  {
    if !InPlace(cfg, s.data, o.probe, k) {
      NewAnswerStaysInPlace(cfg, WithFlag(s.data, k.deployment, on), o, k);
      if Awaited(cfg, s, k) { AwaitedStays(cfg, s, t, k); }
    }
  }

  lemma ClusterKeepsUnder(cfg: Config, s: State, id: ProbeId, row: Divergence, t: State, k: Key, on: bool)
    requires cfg.Valid() && Valid(s.data) && Valid(t.data) && ClusterStored(cfg, s, id, row, t) && KeptUnder(cfg, s, k, on)
    ensures KeptUnder(cfg, t, k, on)
  {
    if !InPlace(cfg, s.data, id, k) {
      NewClusterStaysInPlace(cfg, WithFlag(s.data, k.deployment, on), id, row, k);
      if Awaited(cfg, s, k) { AwaitedStays(cfg, s, t, k); }
    }
  }

  lemma SameRequests(d: Data, flags: set<DeploymentId>, key: Address, indexer: Address)
    requires Valid(d)
    ensures AttributionRequests(d.(nondeterministic := flags), key, indexer) == AttributionRequests(d, key, indexer)
  {
    var d' := d.(nondeterministic := flags);
    assert KeyDeployments(d', key) == KeyDeployments(d, key);
    forall dep
      ensures KeyTimes(d', key, dep) == KeyTimes(d, key, dep)
    {
    }
  }

  lemma AttributionKeepsUnder(cfg: Config, s: State, key: Address, indexer: Address, t: State, k: Key, on: bool)
    requires cfg.Valid() && Valid(s.data) && Valid(t.data) && Attributed(s, key, indexer, t) && KeptUnder(cfg, s, k, on)
    requires Shaped(s)
    ensures KeptUnder(cfg, t, k, on)
  {
    var d := WithFlag(s.data, k.deployment, on);
    if Awaited(cfg, s, k) {
      AwaitedStays(cfg, s, t, k);
    } else if Fresh(cfg, d.(attribution := d.attribution[key := Some(indexer)]), k) != Fresh(cfg, d, k) {
      AttributionIsCovered(cfg, d, key, indexer, k);
      SameRequests(s.data, d.nondeterministic, key, indexer);
      RequestedIsQueued(cfg, s, t, AttributionRequests(s.data, key, indexer), k);
    }
  }

  lemma UnresolvedKeepsUnder(cfg: Config, s: State, key: Address, t: State, k: Key, on: bool)
    requires cfg.Valid() && Valid(s.data) && Valid(t.data) && LeftUnresolved(s, key, t) && KeptUnder(cfg, s, k, on)
    ensures KeptUnder(cfg, t, k, on)
  {
    if key !in s.data.attribution {
      UnresolvedChangesNothing(cfg, WithFlag(s.data, k.deployment, on), key, k);
    }
    if Awaited(cfg, s, k) { AwaitedStays(cfg, s, t, k); }
  }

  /** Whatever the detector does to the other flags, this one is given. */
  lemma FlagsKeepUnder(cfg: Config, s: State, t: State, k: Key, on: bool)
    requires cfg.Valid() && Valid(s.data) && Valid(t.data) && KeptUnder(cfg, s, k, on)
    requires t == s.(data := s.data.(nondeterministic := t.data.nondeterministic), detector := t.detector)
    ensures KeptUnder(cfg, t, k, on)
  {
    var d, d' := WithFlag(s.data, k.deployment, on), WithFlag(t.data, k.deployment, on);
    assert d' == d.(nondeterministic := d'.nondeterministic);
    if Fresh(cfg, d', k) != Fresh(cfg, d, k) {
      FlagChangeIsCovered(cfg, d, d'.nondeterministic, k);
    }
    if Awaited(cfg, s, k) { AwaitedStays(cfg, s, t, k); }
  }

  lemma EnqueueKeepsUnder(cfg: Config, s: State, deployment: DeploymentId, t: State, k: Key, on: bool)
    requires cfg.Valid() && Valid(s.data) && Valid(t.data) && DebtPaid(s, deployment, t) && KeptUnder(cfg, s, k, on)
    ensures KeptUnder(cfg, t, k, on)
  {
    if Awaited(cfg, s, k) { AwaitedStays(cfg, s, t, k); }
  }

  lemma DeleteKeepsUnder(cfg: Config, s: State, t: State, k: Key, on: bool)
    requires cfg.Valid() && Valid(s.data) && Valid(t.data) && RequestDeleted(s, t) && KeptUnder(cfg, s, k, on)
    ensures KeptUnder(cfg, t, k, on)
  {
    if id :| id in s.queue && Some(id) != Spent(s) && Covers(cfg, s.queue[id], k) {
      assert id in t.queue && Some(id) != Spent(t) && Covers(cfg, t.queue[id], k);
    }
  }

  lemma QuietKeepsUnder(cfg: Config, s: State, t: State, k: Key, on: bool)
    requires cfg.Valid() && Valid(s.data) && KeptUnder(cfg, s, k, on)
    requires t.data == s.data && t.qos == s.qos && t.queue == s.queue && t.dirty == s.dirty
    requires Spent(t) == Spent(s) || Spent(t).None?
    ensures KeptUnder(cfg, t, k, on)
  {
    if Awaited(cfg, s, k) { AwaitedStays(cfg, s, t, k); }
  }

  lemma UnderItsOwnFlag(d: Data, deployment: DeploymentId)
    ensures WithFlag(d, deployment, deployment in d.nondeterministic) == d
  {
  }

  /** A roll leaves what it reaches with the flag as it is, and what it does not reach as it was. */
  lemma RangeKeepsUnder(cfg: Config, s: State, from: int, to: Option<int>, deployment: Option<DeploymentId>, loop: Loop,
                        t: State, k: Key, on: bool)
    requires cfg.Valid() && Valid(s.data) && RangeRolled(cfg, s, from, to, deployment, loop, t)
    requires k.width == cfg.width && KeptUnder(cfg, s, k, on)
    requires SpentAt(loop).Some? && SpentAt(loop) != Spent(s) ==>
               SpentAt(loop).value in s.queue && to.Some? && s.queue[SpentAt(loop).value] == Request(deployment, from, to.value)
    ensures var targeted := Targeted(cfg, WindowRange(cfg, from, to), deployment, k);
            KeptUnder(cfg, t, k, if targeted then k.deployment in s.data.nondeterministic else on)
  {
    RollRangeIsFresh(cfg, s.data, s.qos, from, to, deployment, k);
    UnderItsOwnFlag(s.data, k.deployment);
    if !Targeted(cfg, WindowRange(cfg, from, to), deployment, k) && Awaited(cfg, s, k) {
      UntargetedStaysAwaited(cfg, s, from, to, deployment, loop, t, k);
    }
  }

  lemma UntargetedStaysAwaited(cfg: Config, s: State, from: int, to: Option<int>, deployment: Option<DeploymentId>, loop: Loop,
                               t: State, k: Key)
    requires cfg.Valid() && Valid(s.data) && RangeRolled(cfg, s, from, to, deployment, loop, t)
    requires k.width == cfg.width && Awaited(cfg, s, k) && !Targeted(cfg, WindowRange(cfg, from, to), deployment, k)
    requires SpentAt(loop).Some? && SpentAt(loop) != Spent(s) ==>
               SpentAt(loop).value in s.queue && to.Some? && s.queue[SpentAt(loop).value] == Request(deployment, from, to.value)
    ensures Awaited(cfg, t, k)
  {
    if id :| id in s.queue && Some(id) != Spent(s) && Covers(cfg, s.queue[id], k) {
      assert id in t.queue && Some(id) != Spent(t);
    }
  }

  /** The flag to keep bucket `k` under once a step is taken. */
  function FlagAfter(cfg: Config, s: State, step: Step, k: Key, on: bool): bool
    requires cfg.Valid()
  {
    if Rolls(cfg, s, step, k) then k.deployment in s.data.nondeterministic else on
  }

  lemma TrailingRollKeepsUnder(cfg: Config, s: State, t: State, k: Key, on: bool)
    requires cfg.Valid() && Valid(s.data) && Next(cfg, s, TrailingRoll, t) && k.width == cfg.width && KeptUnder(cfg, s, k, on)
    ensures KeptUnder(cfg, t, k, FlagAfter(cfg, s, TrailingRoll, k, on))
  {
    RangeKeepsUnder(cfg, s, TrailingFrom(cfg, s.now), None, None, Fetching, t, k, on);
  }

  lemma RequestRollKeepsUnder(cfg: Config, s: State, t: State, k: Key, on: bool)
    requires cfg.Valid() && Valid(s.data) && Next(cfg, s, RollRequest, t) && k.width == cfg.width && KeptUnder(cfg, s, k, on)
    ensures KeptUnder(cfg, t, k, FlagAfter(cfg, s, RollRequest, k, on))
  {
    var r := s.queue[s.loop.todo[0]];
    RangeKeepsUnder(cfg, s, r.from, Some(r.to), r.deployment, s.loop.(rolled := true), t, k, on);
  }

  lemma RerollKeepsUnder(cfg: Config, s: State, from: int, to: int, t: State, k: Key, on: bool)
    requires cfg.Valid() && Valid(s.data) && Next(cfg, s, Reroll(from, to), t) && k.width == cfg.width && KeptUnder(cfg, s, k, on)
    ensures KeptUnder(cfg, t, k, FlagAfter(cfg, s, Reroll(from, to), k, on))
  {
    RangeKeepsUnder(cfg, s, from, Some(to), None, s.loop, t, k, on);
  }

  lemma WriterKeepsUnder(cfg: Config, s: State, step: Step, t: State, k: Key, on: bool)
    requires cfg.Valid() && Shaped(s) && Valid(t.data) && Next(cfg, s, step, t) && IsWriter(step)
    requires KeptUnder(cfg, s, k, on)
    ensures KeptUnder(cfg, t, k, on)
  {
    match step
    case StoreProbe(id, probe) => ProbeKeepsUnder(cfg, s, id, probe, t, k, on);
    case StoreAnswer(answer) => AnswerKeepsUnder(cfg, s, answer, t, k, on);
    case StoreCluster(id, row) => ClusterKeepsUnder(cfg, s, id, row, t, k, on);
    case Attribute(key, indexer) => AttributionKeepsUnder(cfg, s, key, indexer, t, k, on);
    case Unresolved(key) => UnresolvedKeepsUnder(cfg, s, key, t, k, on);
    case Flag(_) => FlagsKeepUnder(cfg, s, t, k, on);
    case Unflag => FlagsKeepUnder(cfg, s, t, k, on);
    case Enqueue(deployment) => EnqueueKeepsUnder(cfg, s, deployment, t, k, on);
  }

  lemma LoopKeepsUnder(cfg: Config, s: State, step: Step, t: State, k: Key, on: bool)
    requires cfg.Valid() && Valid(s.data) && Valid(t.data) && Next(cfg, s, step, t) && !IsWriter(step) && !IsRoll(step)
    requires KeptUnder(cfg, s, k, on)
    ensures KeptUnder(cfg, t, k, on)
  {
    match step
    case DeleteRequest => DeleteKeepsUnder(cfg, s, t, k, on);
    case _ => QuietKeepsUnder(cfg, s, t, k, on);
  }

  /** Every step, a detector run cut short included. */
  lemma NextKeepsUnder(cfg: Config, s: State, step: Step, t: State, k: Key, on: bool)
    requires cfg.Valid() && Shaped(s) && Valid(t.data) && Next(cfg, s, step, t) && k.width == cfg.width
    requires KeptUnder(cfg, s, k, on)
    ensures KeptUnder(cfg, t, k, FlagAfter(cfg, s, step, k, on))
  {
    if step.TrailingRoll? {
      TrailingRollKeepsUnder(cfg, s, t, k, on);
    } else if step.RollRequest? {
      RequestRollKeepsUnder(cfg, s, t, k, on);
    } else if step.Reroll? {
      RerollKeepsUnder(cfg, s, step.from, step.to, t, k, on);
    } else if IsWriter(step) {
      WriterKeepsUnder(cfg, s, step, t, k, on);
    } else {
      LoopKeepsUnder(cfg, s, step, t, k, on);
    }
  }

  // ---------------------------------------------------------------------------
  // Whole runs.

  lemma {:induction false} RunsAreShaped(cfg: Config, states: seq<State>, steps: seq<Step>, n: nat)
    requires cfg.Valid() && Run(cfg, states, steps) && n <= |steps|
    ensures Shaped(states[n])
  {
    if n > 0 {
      RunsAreShaped(cfg, states, steps, n - 1);
      assert TakenAt(cfg, states, steps, n - 1);
      StepKeepsShape(cfg, states[n - 1], steps[n - 1], states[n]);
      StepKeepsLoop(cfg, states[n - 1], steps[n - 1], states[n]);
    }
  }

  /** In every state of every run, wherever detector runs were cut short, a bucket that no roll is to come for has the
      row of the current data under the flag its deployment had when it was last rolled. */
  lemma {:induction false} RowsAreUnderTheFlagRolled(cfg: Config, states: seq<State>, steps: seq<Step>, n: nat, k: Key)
    requires cfg.Valid() && Run(cfg, states, steps) && n <= |steps| && k.width == cfg.width
    ensures Shaped(states[n]) && KeptUnder(cfg, states[n], k, FlagAtLastRoll(cfg, states, steps, n, k))
  {
    RunsAreShaped(cfg, states, steps, n);
    if n > 0 {
      RowsAreUnderTheFlagRolled(cfg, states, steps, n - 1, k);
      assert TakenAt(cfg, states, steps, n - 1);
      NextKeepsUnder(cfg, states[n - 1], steps[n - 1], states[n], k, FlagAtLastRoll(cfg, states, steps, n - 1, k));
    }
  }

  /** The bucket holds a judgeable answer, and its deployment's flag is not what it was when the bucket was last
      rolled. */
  ghost predicate Outdated(cfg: Config, states: seq<State>, steps: seq<Step>, n: nat, k: Key)
    requires cfg.Valid() && n <= |steps| < |states| && Valid(states[n].data)
  {
    && k.width == cfg.width && HoldsJudgeable(cfg, states[n].data, k)
    && (k.deployment in states[n].data.nondeterministic) != FlagAtLastRoll(cfg, states, steps, n, k)
  }

  /** So a bucket that no roll is to come for is stale if and only if that is so. */
  lemma StaleIffOutdated(cfg: Config, states: seq<State>, steps: seq<Step>, n: nat, k: Key)
    requires cfg.Valid() && Run(cfg, states, steps) && n <= |steps| && !Awaited(cfg, states[n], k)
    ensures Valid(states[n].data)
    ensures Stale(cfg, states[n], k) <==> Outdated(cfg, states, steps, n, k)
  {
    RunsAreShaped(cfg, states, steps, n);
    if k.width == cfg.width {
      RowsAreUnderTheFlagRolled(cfg, states, steps, n, k);
      var d, on := states[n].data, FlagAtLastRoll(cfg, states, steps, n, k);
      FlagChangeAltersIff(cfg, d, WithFlag(d, k.deployment, on).nondeterministic, k);
    }
  }

  /** In every reachable state no invalidation has been lost if and only if every outdated bucket has a roll to come
      or is owed a request by the running detector. */
  lemma ReachableIsInvIff(cfg: Config, states: seq<State>, steps: seq<Step>, n: nat)
    requires cfg.Valid() && Run(cfg, states, steps) && n <= |steps|
    ensures Valid(states[n].data)
    ensures Inv(cfg, states[n])
       <==> forall k | Outdated(cfg, states, steps, n, k) :: Awaited(cfg, states[n], k) || k.deployment in Owed(states[n])
  {
    RunsAreShaped(cfg, states, steps, n);
    forall k | !Awaited(cfg, states[n], k)
      ensures Stale(cfg, states[n], k) <==> Outdated(cfg, states, steps, n, k)
      ensures HoldsJudgeable(cfg, states[n].data, k) ==> HasProbe(cfg, states[n].data, k)
    {
      StaleIffOutdated(cfg, states, steps, n, k);
      JudgeableHasProbe(cfg, states[n].data, k);
    }
  }

  lemma JudgeableHasProbe(cfg: Config, d: Data, k: Key)
    requires cfg.Valid() && Valid(d)
    ensures HoldsJudgeable(cfg, d, k) ==> HasProbe(cfg, d, k)
  {
    if o :| o in d.observations && Judgeable(d, o) && KeyOfAnswer(cfg, d, o) == k {
      assert InPlace(cfg, d, o.probe, k);
    }
  }

  /** And cutting a detector run short there loses nothing if and only if every outdated bucket of a deployment it owes
      for has a roll to come. */
  lemma AbortHarmlessIff(cfg: Config, states: seq<State>, steps: seq<Step>, n: nat)
    requires cfg.Valid() && Run(cfg, states, steps) && n <= |steps|
    ensures Valid(states[n].data)
    ensures AbortHarmless(cfg, states[n])
       <==> forall k | Outdated(cfg, states, steps, n, k) && k.deployment in Owed(states[n]) :: Awaited(cfg, states[n], k)
  {
    RunsAreShaped(cfg, states, steps, n);
    forall k | !Awaited(cfg, states[n], k)
      ensures Stale(cfg, states[n], k) <==> Outdated(cfg, states, steps, n, k)
      ensures HoldsJudgeable(cfg, states[n].data, k) ==> HasProbe(cfg, states[n].data, k)
    {
      StaleIffOutdated(cfg, states, steps, n, k);
      JudgeableHasProbe(cfg, states[n].data, k);
    }
  }

  // ---------------------------------------------------------------------------
  // From a settled state.

  /** Some stored answer on the deployment is judgeable. */
  ghost predicate HasJudgeable(d: Data, deployment: DeploymentId)
    requires Valid(d)
  {
    exists o :: o in d.observations && Judgeable(d, o) && d.probes[o.probe].deployment == deployment
  }

  /** The detector started from a settled state: nothing is queued or dirty, every row is fresh under the flags it
      read, and it owes only for flags it has changed. */
  ghost predicate SettledUnder(cfg: Config, s: State, before: set<DeploymentId>)
    requires cfg.Valid() && Valid(s.data)
  {
    && s.queue == map[] && s.dirty == {}
    && (forall k: Key | k.width == cfg.width :: Lookup(s.qos, k) == Fresh(cfg, s.data.(nondeterministic := before), k))
    && (forall dep | dep in Owed(s) :: (dep in before) != (dep in s.data.nondeterministic))
    && (s.detector.Writing? ==> s.detector.before == before)
  }

  lemma StartsSettled(cfg: Config, s: State, since: int, t: State)
    requires cfg.Valid() && Valid(s.data) && Next(cfg, s, DetectStart(since), t)
    requires s.queue == map[] && s.dirty == {} && forall k: Key | k.width == cfg.width :: !Stale(cfg, s, k)
    ensures SettledUnder(cfg, t, s.data.nondeterministic)
  {
    assert s.data.(nondeterministic := s.data.nondeterministic) == s.data;
    forall k: Key | k.width == cfg.width
      ensures Lookup(s.qos, k) == Fresh(cfg, s.data, k)
    {
      assert !Stale(cfg, s, k);
    }
  }

  lemma FlagsKeepSettled(cfg: Config, s: State, step: Step, t: State, before: set<DeploymentId>)
    requires cfg.Valid() && Valid(s.data) && Next(cfg, s, step, t) && (step.Flag? || step.Unflag?)
    requires SettledUnder(cfg, s, before)
    ensures SettledUnder(cfg, t, before)
  {
    assert t.data.(nondeterministic := before) == s.data.(nondeterministic := before);
  }

  lemma JudgeableHasKey(cfg: Config, d: Data, dep: DeploymentId) returns (k: Key)
    requires cfg.Valid() && Valid(d) && HasJudgeable(d, dep)
    ensures k.deployment == dep && k.width == cfg.width && HoldsJudgeable(cfg, d, k)
  {
    var o :| o in d.observations && Judgeable(d, o) && d.probes[o.probe].deployment == dep;
    k := KeyOfAnswer(cfg, d, o);
  }

  lemma SettledStaleIff(cfg: Config, s: State, before: set<DeploymentId>, k: Key)
    requires cfg.Valid() && Valid(s.data) && SettledUnder(cfg, s, before) && k.width == cfg.width && k.deployment in Owed(s)
    ensures Stale(cfg, s, k) <==> HoldsJudgeable(cfg, s.data, k)
  {
    FlagChangeAltersIff(cfg, s.data, before, k);
  }

  /** Cutting it short is then harmless if and only if no deployment it owes for has a judgeable answer. */
  lemma AbortHarmlessIffNothingJudgeable(cfg: Config, s: State, before: set<DeploymentId>)
    requires cfg.Valid() && Valid(s.data) && SettledUnder(cfg, s, before)
    ensures AbortHarmless(cfg, s) <==> forall dep | dep in Owed(s) :: !HasJudgeable(s.data, dep)
  {
    if dep :| dep in Owed(s) && HasJudgeable(s.data, dep) {
      var k := JudgeableHasKey(cfg, s.data, dep);
      SettledStaleIff(cfg, s, before, k);
      JudgeableHasProbe(cfg, s.data, k);
      assert !Queued(cfg, s, k);
    }
    forall k | Stale(cfg, s, k) && k.deployment in Owed(s)
      ensures HasJudgeable(s.data, k.deployment)
    {
      SettledStaleIff(cfg, s, before, k);
      var o :| o in s.data.observations && Judgeable(s.data, o) && KeyOfAnswer(cfg, s.data, o) == k;
    }
  }

  /** Whatever the detector's query finds has judgeable answers: it finds divergence from clear majorities. */
  lemma RotatingIsJudgeable(d: Data, since: int, deployment: DeploymentId)
    requires Valid(d) && deployment in Detector.Rotating(d, since)
    ensures HasJudgeable(d, deployment)
  {
    var probes := Detector.DivergentProbes(d, since, false, deployment);
    assert |probes| >= 3;
    var p :| p in probes;
    var o :| o in d.observations && Detector.Recent(d, since, o) && Detector.On(d, o, deployment) && o.hash.Some?
             && JudgedFault(d, o, false) && o.probe == p;
    assert Judgeable(d, o);
  }

  lemma NothingPendsAfterAbort(cfg: Config, s: State, before: set<DeploymentId>, t: State, k: Key)
    requires cfg.Valid() && Valid(s.data) && SettledUnder(cfg, s, before) && Next(cfg, s, Abort, t)
    ensures !Pending(cfg, t, k) && (Stale(cfg, t, k) <==> Stale(cfg, s, k))
  {
  }

  /** So from a settled state, cutting a run short that still owes for a deployment the evidence finds loses a bucket,
      always. */
  lemma AbortAfterFindingLoses(cfg: Config, s: State, before: set<DeploymentId>, since: int, deployment: DeploymentId, t: State)
    returns (k: Key)
    requires cfg.Valid() && Valid(s.data) && SettledUnder(cfg, s, before) && Next(cfg, s, Abort, t)
    requires deployment in Owed(s) && deployment in Detector.Rotating(s.data, since)
    ensures k.deployment == deployment && Stale(cfg, t, k) && !Pending(cfg, t, k)
    ensures !AbortHarmless(cfg, s) && !Inv(cfg, t)
  {
    RotatingIsJudgeable(s.data, since, deployment);
    AbortHarmlessIffNothingJudgeable(cfg, s, before);
    k := JudgeableHasKey(cfg, s.data, deployment);
    SettledStaleIff(cfg, s, before, k);
    NothingPendsAfterAbort(cfg, s, before, t, k);
  }
}
