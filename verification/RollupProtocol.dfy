/** The stored rollup kept current: a trailing window, a queue of re-roll requests drained one at a
    time, and everything else that writes the tables in between.

    Every SQL statement is one step. The drain loop, the non-determinism detector and everything else
    interleave freely; the drain loop may crash, and a detector run be cut short, anywhere. `dirty` is
    history only: the buckets a probe's rows were written to since a rollup last covered them. */
module RollupProtocol {
  import opened Prelude
  import opened Tables
  import opened Rollup
  import opened Requests
  import Detector

  /** Where the rollup loop is: between passes, before fetching the queue, or draining the ids it
      fetched, with the first of them already re-rolled or not. */
  datatype Loop = Idle | Fetching | Draining(todo: seq<nat>, rolled: bool)

  /** Where the detector is: between runs, writing flags, or enqueueing for the flags it changed. */
  datatype Detection = Resting | Writing(before: set<DeploymentId>, found: set<DeploymentId>) | Enqueueing(owed: set<DeploymentId>)

  datatype Place = Place(deployment: DeploymentId, start: int)

  datatype State = State(
    data: Data,
    qos: Table,
    queue: Queue,
    next: nat,
    now: int,
    loop: Loop,
    detector: Detection,
    dirty: set<Place>)

  function PlaceOf(cfg: Config, d: Data, p: ProbeId): Place
    requires cfg.Valid() && p in d.probes
  {
    Place(d.probes[p].deployment, Bucket(d.probes[p].dispatchedAt, cfg.width))
  }

  // ---------------------------------------------------------------------------
  // Steps.

  datatype Step =
    | StoreProbe(id: ProbeId, probe: Probe)
    | StoreAnswer(answer: Observation)
    | StoreCluster(id: ProbeId, row: Divergence)
    | Attribute(key: Address, indexer: Address)
    | Unresolved(key: Address)
    | DetectStart(since: int)
    | Flag(deployment: DeploymentId)
    | Unflag
    | Enqueue(deployment: DeploymentId)
    | Abort
    | TrailingRoll
    | Fetch
    | RollRequest
    | DeleteRequest
    | Finish
    | Crash
    | Reroll(from: int, to: int)
    | Tick(now: int)

  /** Deployments whose flag the detector has changed, or may yet, without having enqueued for them. */
  function Owed(s: State): set<DeploymentId> {
    match s.detector
    case Resting => {}
    case Writing(before, _) => (before - s.data.nondeterministic) + (s.data.nondeterministic - before)
    case Enqueueing(owed) => owed
  }

  /** The detector's run is over once it owes nothing. */
  function Owing(owed: set<DeploymentId>): Detection {
    if owed == {} then Resting else Enqueueing(owed)
  }

  predicate SortedIds(queue: Queue, ids: seq<nat>) {
    && (forall i | 0 <= i < |ids| :: ids[i] in queue)
    && (forall i, j | 0 <= i < j < |ids| :: ids[i] < ids[j])
    && (forall id | id in queue :: id in ids)
  }

  function WindowStart(cfg: Config, now: int): int
    requires cfg.Valid()
  {
    Bucket(TrailingFrom(cfg, now), cfg.width)
  }

  /** The state after rolling a range: what it covers is no longer dirty. */
  function Rolled(cfg: Config, s: State, from: int, to: Option<int>, deployment: Option<DeploymentId>): State
    requires cfg.Valid() && Valid(s.data)
  {
    var w := WindowRange(cfg, from, to);
    s.(qos := RollRange(cfg, s.data, s.qos, from, to, deployment),
       dirty := set p | p in s.dirty && !(w.Holds(p.start) && Wanted(deployment, p.deployment)))
  }

  /** A probe is stored after it was dispatched. */
  predicate ProbeStored(s: State, id: ProbeId, probe: Probe, t: State) {
    id !in s.data.probes && probe.dispatchedAt <= s.now && t == s.(data := s.data.(probes := s.data.probes[id := probe]))
  }

  predicate AnswerStored(cfg: Config, s: State, answer: Observation, t: State)
    requires cfg.Valid()
  {
    && answer.probe in s.data.probes
    && t == s.(data := s.data.(observations := s.data.observations + [answer]),
               dirty := s.dirty + {PlaceOf(cfg, s.data, answer.probe)})
  }

  predicate ClusterStored(cfg: Config, s: State, id: ProbeId, row: Divergence, t: State)
    requires cfg.Valid()
  {
    && id in s.data.probes && id !in s.data.divergence
    && t == s.(data := s.data.(divergence := s.data.divergence[id := row]),
               dirty := s.dirty + {PlaceOf(cfg, s.data, id)})
  }

  ghost predicate Attributed(s: State, key: Address, indexer: Address, t: State)
    requires Valid(s.data)
  {
    && t == s.(data := s.data.(attribution := s.data.attribution[key := Some(indexer)]), queue := t.queue, next := t.next)
    && Appended(s.queue, s.next, t.queue, t.next, AttributionRequests(s.data, key, indexer))
  }

  predicate LeftUnresolved(s: State, key: Address, t: State) {
    t == if key in s.data.attribution then s else s.(data := s.data.(attribution := s.data.attribution[key := None]))
  }

  /** The detector's query and its reading of the flags. */
  predicate RunStarted(s: State, since: int, t: State)
    requires Valid(s.data)
  {
    s.detector.Resting? && t == s.(detector := Writing(s.data.nondeterministic, Detector.Rotating(s.data, since)))
  }

  predicate FlagWritten(s: State, deployment: DeploymentId, t: State) {
    && s.detector.Writing? && deployment in s.detector.found
    && t == s.(data := s.data.(nondeterministic := s.data.nondeterministic + {deployment}))
  }

  /** The DELETE of the flags not found, once every found one is written. */
  predicate FlagsDropped(s: State, t: State) {
    && s.detector.Writing? && s.detector.found <= s.data.nondeterministic
    && var found, before := s.detector.found, s.detector.before;
    && t == s.(data := s.data.(nondeterministic := found), detector := Owing((before - found) + (found - before)))
  }

  ghost predicate DebtPaid(s: State, deployment: DeploymentId, t: State) {
    && s.detector.Enqueueing? && deployment in s.detector.owed
    && t == s.(detector := Owing(s.detector.owed - {deployment}), queue := t.queue, next := t.next)
    && Appended(s.queue, s.next, t.queue, t.next, DeploymentRequests(s.data, deployment))
  }

  predicate RangeRolled(cfg: Config, s: State, from: int, to: Option<int>, deployment: Option<DeploymentId>, loop: Loop, t: State)
    requires cfg.Valid() && Valid(s.data)
  {
    t == Rolled(cfg, s, from, to, deployment).(loop := loop)
  }

  predicate Fetched(s: State, t: State) {
    && s.loop.Fetching? && t == s.(loop := t.loop)
    && t.loop.Draining? && !t.loop.rolled && SortedIds(s.queue, t.loop.todo)
  }

  predicate RequestRolled(cfg: Config, s: State, t: State)
    requires cfg.Valid() && Valid(s.data)
  {
    && s.loop.Draining? && s.loop.todo != [] && !s.loop.rolled && s.loop.todo[0] in s.queue
    && var r := s.queue[s.loop.todo[0]];
    && RangeRolled(cfg, s, r.from, Some(r.to), r.deployment, s.loop.(rolled := true), t)
  }

  predicate RequestDeleted(s: State, t: State) {
    && s.loop.Draining? && s.loop.todo != [] && s.loop.rolled
    && t == s.(queue := s.queue - {s.loop.todo[0]}, loop := Draining(s.loop.todo[1..], false))
  }

  /** Steps of the probe scheduler, the resolver and the detector, which change what is measured. */
  predicate IsWriter(step: Step) {
    || step.StoreProbe? || step.StoreAnswer? || step.StoreCluster? || step.Attribute?
    || step.Unresolved? || step.Flag? || step.Unflag? || step.Enqueue?
  }

  ghost predicate Next(cfg: Config, s: State, step: Step, t: State)
    requires cfg.Valid() && Valid(s.data)
  {
    match step
    case StoreProbe(id, probe) => ProbeStored(s, id, probe, t)
    case StoreAnswer(answer) => AnswerStored(cfg, s, answer, t)
    case StoreCluster(id, row) => ClusterStored(cfg, s, id, row, t)
    case Attribute(key, indexer) => Attributed(s, key, indexer, t)
    case Unresolved(key) => LeftUnresolved(s, key, t)
    case DetectStart(since) => RunStarted(s, since, t)
    case Flag(deployment) => FlagWritten(s, deployment, t)
    case Unflag => FlagsDropped(s, t)
    case Enqueue(deployment) => DebtPaid(s, deployment, t)
    case Abort => t == s.(detector := Resting)
    case TrailingRoll => s.loop.Idle? && RangeRolled(cfg, s, TrailingFrom(cfg, s.now), None, None, Fetching, t)
    case Fetch => Fetched(s, t)
    case RollRequest => RequestRolled(cfg, s, t)
    case DeleteRequest => RequestDeleted(s, t)
    case Finish => s.loop.Draining? && s.loop.todo == [] && t == s.(loop := Idle)
    case Crash => t == s.(loop := Idle)
    case Reroll(from, to) => RangeRolled(cfg, s, from, Some(to), None, s.loop, t)
    case Tick(now) => s.now <= now && t == s.(now := now)
  }

  // ---------------------------------------------------------------------------
  // The invariant.

  predicate Stale(cfg: Config, s: State, k: Key)
    requires cfg.Valid() && Valid(s.data)
  {
    k.width == cfg.width && Lookup(s.qos, k) != Fresh(cfg, s.data, k)
  }

  /** The request the drain loop has already rolled and is about to delete, if any. */
  function Spent(s: State): Option<nat> {
    SpentAt(s.loop)
  }

  function SpentAt(loop: Loop): Option<nat> {
    if loop.Draining? && loop.rolled && loop.todo != [] then Some(loop.todo[0]) else None
  }

  /** A live request that is not about to be deleted covers `k`. */
  ghost predicate Queued(cfg: Config, s: State, k: Key)
    requires cfg.Valid()
  {
    exists id :: id in s.queue && Some(id) != Spent(s) && Covers(cfg, s.queue[id], k)
  }

  ghost predicate HasProbe(cfg: Config, d: Data, k: Key)
    requires cfg.Valid()
  {
    exists p :: p in d.probes && InPlace(cfg, d, p, k)
  }

  /** Bucket `k` will still be recomputed: by a live request that is not about to be deleted, by a
      request the detector still owes, or because a probe wrote to it since it was last rolled. */
  ghost predicate Pending(cfg: Config, s: State, k: Key)
    requires cfg.Valid()
  {
    || Queued(cfg, s, k)
    || (k.deployment in Owed(s) && HasProbe(cfg, s.data, k))
    || Place(k.deployment, k.start) in s.dirty
  }

  predicate LoopShape(s: State) {
    s.loop.Draining? ==>
      && (forall i | 0 <= i < |s.loop.todo| :: s.loop.todo[i] in s.queue)
      && (forall i, j | 0 <= i < j < |s.loop.todo| :: s.loop.todo[i] < s.loop.todo[j])
      && (s.loop.rolled ==> s.loop.todo != [])
  }

  predicate DetectorShape(s: State) {
    s.detector.Writing? ==> s.detector.before <= s.data.nondeterministic <= s.detector.before + s.detector.found
  }

  /** What holds of the ids and of where the loop and the detector are, whatever is stale. */
  predicate Shaped(s: State) {
    && Valid(s.data)
    && (forall id | id in s.queue :: id < s.next)
    && LoopShape(s)
    && DetectorShape(s)
  }

  ghost predicate Inv(cfg: Config, s: State)
    requires cfg.Valid()
  {
    Shaped(s) && forall k | Stale(cfg, s, k) :: Pending(cfg, s, k)
  }

  ghost predicate Init(cfg: Config, s: State) {
    && s.data == Data(map[], [], map[], map[], {})
    && s.qos == map[] && s.queue == map[] && s.next == 0
    && s.loop == Idle && s.detector == Resting && s.dirty == {}
  }

  lemma InitHolds(cfg: Config, s: State)
    requires cfg.Valid() && Init(cfg, s)
    ensures Inv(cfg, s)
  {
  }

  // ---------------------------------------------------------------------------
  // Every step keeps it.

  lemma RollKeeps(cfg: Config, s: State, from: int, to: Option<int>, deployment: Option<DeploymentId>, loop: Loop, t: State, k: Key)
    requires cfg.Valid() && Inv(cfg, s) && RangeRolled(cfg, s, from, to, deployment, loop, t)
    requires SpentAt(loop).Some? && SpentAt(loop) != Spent(s) ==>
               SpentAt(loop).value in s.queue && to.Some? && s.queue[SpentAt(loop).value] == Request(deployment, from, to.value)
    requires Stale(cfg, t, k)
    ensures Pending(cfg, t, k)
  {
    RollRangeIsFresh(cfg, s.data, s.qos, from, to, deployment, k);
    assert !Targeted(cfg, WindowRange(cfg, from, to), deployment, k) && Stale(cfg, s, k);
  }

  lemma RequestRollKeeps(cfg: Config, s: State, t: State, k: Key)
    requires cfg.Valid() && Inv(cfg, s) && RequestRolled(cfg, s, t) && Stale(cfg, t, k)
    ensures Pending(cfg, t, k)
  {
    var r := s.queue[s.loop.todo[0]];
    RollKeeps(cfg, s, r.from, Some(r.to), r.deployment, s.loop.(rolled := true), t, k);
  }

  lemma TrailingRollKeeps(cfg: Config, s: State, t: State, k: Key)
    requires cfg.Valid() && Inv(cfg, s) && Next(cfg, s, TrailingRoll, t) && Stale(cfg, t, k)
    ensures Pending(cfg, t, k)
  {
    RollKeeps(cfg, s, TrailingFrom(cfg, s.now), None, None, Fetching, t, k);
  }

  lemma RerollKeeps(cfg: Config, s: State, from: int, to: int, t: State, k: Key)
    requires cfg.Valid() && Inv(cfg, s) && Next(cfg, s, Reroll(from, to), t) && Stale(cfg, t, k)
    ensures Pending(cfg, t, k)
  {
    RollKeeps(cfg, s, from, Some(to), None, s.loop, t, k);
  }

  lemma ProbeKeeps(cfg: Config, s: State, id: ProbeId, probe: Probe, t: State, k: Key)
    requires cfg.Valid() && Inv(cfg, s) && ProbeStored(s, id, probe, t)
    requires Valid(t.data) && Stale(cfg, t, k)
    ensures Pending(cfg, t, k)
  {
    NewProbeChangesNothing(cfg, s.data, id, probe, k);
    assert Stale(cfg, s, k);
    KeptPending(cfg, s, t, k);
  }

  lemma AnswerKeeps(cfg: Config, s: State, o: Observation, t: State, k: Key)
    requires cfg.Valid() && Inv(cfg, s) && AnswerStored(cfg, s, o, t)
    requires Valid(t.data) && Stale(cfg, t, k)
    ensures Pending(cfg, t, k)
  {
    if !InPlace(cfg, s.data, o.probe, k) {
      NewAnswerStaysInPlace(cfg, s.data, o, k);
      assert Stale(cfg, s, k);
      KeptPending(cfg, s, t, k);
    }
  }

  lemma ClusterKeeps(cfg: Config, s: State, id: ProbeId, row: Divergence, t: State, k: Key)
    requires cfg.Valid() && Inv(cfg, s) && ClusterStored(cfg, s, id, row, t)
    requires Valid(t.data) && Stale(cfg, t, k)
    ensures Pending(cfg, t, k)
  {
    if !InPlace(cfg, s.data, id, k) {
      NewClusterStaysInPlace(cfg, s.data, id, row, k);
      assert Stale(cfg, s, k);
      KeptPending(cfg, s, t, k);
    }
  }

  /** What is pending stays pending while requests, debts, probes and history only grow. */
  lemma KeptPending(cfg: Config, s: State, t: State, k: Key)
    requires cfg.Valid() && Pending(cfg, s, k)
    requires Spent(t) == Spent(s) || Spent(t).None?
    requires s.dirty <= t.dirty && Owed(s) <= Owed(t)
    requires forall p | p in s.data.probes :: p in t.data.probes && t.data.probes[p] == s.data.probes[p]
    requires forall id | id in s.queue :: id in t.queue && t.queue[id] == s.queue[id]
    ensures Pending(cfg, t, k)
  {
  }

  lemma RequestedIsQueued(cfg: Config, s: State, t: State, added: set<Request>, k: Key)
    requires cfg.Valid() && Shaped(s) && Spent(t) == Spent(s)
    requires Appended(s.queue, s.next, t.queue, t.next, added) && exists r :: r in added && Covers(cfg, r, k)
    ensures Queued(cfg, t, k)
  {
    var r :| r in added && Covers(cfg, r, k);
    var id :| id in t.queue && id !in s.queue && t.queue[id] == r;
  }

  lemma AttributionKeeps(cfg: Config, s: State, key: Address, indexer: Address, t: State, k: Key)
    requires cfg.Valid() && Inv(cfg, s) && Attributed(s, key, indexer, t)
    requires Stale(cfg, t, k)
    ensures Pending(cfg, t, k)
  {
    if Fresh(cfg, t.data, k) != Fresh(cfg, s.data, k) {
      AttributionIsCovered(cfg, s.data, key, indexer, k);
      RequestedIsQueued(cfg, s, t, AttributionRequests(s.data, key, indexer), k);
    } else {
      assert Stale(cfg, s, k);
      KeptPending(cfg, s, t, k);
    }
  }

  lemma UnresolvedKeeps(cfg: Config, s: State, key: Address, t: State, k: Key)
    requires cfg.Valid() && Inv(cfg, s) && LeftUnresolved(s, key, t)
    requires Stale(cfg, t, k)
    ensures Pending(cfg, t, k)
  {
    if key !in s.data.attribution {
      UnresolvedChangesNothing(cfg, s.data, key, k);
    }
    assert Stale(cfg, s, k);
    KeptPending(cfg, s, t, k);
  }

  /** A flag change is owed for as soon as it is made, and stays owed. */
  lemma FlagChangesAreOwed(s: State, t: State, deployment: DeploymentId)
    requires (exists dep :: FlagWritten(s, dep, t)) || FlagsDropped(s, t)
    requires s.detector.before <= s.data.nondeterministic <= s.detector.before + s.detector.found
    ensures deployment in Owed(s) ==> deployment in Owed(t)
    ensures (deployment in t.data.nondeterministic) != (deployment in s.data.nondeterministic) ==> deployment in Owed(t)
  {
  }

  lemma FlagsKeep(cfg: Config, s: State, t: State, k: Key)
    requires cfg.Valid() && Inv(cfg, s) && ((exists dep :: FlagWritten(s, dep, t)) || FlagsDropped(s, t))
    requires Stale(cfg, t, k)
    ensures Pending(cfg, t, k)
  {
    var flags := t.data.nondeterministic;
    assert t.data == s.data.(nondeterministic := flags);
    forall dep
      ensures dep in Owed(s) ==> dep in Owed(t)
    {
      FlagChangesAreOwed(s, t, dep);
    }
    if Fresh(cfg, t.data, k) != Fresh(cfg, s.data, k) {
      FlagChangeIsCovered(cfg, s.data, flags, k);
      FlagChangesAreOwed(s, t, k.deployment);
      var p :| p in s.data.probes && InPlace(cfg, s.data, p, k);
      assert p in t.data.probes && InPlace(cfg, t.data, p, k);
    } else {
      assert Stale(cfg, s, k);
      KeptPending(cfg, s, t, k);
    }
  }

  lemma EnqueueKeeps(cfg: Config, s: State, deployment: DeploymentId, t: State, k: Key)
    requires cfg.Valid() && Inv(cfg, s) && DebtPaid(s, deployment, t)
    requires Stale(cfg, t, k)
    ensures Pending(cfg, t, k)
  {
    assert Stale(cfg, s, k);
    if k.deployment == deployment && exists p :: p in s.data.probes && InPlace(cfg, s.data, p, k) {
      var p :| p in s.data.probes && InPlace(cfg, s.data, p, k);
      DeploymentRequestCovers(cfg, s.data, p, k);
      RequestedIsQueued(cfg, s, t, DeploymentRequests(s.data, deployment), k);
    } else if id :| id in s.queue && Some(id) != Spent(s) && Covers(cfg, s.queue[id], k) {
      assert id in t.queue && t.queue[id] == s.queue[id];
    } else if p :| p in s.data.probes && InPlace(cfg, s.data, p, k) {
      assert InPlace(cfg, t.data, p, k);
    }
  }

  lemma DeleteKeeps(cfg: Config, s: State, t: State, k: Key)
    requires cfg.Valid() && Inv(cfg, s) && RequestDeleted(s, t)
    requires Stale(cfg, t, k)
    ensures Pending(cfg, t, k)
  {
    assert Stale(cfg, s, k);
    if id :| id in s.queue && Some(id) != Spent(s) && Covers(cfg, s.queue[id], k) {
      assert id in t.queue;
    }
  }

  lemma QuietKeeps(cfg: Config, s: State, t: State, k: Key)
    requires cfg.Valid() && Inv(cfg, s)
    requires t.data == s.data && t.qos == s.qos && t.queue == s.queue && t.dirty == s.dirty && Owed(t) == Owed(s)
    requires Spent(t) == Spent(s) || Spent(t).None?
    requires Stale(cfg, t, k)
    ensures Pending(cfg, t, k)
  {
    assert Stale(cfg, s, k);
    KeptPending(cfg, s, t, k);
  }

  lemma WriterKeepsPending(cfg: Config, s: State, step: Step, t: State, k: Key)
    requires cfg.Valid() && Inv(cfg, s) && Next(cfg, s, step, t) && IsWriter(step)
    requires Valid(t.data) && Stale(cfg, t, k)
    ensures Pending(cfg, t, k)
  {
    match step
    case StoreProbe(id, probe) => ProbeKeeps(cfg, s, id, probe, t, k);
    case StoreAnswer(answer) => AnswerKeeps(cfg, s, answer, t, k);
    case StoreCluster(id, row) => ClusterKeeps(cfg, s, id, row, t, k);
    case Attribute(key, indexer) => AttributionKeeps(cfg, s, key, indexer, t, k);
    case Unresolved(key) => UnresolvedKeeps(cfg, s, key, t, k);
    case Flag(_) => FlagsKeep(cfg, s, t, k);
    case Unflag => FlagsKeep(cfg, s, t, k);
    case Enqueue(deployment) => EnqueueKeeps(cfg, s, deployment, t, k);
  }

  predicate IsRoll(step: Step) {
    step.TrailingRoll? || step.RollRequest? || step.Reroll?
  }

  lemma RollStepKeepsPending(cfg: Config, s: State, step: Step, t: State, k: Key)
    requires cfg.Valid() && Inv(cfg, s) && Next(cfg, s, step, t) && IsRoll(step)
    requires Valid(t.data) && Stale(cfg, t, k)
    ensures Pending(cfg, t, k)
  {
    if step.TrailingRoll? {
      TrailingRollKeeps(cfg, s, t, k);
    } else if step.RollRequest? {
      RequestRollKeeps(cfg, s, t, k);
    } else {
      RerollKeeps(cfg, s, step.from, step.to, t, k);
    }
  }

  lemma LoopKeepsPending(cfg: Config, s: State, step: Step, t: State, k: Key)
    requires cfg.Valid() && Inv(cfg, s) && Next(cfg, s, step, t) && !IsWriter(step) && !IsRoll(step) && !step.Abort?
    requires Valid(t.data) && Stale(cfg, t, k)
    ensures Pending(cfg, t, k)
  {
    match step
    case DeleteRequest => DeleteKeeps(cfg, s, t, k);
    case _ => QuietKeeps(cfg, s, t, k);
  }

  lemma StepKeepsShape(cfg: Config, s: State, step: Step, t: State)
    requires cfg.Valid() && Shaped(s) && Next(cfg, s, step, t)
    ensures Valid(t.data) && (forall id | id in t.queue :: id < t.next)
    ensures DetectorShape(t)
  {
  }

  lemma StepKeepsLoop(cfg: Config, s: State, step: Step, t: State)
    requires cfg.Valid() && Shaped(s) && Next(cfg, s, step, t)
    ensures LoopShape(t)
  {
  }

  /** Cutting the detector's run short here loses nothing: every stale bucket it owes a request for has
      another reason to be recomputed. */
  ghost predicate AbortHarmless(cfg: Config, s: State)
    requires cfg.Valid() && Valid(s.data)
  {
    forall k | Stale(cfg, s, k) && k.deployment in Owed(s) && HasProbe(cfg, s.data, k) ::
      Queued(cfg, s, k) || Place(k.deployment, k.start) in s.dirty
  }

  lemma AbortKeepsInvIffHarmless(cfg: Config, s: State, t: State)
    requires cfg.Valid() && Inv(cfg, s) && t == s.(detector := Resting)
    ensures Inv(cfg, t) <==> AbortHarmless(cfg, s)
  {
    forall k: Key
      ensures Stale(cfg, t, k) == Stale(cfg, s, k)
      ensures Pending(cfg, t, k) <==> Queued(cfg, s, k) || Place(k.deployment, k.start) in s.dirty
    {
      assert Spent(t) == Spent(s) && Owed(t) == {};
      assert Queued(cfg, t, k) == Queued(cfg, s, k);
    }
  }

  /** A run that has changed no flag, or has enqueued for every one it changed, can be cut short. */
  lemma NothingOwedIsHarmless(cfg: Config, s: State)
    requires cfg.Valid() && Valid(s.data) && Owed(s) == {}
    ensures AbortHarmless(cfg, s)
  {
  }

  /** The invariant is inductive, under every interleaving and any crash of the drain loop; and a detector run
      cut short keeps it exactly when that is harmless. */
  lemma NextKeepsInv(cfg: Config, s: State, step: Step, t: State)
    requires cfg.Valid() && Inv(cfg, s) && Next(cfg, s, step, t)
    ensures Inv(cfg, t) <==> (step.Abort? ==> AbortHarmless(cfg, s))
  {
    if step.Abort? {
      AbortKeepsInvIffHarmless(cfg, s, t);
    } else {
      StepKeepsInv(cfg, s, step, t);
    }
  }

  lemma StepKeepsInv(cfg: Config, s: State, step: Step, t: State)
    requires cfg.Valid() && Inv(cfg, s) && Next(cfg, s, step, t) && !step.Abort?
    ensures Inv(cfg, t)
  {
    StepKeepsShape(cfg, s, step, t);
    StepKeepsLoop(cfg, s, step, t);
    forall k | Stale(cfg, t, k)
      ensures Pending(cfg, t, k)
    {
      if IsWriter(step) {
        WriterKeepsPending(cfg, s, step, t, k);
      } else if IsRoll(step) {
        RollStepKeepsPending(cfg, s, step, t, k);
      } else {
        LoopKeepsPending(cfg, s, step, t, k);
      }
    }
  }

  // ---------------------------------------------------------------------------
  // Whole runs.

  ghost predicate TakenAt(cfg: Config, states: seq<State>, steps: seq<Step>, i: nat)
    requires cfg.Valid() && i < |steps| && |states| == |steps| + 1
  {
    Valid(states[i].data) && Next(cfg, states[i], steps[i], states[i + 1])
  }

  ghost predicate Run(cfg: Config, states: seq<State>, steps: seq<Step>)
    requires cfg.Valid()
  {
    && |states| == |steps| + 1
    && Init(cfg, states[0])
    && forall i | 0 <= i < |steps| :: TakenAt(cfg, states, steps, i)
  }

  /** No detector run was cut short where that loses something. */
  ghost predicate NoHarmBefore(cfg: Config, states: seq<State>, steps: seq<Step>, n: nat)
    requires cfg.Valid() && Run(cfg, states, steps) && n <= |steps|
  {
    forall i | 0 <= i < n && steps[i].Abort? :: HarmlessAt(cfg, states, steps, i)
  }

  ghost predicate HarmlessAt(cfg: Config, states: seq<State>, steps: seq<Step>, i: nat)
    requires cfg.Valid() && Run(cfg, states, steps) && i < |steps|
  {
    assert TakenAt(cfg, states, steps, i);
    AbortHarmless(cfg, states[i])
  }

  lemma {:induction false} InvHolds(cfg: Config, states: seq<State>, steps: seq<Step>, n: nat)
    requires cfg.Valid() && Run(cfg, states, steps) && n < |states| && NoHarmBefore(cfg, states, steps, n)
    ensures Inv(cfg, states[n])
  {
    if n == 0 {
      InitHolds(cfg, states[0]);
    } else {
      InvHolds(cfg, states, steps, n - 1);
      assert TakenAt(cfg, states, steps, n - 1);
      assert steps[n - 1].Abort? ==> HarmlessAt(cfg, states, steps, n - 1);
      NextKeepsInv(cfg, states[n - 1], steps[n - 1], states[n]);
    }
  }

  /** In every state of every run that cuts no detector run short where that loses something, a bucket that
      differs from a from-scratch rollup of the current data has a live request covering it that the drain
      loop is not about to delete, or is owed one by the running detector, or was written to by a probe since
      it was last rolled. */
  lemma EveryReachableStateIsPendingOrFresh(cfg: Config, states: seq<State>, steps: seq<Step>, n: nat)
    requires cfg.Valid() && Run(cfg, states, steps) && n < |states| && NoHarmBefore(cfg, states, steps, n)
    ensures Inv(cfg, states[n])
    ensures forall k | Stale(cfg, states[n], k) :: Pending(cfg, states[n], k)
  {
    InvHolds(cfg, states, steps, n);
  }

  /** A rollup has run before any bucket a probe wrote to left the trailing window. */
  predicate Timely(cfg: Config, s: State)
    requires cfg.Valid()
  {
    forall p | p in s.dirty :: WindowStart(cfg, s.now) <= p.start
  }

  /** While rollups are timely, a stale bucket without a request, live or owed, lies in the window the
      next pass recomputes; and that pass forgets nothing. */
  lemma TimelyStaleIsInWindow(cfg: Config, s: State, k: Key)
    requires cfg.Valid() && Inv(cfg, s) && Timely(cfg, s) && Stale(cfg, s, k)
    ensures Covered(cfg, s.queue, k) || k.deployment in Owed(s)
            || WindowRange(cfg, TrailingFrom(cfg, s.now), None).Holds(k.start)
    ensures Rolled(cfg, s, TrailingFrom(cfg, s.now), None, None).dirty == {}
  {
    assert Pending(cfg, s, k);
    assert WindowRange(cfg, TrailingFrom(cfg, s.now), None) == Window(WindowStart(cfg, s.now), None);
  }

  /** One pass of the loop after the trailing roll, with nothing in between. */
  function Drained(cfg: Config, s: State): State
    requires cfg.Valid() && Valid(s.data) && s.loop.Draining? && !s.loop.rolled
    requires forall id <- s.loop.todo :: id in s.queue
    requires forall i, j | 0 <= i < j < |s.loop.todo| :: s.loop.todo[i] < s.loop.todo[j]
    decreases |s.loop.todo|
  {
    if s.loop.todo == [] then s.(loop := Idle)
    else
      var id := s.loop.todo[0];
      var r := s.queue[id];
      var rolled := Rolled(cfg, s, r.from, Some(r.to), r.deployment).(loop := s.loop.(rolled := true));
      Drained(cfg, rolled.(queue := rolled.queue - {id}, loop := Draining(s.loop.todo[1..], false)))
  }

  lemma {:induction false} DrainSettles(cfg: Config, s: State)
    requires cfg.Valid() && Inv(cfg, s) && s.loop.Draining? && !s.loop.rolled
    requires s.queue.Keys <= (set id | id in s.loop.todo) && s.dirty == {} && s.detector.Resting?
    ensures var t := Drained(cfg, s);
            Inv(cfg, t) && t.queue == map[] && t.dirty == {} && t.detector.Resting? && t.data == s.data
    decreases |s.loop.todo|
  {
    if s.loop.todo == [] {
      StepKeepsInv(cfg, s, Finish, s.(loop := Idle));
    } else {
      var id := s.loop.todo[0];
      var r := s.queue[id];
      var rolled := Rolled(cfg, s, r.from, Some(r.to), r.deployment).(loop := s.loop.(rolled := true));
      var deleted := rolled.(queue := rolled.queue - {id}, loop := Draining(s.loop.todo[1..], false));
      StepKeepsInv(cfg, s, RollRequest, rolled);
      StepKeepsInv(cfg, rolled, DeleteRequest, deleted);
      DrainSettles(cfg, deleted);
    }
  }

  lemma PassStarts(cfg: Config, s: State, rolled: State, fetched: State)
    requires cfg.Valid() && Inv(cfg, s) && Timely(cfg, s) && s.loop.Idle? && s.detector.Resting?
    requires rolled == Rolled(cfg, s, TrailingFrom(cfg, s.now), None, None).(loop := Fetching)
    requires Fetched(rolled, fetched)
    ensures Inv(cfg, fetched) && fetched.dirty == {} && fetched.data == s.data && fetched.detector.Resting?
    ensures fetched.loop.Draining? && !fetched.loop.rolled && fetched.queue.Keys <= (set id | id in fetched.loop.todo)
  {
    StepKeepsInv(cfg, s, TrailingRoll, rolled);
    StepKeepsInv(cfg, rolled, Fetch, fetched);
    assert WindowRange(cfg, TrailingFrom(cfg, s.now), None) == Window(WindowStart(cfg, s.now), None);
    assert rolled.dirty == {};
  }

  /** A pass that nothing interrupts, over a timely state with the detector at rest, leaves the table
      exactly a from-scratch rollup at its width, with nothing queued. */
  lemma UndisturbedPassIsExact(cfg: Config, s: State, fetched: State, k: Key)
    requires cfg.Valid() && Inv(cfg, s) && Timely(cfg, s) && s.loop.Idle? && s.detector.Resting?
    requires var rolled := Rolled(cfg, s, TrailingFrom(cfg, s.now), None, None).(loop := Fetching);
             Valid(rolled.data) && Next(cfg, rolled, Fetch, fetched)
    requires k.width == cfg.width
    ensures var t := Drained(cfg, fetched);
            t.queue == map[] && t.data == s.data && Lookup(t.qos, k) == Fresh(cfg, s.data, k)
  {
    var rolled := Rolled(cfg, s, TrailingFrom(cfg, s.now), None, None).(loop := Fetching);
    PassStarts(cfg, s, rolled, fetched);
    DrainSettles(cfg, fetched);
    var t := Drained(cfg, fetched);
    assert Stale(cfg, t, k) ==> Pending(cfg, t, k);
  }
}
