/** Runs that lose an invalidation: one off schedule, and one whose detector is cut short. */
module RollupExamples {
  import opened Prelude
  import opened Tables
  import opened Judgement
  import opened Rollup
  import opened Requests
  import opened RollupProtocol
  import opened RollupRuns
  import Detector

  const EXAMPLE_CONFIG := Config(300, 3600, 12)

  const EXAMPLE_KEY := Key("A", "D", 0, 300)

  const EXAMPLE_PLACE := Place("D", 0)

  // ---------------------------------------------------------------------------
  // Building runs.

  /** Some run without aborts ends in `s`. */
  ghost predicate Reached(cfg: Config, s: State)
    requires cfg.Valid()
  {
    exists states, steps :: ReachedBy(cfg, s, states, steps)
  }

  ghost predicate ReachedBy(cfg: Config, s: State, states: seq<State>, steps: seq<Step>)
    requires cfg.Valid()
  {
    Run(cfg, states, steps) && states[|steps|] == s && forall i | 0 <= i < |steps| :: !steps[i].Abort?
  }

  lemma RunExtends(cfg: Config, states: seq<State>, steps: seq<Step>, step: Step, t: State)
    requires cfg.Valid() && Run(cfg, states, steps)
    requires Valid(states[|steps|].data) && Next(cfg, states[|steps|], step, t)
    ensures Run(cfg, states + [t], steps + [step])
  {
    var more, taken := states + [t], steps + [step];
    forall i | 0 <= i < |taken|
      ensures TakenAt(cfg, more, taken, i)
    {
      if i < |steps| { assert TakenAt(cfg, states, steps, i); }
    }
  }

  lemma ReachedNext(cfg: Config, s: State, step: Step, t: State)
    requires cfg.Valid() && Reached(cfg, s) && Valid(s.data) && Next(cfg, s, step, t) && !step.Abort?
    ensures Reached(cfg, t)
  {
    var states, steps :| ReachedBy(cfg, s, states, steps);
    RunExtends(cfg, states, steps, step, t);
    assert ReachedBy(cfg, t, states + [t], steps + [step]);
  }

  lemma ReachedIsInv(cfg: Config, s: State)
    requires cfg.Valid() && Reached(cfg, s)
    ensures Inv(cfg, s)
  {
    var states, steps :| ReachedBy(cfg, s, states, steps);
    InvHolds(cfg, states, steps, |steps|);
  }

  function Start(): State {
    State(Data(map[], [], map[], map[], {}), map[], map[], 0, 100, Idle, Resting, {})
  }

  lemma StartIsReached(cfg: Config)
    requires cfg.Valid()
    ensures Reached(cfg, Start())
  {
    assert ReachedBy(cfg, Start(), [Start()], []);
  }

  // ---------------------------------------------------------------------------
  // Three rounds on one deployment; in each another of its three indexers is in the minority.

  const DISPATCHED := Probe("D", 0, 100)

  const AGREED := Divergence("y", 2)

  function Name(j: nat): Address
    requires j < 3
  {
    ["A", "B", "C"][j]
  }

  function Reply(p: nat, j: nat): Observation
    requires j < 3
  {
    Observation(p, Name(j), Some(if j + 1 == p then "n" else "y"), Some(40), None, Some(200), None, Paid)
  }

  function Round(p: nat): seq<Observation> {
    [Reply(p, 0), Reply(p, 1), Reply(p, 2)]
  }

  function Evidence(): (all: seq<Observation>)
    ensures |all| == 9
  {
    Round(1) + Round(2) + Round(3)
  }

  function Disputed(flags: set<DeploymentId>): Data {
    Data(map[1 := DISPATCHED, 2 := DISPATCHED, 3 := DISPATCHED], Evidence(), map[],
         map[1 := AGREED, 2 := AGREED, 3 := AGREED], flags)
  }

  lemma EvidenceAt(i: nat)
    requires i < 9
    ensures Evidence()[i] == Reply(i / 3 + 1, i % 3)
  {
  }

  lemma EvidenceMembers(o: Observation)
    ensures o in Evidence() <==> exists p: nat, j: nat :: 1 <= p <= 3 && j < 3 && o == Reply(p, j)
  {
    if o in Evidence() {
      var i :| 0 <= i < 9 && Evidence()[i] == o;
      EvidenceAt(i);
    }
    if p: nat, j: nat :| 1 <= p <= 3 && j < 3 && o == Reply(p, j) {
      EvidenceAt((p - 1) * 3 + j);
    }
  }

  lemma DisputedIsValid(flags: set<DeploymentId>)
    ensures Valid(Disputed(flags))
  {
    forall o | o in Evidence()
      ensures o.probe in Disputed(flags).probes
    {
      EvidenceMembers(o);
    }
  }

  lemma {:induction false} RespondersJoin(a: seq<Observation>, b: seq<Observation>, p: ProbeId)
    ensures Responders(a + b, p) == Responders(a, p) + Responders(b, p)
  {
    if b == [] {
      assert a + b == a;
    } else {
      assert (a + b)[..|a + b| - 1] == a + b[..|b| - 1];
      RespondersJoin(a, b[..|b| - 1], p);
    }
  }

  lemma RoundResponders(p: nat, q: ProbeId)
    ensures Responders(Round(p), q) == if p == q then 3 else 0
  {
    assert Round(p)[..2] == [Reply(p, 0), Reply(p, 1)] && [Reply(p, 0), Reply(p, 1)][..1] == [Reply(p, 0)];
    assert Responders([Reply(p, 0)], q) == if p == q then 1 else 0;
    assert Responders([Reply(p, 0), Reply(p, 1)], q) == if p == q then 2 else 0;
  }

  lemma EvidenceResponders(p: ProbeId)
    requires 1 <= p <= 3
    ensures Responders(Evidence(), p) == 3
  {
    RespondersJoin(Round(1) + Round(2), Round(3), p);
    RespondersJoin(Round(1), Round(2), p);
    RoundResponders(1, p);
    RoundResponders(2, p);
    RoundResponders(3, p);
  }

  /** How each answer is judged. */
  lemma ReplyIsJudged(flags: set<DeploymentId>, p: nat, j: nat)
    requires 1 <= p <= 3 && j < 3
    ensures var d, o := Disputed(flags), Reply(p, j);
      && o in d.observations && Admitted(d, o) && Identity(d, o) == Some(Name(j))
      && (JudgedFault(d, o, false) <==> j + 1 == p)
      && (RollupComparable(d, o) <==> "D" !in flags)
  {
    EvidenceMembers(Reply(p, j));
    EvidenceResponders(p);
  }

  const WHO: set<Address> := {"A", "B", "C"}

  const WHERE: set<Detector.Position> := {Detector.Position("A", 1), Detector.Position("B", 2), Detector.Position("C", 3)}

  lemma ReplyOf(o: Observation) returns (p: nat, j: nat)
    requires o in Evidence()
    ensures 1 <= p <= 3 && j < 3 && o == Reply(p, j)
  {
    EvidenceMembers(o);
    p, j :| 1 <= p <= 3 && j < 3 && o == Reply(p, j);
  }

  lemma DisputedProbes(flags: set<DeploymentId>, since: int)
    requires since < 0
    ensures Valid(Disputed(flags))
    ensures Detector.AnsweredProbes(Disputed(flags), since, "D") == {1, 2, 3}
    ensures Detector.DivergentProbes(Disputed(flags), since, false, "D") == {1, 2, 3}
  {
    var d := Disputed(flags);
    DisputedIsValid(flags);
    forall q | q in {1, 2, 3}
      ensures q in Detector.DivergentProbes(d, since, false, "D") && q in Detector.AnsweredProbes(d, since, "D")
    {
      ReplyIsJudged(flags, q, q - 1);
      assert Reply(q, q - 1) in d.observations;
    }
    forall o | o in d.observations
      ensures o.probe in {1, 2, 3}
    {
      var p, j := ReplyOf(o);
    }
  }

  lemma MinorityReply(flags: set<DeploymentId>, o: Observation) returns (j: nat)
    requires o in Evidence() && o.probe in Disputed(flags).probes && JudgedFault(Disputed(flags), o, false)
    ensures j < 3 && o == Reply(j + 1, j) && Identity(Disputed(flags), o) == Some(Name(j))
  {
    var p;
    p, j := ReplyOf(o);
    ReplyIsJudged(flags, p, j);
  }

  lemma NamesAreWho(j: nat)
    requires j < 3
    ensures Name(j) in WHO && Detector.Position(Name(j), j + 1) in WHERE
    ensures Name(j) == if j == 0 then "A" else if j == 1 then "B" else "C"
  {
  }

  lemma IndexerIsFound(flags: set<DeploymentId>, since: int, j: nat)
    requires since < 0 && Valid(Disputed(flags)) && j < 3
    ensures Name(j) in Detector.MinorityIndexers(Disputed(flags), since, false, "D")
    ensures Detector.Position(Name(j), j + 1) in Detector.MinorityPositions(Disputed(flags), since, false, "D")
    ensures Name(j) == if j == 0 then "A" else if j == 1 then "B" else "C"
  {
    ReplyIsJudged(flags, j + 1, j);
    NamesAreWho(j);
    assert Reply(j + 1, j) in Disputed(flags).observations;
  }

  /** Every judged fault on "D" is one of the given minority positions. */
  ghost predicate FaultsWithin(d: Data, who: set<Address>, where: set<Detector.Position>)
    requires Valid(d)
  {
    forall o | o in d.observations && JudgedFault(d, o, false) && Identity(d, o).Some? ::
      Identity(d, o).value in who && Detector.Position(Identity(d, o).value, o.probe) in where
  }

  lemma MinorityIs(d: Data, since: int, who: set<Address>, where: set<Detector.Position>)
    requires Valid(d) && FaultsWithin(d, who, where)
    requires forall ix <- who :: ix in Detector.MinorityIndexers(d, since, false, "D")
    requires forall p <- where :: p in Detector.MinorityPositions(d, since, false, "D")
    ensures Detector.MinorityIndexers(d, since, false, "D") == who
    ensures Detector.MinorityPositions(d, since, false, "D") == where
  {
  }

  lemma DisputedWithin(flags: set<DeploymentId>)
    requires Valid(Disputed(flags))
    ensures FaultsWithin(Disputed(flags), WHO, WHERE)
  {
    var d := Disputed(flags);
    forall o | o in d.observations && JudgedFault(d, o, false) && Identity(d, o).Some?
      ensures Identity(d, o).value in WHO && Detector.Position(Identity(d, o).value, o.probe) in WHERE
    {
      var j := MinorityReply(flags, o);
      NamesAreWho(j);
    }
  }

  lemma AllAreFound(flags: set<DeploymentId>, since: int)
    requires since < 0 && Valid(Disputed(flags))
    ensures forall ix <- WHO :: ix in Detector.MinorityIndexers(Disputed(flags), since, false, "D")
    ensures forall p <- WHERE :: p in Detector.MinorityPositions(Disputed(flags), since, false, "D")
  {
    IndexerIsFound(flags, since, 0);
    IndexerIsFound(flags, since, 1);
    IndexerIsFound(flags, since, 2);
  }

  lemma DisputedMinority(flags: set<DeploymentId>, since: int)
    requires since < 0 && Valid(Disputed(flags))
    ensures Detector.MinorityIndexers(Disputed(flags), since, false, "D") == WHO
    ensures Detector.MinorityPositions(Disputed(flags), since, false, "D") == WHERE
  {
    AllAreFound(flags, since);
    DisputedWithin(flags);
    MinorityIs(Disputed(flags), since, WHO, WHERE);
  }

  lemma DisputedConcentration(flags: set<DeploymentId>, since: int, ix: Address)
    requires since < 0 && Valid(Disputed(flags))
    ensures |Detector.MinorityProbes(Disputed(flags), since, false, "D", ix)| <= 1
  {
    var d := Disputed(flags);
    var p := if ix == "A" then 1 else if ix == "B" then 2 else 3;
    var probes := Detector.MinorityProbes(d, since, false, "D", ix);
    assert Name(0) == "A" && Name(1) == "B" && Name(2) == "C";
    forall o | o in d.observations && JudgedFault(d, o, false) && Identity(d, o) == Some(ix)
      ensures o.probe == p
    {
      var j := MinorityReply(flags, o);
    }
    assert probes <= {p};
    SubsetSize(probes, {p});
  }

  lemma SubsetSize(a: set<ProbeId>, b: set<ProbeId>)
    requires a <= b
    ensures |a| <= |b|
  {
    assert b == a + (b - a);
  }

  /** Three disputed probes out of three, with a different indexer in the minority of each. */
  lemma EvenlySpreadRotates(d: Data, since: int, deployment: DeploymentId)
    requires Valid(d)
    requires |Detector.AnsweredProbes(d, since, deployment)| == |Detector.DivergentProbes(d, since, false, deployment)| == 3
    requires |Detector.MinorityIndexers(d, since, false, deployment)| == 3
    requires |Detector.MinorityPositions(d, since, false, deployment)| == 3
    requires forall ix :: |Detector.MinorityProbes(d, since, false, deployment, ix)| <= 1
    ensures Detector.Rotates(d, since, false, deployment)
  {
  }

  lemma Sizes()
    ensures |WHO| == 3 && |WHERE| == 3 && |{1, 2, 3}| == 3
  {
  }

  lemma OnlyD(flags: set<DeploymentId>, o: Observation)
    requires o in Evidence()
    ensures o.probe in Disputed(flags).probes && Disputed(flags).probes[o.probe].deployment == "D"
  {
    var p, j := ReplyOf(o);
  }

  /** The detector's query finds the deployment, flagged already or not. */
  lemma DisputedRotates(flags: set<DeploymentId>, since: int)
    requires since < 0
    ensures Valid(Disputed(flags)) && Detector.Rotating(Disputed(flags), since) == {"D"}
  {
    var d := Disputed(flags);
    DisputedProbes(flags, since);
    DisputedMinority(flags, since);
    forall ix
      ensures |Detector.MinorityProbes(d, since, false, "D", ix)| <= 1
    {
      DisputedConcentration(flags, since, ix);
    }
    Sizes();
    EvenlySpreadRotates(d, since, "D");
    EvidenceMembers(Reply(1, 0));
    OnlyDRotates(d, since, Reply(1, 0), flags);
  }

  lemma OnlyDRotates(d: Data, since: int, o: Observation, flags: set<DeploymentId>)
    requires Valid(d) && o in d.observations && d == Disputed(flags) && Detector.Rotates(d, since, false, "D")
    ensures Detector.Rotating(d, since) == {"D"}
  {
    forall q | q in d.observations
      ensures d.probes[q.probe].deployment == "D"
    {
      OnlyD(flags, q);
    }
    assert d.probes[o.probe].deployment == "D";
  }

  // ---------------------------------------------------------------------------
  // Measuring them.

  function At(d: Data, qos: Table, now: int, dirty: set<Place>): State {
    State(d, qos, map[], 0, now, Idle, Resting, dirty)
  }

  function EachUpTo<T>(n: nat, value: T): map<ProbeId, T> {
    if n == 0 then map[] else EachUpTo(n - 1, value)[n := value]
  }

  lemma ThreeOf<T>(value: T)
    ensures EachUpTo(3, value) == map[1 := value, 2 := value, 3 := value]
  {
    assert EachUpTo(1, value) == map[1 := value];
    assert EachUpTo(2, value) == map[1 := value, 2 := value];
  }

  /** The tables with the probes of the first `m` rounds, these answers and the clusters of `c` rounds. */
  function Partial(m: nat, rows: seq<Observation>, c: nat): Data {
    Data(EachUpTo(m, DISPATCHED), rows, map[], EachUpTo(c, AGREED), {})
  }

  lemma {:induction false} UpTo<T>(n: nat, value: T, p: ProbeId)
    ensures p in EachUpTo(n, value) <==> 1 <= p <= n
  {
    if n > 0 { UpTo(n - 1, value, p); }
  }

  predicate OfTheRounds(rows: seq<Observation>) {
    forall o <- rows :: 1 <= o.probe <= 3
  }

  lemma PartialIsValid(rows: seq<Observation>, c: nat)
    requires OfTheRounds(rows) && c <= 3
    ensures Valid(Partial(3, rows, c)) && forall p :: p in Partial(3, rows, c).divergence <==> 1 <= p <= c
  {
    forall p
      ensures p in EachUpTo(3, DISPATCHED) <==> 1 <= p <= 3
      ensures p in EachUpTo(c, AGREED) <==> 1 <= p <= c
    {
      UpTo(3, DISPATCHED, p);
      UpTo(c, AGREED, p);
    }
  }

  lemma {:induction false} ProbesAreReached(m: nat)
    requires m <= 3
    ensures Reached(EXAMPLE_CONFIG, At(Partial(m, [], 0), map[], 100, {}))
  {
    var t := At(Partial(m, [], 0), map[], 100, {});
    if m == 0 {
      StartIsReached(EXAMPLE_CONFIG);
      assert t == Start();
    } else {
      ProbesAreReached(m - 1);
      var s := At(Partial(m - 1, [], 0), map[], 100, {});
      UpTo(m - 1, DISPATCHED, m);
      ReachedNext(EXAMPLE_CONFIG, s, StoreProbe(m, DISPATCHED), t);
    }
  }

  function Dirt(rows: seq<Observation>): set<Place> {
    if rows == [] then {} else {EXAMPLE_PLACE}
  }

  lemma AnswerIsReached(s: State, o: Observation, t: State)
    requires Reached(EXAMPLE_CONFIG, s) && Valid(s.data) && o.probe in s.data.probes && s.data.probes[o.probe] == DISPATCHED
    requires t == s.(data := s.data.(observations := s.data.observations + [o]), dirty := {EXAMPLE_PLACE})
    requires s.dirty <= {EXAMPLE_PLACE}
    ensures Reached(EXAMPLE_CONFIG, t)
  {
    assert s.dirty + {EXAMPLE_PLACE} == {EXAMPLE_PLACE};
    ReachedNext(EXAMPLE_CONFIG, s, StoreAnswer(o), t);
  }

  lemma {:induction false} DispatchedAll(n: nat, p: ProbeId)
    requires 1 <= p <= n
    ensures p in EachUpTo(n, DISPATCHED) && EachUpTo(n, DISPATCHED)[p] == DISPATCHED
  {
    if p < n { DispatchedAll(n - 1, p); }
  }

  lemma {:induction false} AnswersAreReached(rows: seq<Observation>)
    requires OfTheRounds(rows)
    ensures Reached(EXAMPLE_CONFIG, At(Partial(3, rows, 0), map[], 100, Dirt(rows)))
  {
    if rows == [] {
      ProbesAreReached(3);
    } else {
      var init, o := rows[..|rows| - 1], rows[|rows| - 1];
      assert o in rows && forall q <- init :: q in rows;
      AnswersAreReached(init);
      PartialIsValid(init, 0);
      DispatchedAll(3, o.probe);
      assert rows == init + [o];
      AnswerIsReached(At(Partial(3, init, 0), map[], 100, Dirt(init)), o, At(Partial(3, rows, 0), map[], 100, Dirt(rows)));
    }
  }

  lemma {:induction false} ClustersAreReached(rows: seq<Observation>, c: nat)
    requires c <= 3 && OfTheRounds(rows) && rows != []
    ensures Reached(EXAMPLE_CONFIG, At(Partial(3, rows, c), map[], 100, {EXAMPLE_PLACE}))
  {
    if c == 0 {
      AnswersAreReached(rows);
    } else {
      ClustersAreReached(rows, c - 1);
      PartialIsValid(rows, c - 1);
      DispatchedAll(3, c);
      var s, t := At(Partial(3, rows, c - 1), map[], 100, {EXAMPLE_PLACE}), At(Partial(3, rows, c), map[], 100, {EXAMPLE_PLACE});
      ReachedNext(EXAMPLE_CONFIG, s, StoreCluster(c, AGREED), t);
    }
  }

  lemma MeasuredIsReached()
    ensures Reached(EXAMPLE_CONFIG, At(Disputed({}), map[], 100, {EXAMPLE_PLACE}))
  {
    forall o | o in Evidence()
      ensures 1 <= o.probe <= 3
    {
      var p, j := ReplyOf(o);
    }
    ClustersAreReached(Evidence(), 3);
    ThreeOf(DISPATCHED);
    ThreeOf(AGREED);
    assert Partial(3, Evidence(), 3) == Disputed({});
  }

  // ---------------------------------------------------------------------------
  // What the bucket of indexer "A" ought to be.

  /** There is a row, and it counts comparable answers exactly while the deployment is not flagged. */
  lemma RowOfA(flags: set<DeploymentId>)
    ensures Valid(Disputed(flags))
    ensures var row := Fresh(EXAMPLE_CONFIG, Disputed(flags), EXAMPLE_KEY);
            row.Some? && (row.value.comparable == 0 <==> "D" in flags)
  {
    var d, o := Disputed(flags), Reply(1, 0);
    DisputedIsValid(flags);
    ReplyIsJudged(flags, 1, 0);
    assert KeyOfAnswer(EXAMPLE_CONFIG, d, o) == EXAMPLE_KEY && Judgeable(d, o);
    JudgeableRow(EXAMPLE_CONFIG, d, EXAMPLE_KEY, o);
  }

  // ---------------------------------------------------------------------------
  // Off schedule.

  lemma LateIsForsaken(d: Data, s: State)
    requires Valid(d) && Fresh(EXAMPLE_CONFIG, d, EXAMPLE_KEY).Some? && s == At(d, map[], 10000, {EXAMPLE_PLACE})
    ensures !Timely(EXAMPLE_CONFIG, s) && Forsaken(EXAMPLE_CONFIG, s, EXAMPLE_KEY)
    ensures forall t | Next(EXAMPLE_CONFIG, s, Reroll(0, 299), t) :: !Stale(EXAMPLE_CONFIG, t, EXAMPLE_KEY)
  {
    assert EXAMPLE_PLACE in s.dirty;
    forall t | Next(EXAMPLE_CONFIG, s, Reroll(0, 299), t)
      ensures !Stale(EXAMPLE_CONFIG, t, EXAMPLE_KEY)
    {
      RowMovesOnlyByRoll(EXAMPLE_CONFIG, s, Reroll(0, 299), t, EXAMPLE_KEY);
    }
  }

  lemma LaterIsReached(d: Data, qos: Table, dirty: set<Place>)
    requires Valid(d) && Reached(EXAMPLE_CONFIG, At(d, qos, 100, dirty))
    ensures Reached(EXAMPLE_CONFIG, At(d, qos, 10000, dirty))
  {
    ReachedNext(EXAMPLE_CONFIG, At(d, qos, 100, dirty), Tick(10000), At(d, qos, 10000, dirty));
  }

  /** A run whose rows were written at 100 and never rolled up until 10000: an ordinary state, resting and with nothing
      queued, that no pass to come will mend, though a re-roll by hand does. What ends it is one of the
      steps of `Touches` and nothing else (`ForsakenUntilTouched`). */
  lemma LateBucketIsLost() returns (s: State)
    ensures Reached(EXAMPLE_CONFIG, s) && Inv(EXAMPLE_CONFIG, s) && !Timely(EXAMPLE_CONFIG, s)
    ensures s.loop == Idle && s.detector == Resting && s.queue == map[]
    ensures Forsaken(EXAMPLE_CONFIG, s, EXAMPLE_KEY)
    ensures forall t | Next(EXAMPLE_CONFIG, s, Reroll(0, 299), t) :: !Stale(EXAMPLE_CONFIG, t, EXAMPLE_KEY)
  {
    var d := Disputed({});
    s := At(d, map[], 10000, {EXAMPLE_PLACE});
    MeasuredIsReached();
    RowOfA({});
    LaterIsReached(d, map[], {EXAMPLE_PLACE});
    ReachedIsInv(EXAMPLE_CONFIG, s);
    LateIsForsaken(d, s);
  }

  // ---------------------------------------------------------------------------
  // A detector run cut short.

  /** The detector looks back a week. */
  const WEEK: int := 604800

  const SINCE: int := 10000 - WEEK

  /** The table after a pass at 100. */
  function PassedTable(d: Data): Table
    requires Valid(d)
  {
    RollRange(EXAMPLE_CONFIG, d, map[], TrailingFrom(EXAMPLE_CONFIG, 100), None, None)
  }

  lemma PassIsReached(d: Data)
    requires Valid(d) && Reached(EXAMPLE_CONFIG, At(d, map[], 100, {EXAMPLE_PLACE}))
    ensures Reached(EXAMPLE_CONFIG, At(d, PassedTable(d), 100, {}))
  {
    var m := At(d, map[], 100, {EXAMPLE_PLACE});
    var rolled := Rolled(EXAMPLE_CONFIG, m, TrailingFrom(EXAMPLE_CONFIG, 100), None, None).(loop := Fetching);
    assert rolled == At(d, PassedTable(d), 100, {}).(loop := Fetching);
    ReachedNext(EXAMPLE_CONFIG, m, TrailingRoll, rolled);
    ReachedNext(EXAMPLE_CONFIG, rolled, Fetch, rolled.(loop := Draining([], false)));
    ReachedNext(EXAMPLE_CONFIG, rolled.(loop := Draining([], false)), Finish, rolled.(loop := Idle));
  }

  /** Later, after the detector has written the flag and before it has enqueued for it. */
  function FlagWrittenState(d: Data): State
    requires Valid(d)
  {
    At(d.(nondeterministic := {"D"}), PassedTable(d), 10000, {}).(detector := Enqueueing({"D"}))
  }

  lemma FlagWrittenIsReached(d: Data)
    requires Valid(d) && Reached(EXAMPLE_CONFIG, At(d, PassedTable(d), 10000, {}))
    requires d.nondeterministic == {} && Detector.Rotating(d, SINCE) == {"D"}
    ensures Reached(EXAMPLE_CONFIG, FlagWrittenState(d))
  {
    var later := At(d, PassedTable(d), 10000, {});
    var started := later.(detector := Writing({}, {"D"}));
    var flagged := started.(data := d.(nondeterministic := {"D"}));
    var before: set<DeploymentId>, found: set<DeploymentId> := {}, {"D"};
    assert (before - found) + (found - before) == found;
    ReachedNext(EXAMPLE_CONFIG, later, DetectStart(later.now - WEEK), started);
    ReachedNext(EXAMPLE_CONFIG, started, Flag("D"), flagged);
    ReachedNext(EXAMPLE_CONFIG, flagged, Unflag, FlagWrittenState(d));
  }

  lemma FlagWrittenIsStale(d: Data, k: Key)
    requires Valid(d) && k == EXAMPLE_KEY && Fresh(EXAMPLE_CONFIG, d.(nondeterministic := {"D"}), k) != Fresh(EXAMPLE_CONFIG, d, k)
    ensures Stale(EXAMPLE_CONFIG, FlagWrittenState(d), k)
  {
    RollRangeIsFresh(EXAMPLE_CONFIG, d, map[], TrailingFrom(EXAMPLE_CONFIG, 100), None, None, k);
  }

  lemma AbortForsakes(s: State, aborted: State, k: Key)
    requires Inv(EXAMPLE_CONFIG, s) && Stale(EXAMPLE_CONFIG, s, k) && k == EXAMPLE_KEY
    requires s.queue == map[] && s.dirty == {} && s.now == 10000 && aborted == s.(detector := Resting)
    ensures !AbortHarmless(EXAMPLE_CONFIG, s) && !Inv(EXAMPLE_CONFIG, aborted)
    ensures Forsaken(EXAMPLE_CONFIG, aborted, k)
  {
    assert Stale(EXAMPLE_CONFIG, aborted, k) && !Pending(EXAMPLE_CONFIG, aborted, k);
    AbortKeepsInvIffHarmless(EXAMPLE_CONFIG, s, aborted);
  }

  lemma RerunChangesNothing(s: State, again: State)
    requires Valid(s.data) && s.detector.Resting? && s.data.nondeterministic == {"D"} && Detector.Rotating(s.data, s.now - WEEK) == {"D"}
    requires again == s.(detector := Writing({"D"}, {"D"}))
    ensures Next(EXAMPLE_CONFIG, s, DetectStart(s.now - WEEK), again)
    ensures Next(EXAMPLE_CONFIG, again, Flag("D"), again) && Next(EXAMPLE_CONFIG, again, Unflag, s)
  {
    var flags := s.data.nondeterministic;
    assert flags + {"D"} == flags && (flags - flags) + (flags - flags) == {};
  }

  lemma FlaggedIsReached(d: Data)
    requires Valid(d) && Reached(EXAMPLE_CONFIG, At(d, map[], 100, {EXAMPLE_PLACE}))
    requires d.nondeterministic == {} && Detector.Rotating(d, SINCE) == {"D"}
    ensures Reached(EXAMPLE_CONFIG, FlagWrittenState(d)) && Inv(EXAMPLE_CONFIG, FlagWrittenState(d))
  {
    PassIsReached(d);
    LaterIsReached(d, PassedTable(d), {});
    FlagWrittenIsReached(d);
    ReachedIsInv(EXAMPLE_CONFIG, FlagWrittenState(d));
  }

  lemma DisputedFlags() returns (d: Data)
    ensures Valid(d) && Reached(EXAMPLE_CONFIG, At(d, map[], 100, {EXAMPLE_PLACE})) && d.nondeterministic == {}
    ensures Detector.Rotating(d, SINCE) == Detector.Rotating(d.(nondeterministic := {"D"}), SINCE) == {"D"}
    ensures Fresh(EXAMPLE_CONFIG, d.(nondeterministic := {"D"}), EXAMPLE_KEY) != Fresh(EXAMPLE_CONFIG, d, EXAMPLE_KEY)
  {
    d := Disputed({});
    MeasuredIsReached();
    DisputedRotates({}, SINCE);
    DisputedRotates({"D"}, SINCE);
    RowOfA({});
    RowOfA({"D"});
  }

  /** A run whose detector finds "D" on the evidence, flags it, and dies before it has enqueued for it: the
      invariant is lost and the bucket forsaken, and another run of the detector on the same evidence
      changes nothing at all. */
  lemma AbortedDetectorLosesBuckets() returns (s: State, aborted: State)
    ensures Reached(EXAMPLE_CONFIG, s) && Inv(EXAMPLE_CONFIG, s) && Timely(EXAMPLE_CONFIG, s)
    ensures s.detector == Enqueueing({"D"}) && Next(EXAMPLE_CONFIG, s, Abort, aborted)
    ensures !AbortHarmless(EXAMPLE_CONFIG, s) && !Inv(EXAMPLE_CONFIG, aborted)
    ensures Forsaken(EXAMPLE_CONFIG, aborted, EXAMPLE_KEY)
    ensures var again := aborted.(detector := Writing({"D"}, {"D"}));
            && Next(EXAMPLE_CONFIG, aborted, DetectStart(aborted.now - WEEK), again)
            && Next(EXAMPLE_CONFIG, again, Flag("D"), again) && Next(EXAMPLE_CONFIG, again, Unflag, aborted)
  {
    var d := DisputedFlags();
    s := FlagWrittenState(d);
    aborted := s.(detector := Resting);
    FlaggedIsReached(d);
    FlagWrittenIsStale(d, EXAMPLE_KEY);
    AbortForsakes(s, aborted, EXAMPLE_KEY);
    RerunChangesNothing(aborted, aborted.(detector := Writing({"D"}, {"D"})));
  }
}
