/** The composite grade and the verdicts it comes with. `f64` is modelled as `real`. */
module Score {
  import opened Prelude

  datatype Inputs = Inputs(
    probesAnswered: nat, faults: nat, errors: nat, observations: nat,
    recentObservations: nat, recentErrors: nat,
    selfStake: Option<real>, allocations: Option<int>,
    successRate: Option<real>, queries: Option<int>, lag: Option<real>, reoEligible: bool,
    deploymentsMeasured: nat, deploymentsErroring: nat,
    sybilCluster: Option<string>, sybilConfidence: Option<real>)

  datatype Config = Config(
    wCorrectness: real, wAvailability: real, wFreshness: real, wCoverage: real,
    gradeA: real, gradeB: real, gradeC: real, gradeD: real,
    lowCoverage: int, leechMinStake: real, leechMaxQueries: int,
    badDataMinFaults: int, badDataMinRate: real, noDataMinErrorRate: real,
    behindLagBlocks: int, qosMinQueries: int,
    sybilPenalty: real, servingPenalty: real, servingMinDeployments: int, servingCountRef: int)

  const DEFAULT := Config(
    0.40, 0.30, 0.20, 0.10,
    90.0, 75.0, 60.0, 40.0,
    20, 1000000.0, 100,
    3, 0.10, 0.50,
    500000, 500,
    0.6, 0.7, 3, 20)

  const SYBIL_VERDICT_CONFIDENCE := 0.6

  datatype Grade = A | B | C | D | F | NR

  // ---------------------------------------------------------------------------
  // Arithmetic.

  function Clamp01(x: real): real {
    if x < 0.0 then 0.0 else if x > 1.0 then 1.0 else x
  }

  /** `clamp01(a / b)` over floats: a positive count over nothing is infinite, nothing over nothing is not a
      number, and the clamp sends them to one and zero. */
  function Ratio(a: nat, b: nat): real {
    if b == 0 then (if a > 0 then 1.0 else 0.0) else Clamp01(a as real / b as real)
  }

  // ---------------------------------------------------------------------------
  // Sub-scores: None is no signal.

  function Correctness(i: Inputs): Option<real> {
    if i.probesAnswered == 0 then None else Some(100.0 * (1.0 - Ratio(i.faults, i.probesAnswered)))
  }

  function BrokenFraction(i: Inputs, cfg: Config): Option<real> {
    if i.deploymentsMeasured < cfg.servingMinDeployments then None
    else Some(Ratio(i.deploymentsErroring, i.deploymentsMeasured))
  }

  function BrokenSeverity(i: Inputs, cfg: Config): Option<real> {
    var fraction := BrokenFraction(i, cfg);
    if fraction.None? then None
    else Some(RealMax(fraction.value, 0.5 * Ratio(i.deploymentsErroring, Max(cfg.servingCountRef, 1))))
  }

  function Availability(i: Inputs, cfg: Config): Option<real> {
    var broken := BrokenFraction(i, cfg);
    var probed := 100.0 * (1.0 - Ratio(i.errors, i.observations));
    if broken.None? then (if i.observations > 0 then Some(probed) else None)
    else
      var served := 100.0 * (1.0 - broken.value);
      if i.observations > 0 then Some((probed + served) / 2.0) else Some(served)
  }

  function Freshness(i: Inputs, cfg: Config): Option<real> {
    if i.lag.None? then None
    else
      var maxLag := Max(cfg.behindLagBlocks, 1) as real * 4.0;
      Some(100.0 * (1.0 - Clamp01(RealMax(i.lag.value, 0.0) / maxLag)))
  }

  function Coverage(i: Inputs, cfg: Config): Option<real> {
    if i.allocations.None? then None
    else Some(100.0 * Clamp01(i.allocations.value as real / (Max(cfg.lowCoverage, 1) as real * 2.0)))
  }

  predicate Active(i: Inputs) {
    || i.probesAnswered > 0
    || (i.queries.Some? && i.queries.value > 0)
    || (i.allocations.Some? && i.allocations.value > 0)
  }

  /** Coverage alone is not a measurement. */
  predicate Rated(i: Inputs, cfg: Config) {
    Active(i) && (Correctness(i).Some? || Availability(i, cfg).Some? || Freshness(i, cfg).Some?)
  }

  // ---------------------------------------------------------------------------
  // The composite.

  datatype Component = Component(score: Option<real>, weight: real)

  function Components(i: Inputs, cfg: Config): seq<Component> {
    [Component(Correctness(i), cfg.wCorrectness), Component(Availability(i, cfg), cfg.wAvailability),
     Component(Freshness(i, cfg), cfg.wFreshness), Component(Coverage(i, cfg), cfg.wCoverage)]
  }

  function Share(c: Component): real {
    if c.score.Some? then c.score.value * c.weight else 0.0
  }

  function ShareWeight(c: Component): real {
    if c.score.Some? then c.weight else 0.0
  }

  function Weighted(cs: seq<Component>): real {
    if cs == [] then 0.0 else Weighted(cs[..|cs| - 1]) + Share(cs[|cs| - 1])
  }

  function Weight(cs: seq<Component>): real {
    if cs == [] then 0.0 else Weight(cs[..|cs| - 1]) + ShareWeight(cs[|cs| - 1])
  }

  /** The mean over what is present: a missing component leaves the divisor too. */
  function WeightedMean(cs: seq<Component>): real {
    if Weight(cs) > 0.0 then Weighted(cs) / Weight(cs) else 0.0
  }

  predicate Swarming(i: Inputs) {
    i.sybilConfidence.Some? && i.sybilConfidence.value >= SYBIL_VERDICT_CONFIDENCE
  }

  /** What is left after a penalty applied with some severity. */
  function Left(severity: Option<real>, penalty: real): real {
    if severity.Some? then 1.0 - severity.value * penalty else 1.0
  }

  function SwarmConfidence(i: Inputs): Option<real> {
    if Swarming(i) then i.sybilConfidence else None
  }

  function SybilFactor(i: Inputs, cfg: Config): real {
    Left(SwarmConfidence(i), cfg.sybilPenalty)
  }

  function ServingFactor(i: Inputs, cfg: Config): real {
    Left(BrokenSeverity(i, cfg), cfg.servingPenalty)
  }

  function Product(x: real, y: real, z: real): real {
    x * y * z
  }

  function Composite(i: Inputs, cfg: Config): real {
    Product(WeightedMean(Components(i, cfg)), SybilFactor(i, cfg), ServingFactor(i, cfg))
  }

  function GradeFor(composite: real, cfg: Config): Grade {
    if composite >= cfg.gradeA then A
    else if composite >= cfg.gradeB then B
    else if composite >= cfg.gradeC then C
    else if composite >= cfg.gradeD then D
    else F
  }

  function GradeRank(g: Grade): nat {
    match g case A => 0 case B => 1 case C => 2 case D => 3 case F => 4 case NR => 5
  }

  // ---------------------------------------------------------------------------
  // Verdicts.

  datatype Verdict =
    | ServingBadData | DisputeCandidate | ServingNoData | BehindChainhead
    | LowCoverage | Leech | ReoIneligible | SwarmMember

  /** In the order they are reported. */
  const VERDICTS: seq<Verdict> :=
    [ServingBadData, DisputeCandidate, ServingNoData, BehindChainhead, LowCoverage, Leech, ReoIneligible, SwarmMember]

  predicate Structural(v: Verdict) {
    v.Leech? || v.LowCoverage? || v.SwarmMember?
  }

  function FaultRate(i: Inputs): real {
    if i.probesAnswered > 0 then i.faults as real / i.probesAnswered as real else 0.0
  }

  predicate BadData(i: Inputs, cfg: Config) {
    i.faults >= cfg.badDataMinFaults && FaultRate(i) >= cfg.badDataMinRate
  }

  predicate Dispute(i: Inputs, cfg: Config) {
    BadData(i, cfg) && i.faults >= cfg.badDataMinFaults * 2 && FaultRate(i) >= cfg.badDataMinRate * 2.0
  }

  predicate QosFailing(i: Inputs, cfg: Config) {
    && i.successRate.Some? && i.queries.Some?
    && i.queries.value >= cfg.qosMinQueries && i.successRate.value < (1.0 - cfg.noDataMinErrorRate) * 100.0
  }

  predicate NoData(i: Inputs, cfg: Config) {
    || QosFailing(i, cfg)
    || (i.recentObservations >= 3 && i.recentErrors as real / i.recentObservations as real >= cfg.noDataMinErrorRate)
  }

  predicate Behind(i: Inputs, cfg: Config) {
    i.lag.Some? && i.lag.value > cfg.behindLagBlocks as real
  }

  predicate Narrow(i: Inputs, cfg: Config) {
    i.allocations.Some? && i.allocations.value < cfg.lowCoverage
  }

  predicate Leeching(i: Inputs, cfg: Config) {
    && i.selfStake.Some? && i.queries.Some?
    && i.selfStake.value >= cfg.leechMinStake && i.queries.value <= cfg.leechMaxQueries
  }

  predicate Ineligible(i: Inputs, cfg: Config, composite: real) {
    i.reoEligible && (composite < cfg.gradeD || BadData(i, cfg) || NoData(i, cfg) || Leeching(i, cfg))
  }

  /** The condition a verdict stands for. */
  predicate Holds(v: Verdict, i: Inputs, cfg: Config, composite: real) {
    match v
    case ServingBadData => BadData(i, cfg)
    case DisputeCandidate => Dispute(i, cfg)
    case ServingNoData => NoData(i, cfg)
    case BehindChainhead => Behind(i, cfg)
    case LowCoverage => Narrow(i, cfg)
    case Leech => Leeching(i, cfg)
    case ReoIneligible => Ineligible(i, cfg, composite)
    case SwarmMember => Swarming(i)
  }

  function Holding(vs: seq<Verdict>, i: Inputs, cfg: Config, composite: real): seq<Verdict> {
    if vs == [] then []
    else
      var v := vs[|vs| - 1];
      Holding(vs[..|vs| - 1], i, cfg, composite) + (if Holds(v, i, cfg, composite) then [v] else [])
  }

  function StructuralOnly(vs: seq<Verdict>): seq<Verdict> {
    if vs == [] then []
    else
      var v := vs[|vs| - 1];
      StructuralOnly(vs[..|vs| - 1]) + (if Structural(v) then [v] else [])
  }

  /** The first `n` verdicts are decided. */
  ghost predicate Decided(i: Inputs, cfg: Config, composite: real, n: nat, verdicts: seq<Verdict>) {
    n <= |VERDICTS| && verdicts == Holding(VERDICTS[..n], i, cfg, composite)
  }

  lemma Decide(i: Inputs, cfg: Config, composite: real, n: nat, verdicts: seq<Verdict>, holds: bool)
    requires n < |VERDICTS| && Decided(i, cfg, composite, n, verdicts) && holds == Holds(VERDICTS[n], i, cfg, composite)
    ensures Decided(i, cfg, composite, n + 1, if holds then verdicts + [VERDICTS[n]] else verdicts)
  {
    assert VERDICTS[..n + 1][..n] == VERDICTS[..n];
  }

  method DeriveBadData(i: Inputs, cfg: Config, composite: real) returns (verdicts: seq<Verdict>)
    ensures Decided(i, cfg, composite, 2, verdicts)
  {
    verdicts := [];
    Decide(i, cfg, composite, 0, verdicts, BadData(i, cfg));
    if BadData(i, cfg) {
      verdicts := verdicts + [ServingBadData];
      Decide(i, cfg, composite, 1, verdicts, Dispute(i, cfg));
      if i.faults >= cfg.badDataMinFaults * 2 && FaultRate(i) >= cfg.badDataMinRate * 2.0 {
        verdicts := verdicts + [DisputeCandidate];
      }
    } else {
      Decide(i, cfg, composite, 1, verdicts, false);
    }
  }

  method DeriveVerdicts(i: Inputs, cfg: Config, composite: real) returns (verdicts: seq<Verdict>)
    ensures verdicts == Holding(VERDICTS, i, cfg, composite)
  {
    var noData, behind, narrow, leech := NoData(i, cfg), Behind(i, cfg), Narrow(i, cfg), Leeching(i, cfg);
    var ineligible, swarm := Ineligible(i, cfg, composite), Swarming(i);
    verdicts := DeriveBadData(i, cfg, composite);
    Decide(i, cfg, composite, 2, verdicts, noData);
    if noData { verdicts := verdicts + [ServingNoData]; }
    Decide(i, cfg, composite, 3, verdicts, behind);
    if behind { verdicts := verdicts + [BehindChainhead]; }
    Decide(i, cfg, composite, 4, verdicts, narrow);
    if narrow { verdicts := verdicts + [LowCoverage]; }
    Decide(i, cfg, composite, 5, verdicts, leech);
    if leech { verdicts := verdicts + [Leech]; }
    Decide(i, cfg, composite, 6, verdicts, ineligible);
    if ineligible { verdicts := verdicts + [ReoIneligible]; }
    Decide(i, cfg, composite, 7, verdicts, swarm);
    if swarm { verdicts := verdicts + [SwarmMember]; }
    assert VERDICTS[..8] == VERDICTS;
  }

  // ---------------------------------------------------------------------------
  // The judgement.

  datatype Outcome = Outcome(rated: bool, composite: real, grade: Grade,
                             correctness: Option<real>, availability: Option<real>,
                             freshness: Option<real>, coverage: Option<real>,
                             sybilFlag: bool, sybilCluster: Option<string>, verdicts: seq<Verdict>)

  function Judged(i: Inputs, cfg: Config): Outcome {
    if Rated(i, cfg) then
      var composite := Composite(i, cfg);
      Outcome(true, composite, GradeFor(composite, cfg),
              Correctness(i), Availability(i, cfg), Freshness(i, cfg), Coverage(i, cfg),
              Swarming(i), if Swarming(i) then i.sybilCluster else None, Holding(VERDICTS, i, cfg, composite))
    else
      Outcome(false, 0.0, NR, None, None, None, None, false, None, StructuralOnly(Holding(VERDICTS, i, cfg, 0.0)))
  }

  /** Weights are renormalised over what is present. */
  method Mean(weighted: seq<Component>) returns (mean: real)
    ensures mean == WeightedMean(weighted)
  {
    var num, den := 0.0, 0.0;
    for k := 0 to |weighted|
      invariant num == Weighted(weighted[..k]) && den == Weight(weighted[..k])
    {
      var c := weighted[k];
      assert weighted[..k + 1][..k] == weighted[..k];
      if c.score.Some? {
        num, den := num + c.score.value * c.weight, den + c.weight;
      }
    }
    assert weighted[..|weighted|] == weighted;
    mean := if den > 0.0 then num / den else 0.0;
  }

  method Penalised(i: Inputs, cfg: Config, raw: real) returns (composite: real)
    ensures composite == Product(raw, SybilFactor(i, cfg), ServingFactor(i, cfg))
  {
    composite := if Swarming(i) then raw * (1.0 - i.sybilConfidence.value * cfg.sybilPenalty) else raw;
    assert composite == raw * SybilFactor(i, cfg);
    var severity := BrokenSeverity(i, cfg);
    if severity.Some? {
      composite := composite * (1.0 - severity.value * cfg.servingPenalty);
    }
  }

  method Judge(i: Inputs, cfg: Config) returns (outcome: Outcome)
    ensures outcome == Judged(i, cfg)
  {
    var rated := Rated(i, cfg);
    if rated {
      var raw := Mean(Components(i, cfg));
      var composite := Penalised(i, cfg, raw);
      var verdicts := DeriveVerdicts(i, cfg, composite);
      outcome := Outcome(true, composite, GradeFor(composite, cfg),
                         Correctness(i), Availability(i, cfg), Freshness(i, cfg), Coverage(i, cfg),
                         Swarming(i), if Swarming(i) then i.sybilCluster else None, verdicts);
    } else {
      var all := DeriveVerdicts(i, cfg, 0.0);
      outcome := Outcome(false, 0.0, NR, None, None, None, None, false, None, StructuralOnly(all));
    }
  }
}
