/** What the grade's numbers say about the measurements, without the score's own arithmetic. */
module ScoreMeaning {
  import opened Prelude
  import opened Score
  import opened ScoreProofs

  // ---------------------------------------------------------------------------
  // Sub-scores.

  function Least(a: nat, b: nat): nat {
    if a < b then a else b
  }

  /** A hundred when none of `of` are bad, zero when all are, and in proportion in between; of nothing, a hundred as long
      as nothing is bad. */
  predicate IsHealth(score: real, bad: nat, of: nat) {
    if of == 0 then score == (if bad > 0 then 0.0 else 100.0)
    else score * of as real == 100.0 * (of - Least(bad, of)) as real
  }

  /** `part` over `whole`, at most one. */
  predicate IsPart(x: real, part: nat, whole: nat) {
    if whole == 0 then x == (if part > 0 then 1.0 else 0.0)
    else x * whole as real == Least(part, whole) as real
  }

  lemma Undivided(x: real, n: real)
    requires n > 0.0
    ensures x / n * n == x && (x / n > 1.0 <==> x > n) && (x / n < 0.0 <==> x < 0.0)
  {
  }

  lemma RatioIsPart(a: nat, b: nat)
    ensures IsPart(Ratio(a, b), a, b)
  {
    if b > 0 { Undivided(a as real, b as real); }
  }

  lemma HealthOfRatio(x: real, bad: nat, of: nat)
    requires IsPart(x, bad, of)
    ensures IsHealth(100.0 * (1.0 - x), bad, of)
  {
    if of > 0 { assert 100.0 * (1.0 - x) * of as real == 100.0 * (of as real - x * of as real); }
  }

  /** No probe answered, no correctness; otherwise the share of them without a fault. */
  lemma CorrectnessMeans(i: Inputs)
    ensures Correctness(i).None? <==> i.probesAnswered == 0
    ensures Correctness(i).Some? ==> IsHealth(Correctness(i).value, i.faults, i.probesAnswered)
  {
    RatioIsPart(i.faults, i.probesAnswered);
    HealthOfRatio(Ratio(i.faults, i.probesAnswered), i.faults, i.probesAnswered);
  }

  /** The mean of how the probes went and how the deployments fare, of whichever are known. */
  lemma AvailabilityMeans(i: Inputs, cfg: Config) returns (probed: real, served: real)
    ensures IsHealth(probed, i.errors, i.observations) && IsHealth(served, i.deploymentsErroring, i.deploymentsMeasured)
    ensures Availability(i, cfg)
         == if i.observations > 0 && i.deploymentsMeasured >= cfg.servingMinDeployments then Some((probed + served) / 2.0)
            else if i.observations > 0 then Some(probed)
            else if i.deploymentsMeasured >= cfg.servingMinDeployments then Some(served)
            else None
  {
    RatioIsPart(i.errors, i.observations);
    HealthOfRatio(Ratio(i.errors, i.observations), i.errors, i.observations);
    RatioIsPart(i.deploymentsErroring, i.deploymentsMeasured);
    HealthOfRatio(Ratio(i.deploymentsErroring, i.deploymentsMeasured), i.deploymentsErroring, i.deploymentsMeasured);
    probed := 100.0 * (1.0 - Ratio(i.errors, i.observations));
    served := 100.0 * (1.0 - Ratio(i.deploymentsErroring, i.deploymentsMeasured));
  }

  /** A hundred at the head, zero at four times the lag that counts as behind, and in proportion in between. */
  lemma FreshnessMeans(i: Inputs, cfg: Config)
    ensures Freshness(i, cfg).Some? <==> i.lag.Some?
    ensures i.lag.Some? ==>
              var score, lag, worst := Freshness(i, cfg).value, i.lag.value, 4.0 * Max(cfg.behindLagBlocks, 1) as real;
              && (lag <= 0.0 ==> score == 100.0) && (lag >= worst ==> score == 0.0)
              && (0.0 <= lag <= worst ==> score * worst == 100.0 * (worst - lag))
  {
    if i.lag.Some? {
      var n := Max(cfg.behindLagBlocks, 1) as real * 4.0;
      FreshnessAt(RealMax(i.lag.value, 0.0), n);
    }
  }

  lemma FreshnessAt(x: real, n: real)
    requires n > 0.0 && x >= 0.0
    ensures var score := 100.0 * (1.0 - Clamp01(x / n));
            (x == 0.0 ==> score == 100.0) && (x >= n ==> score == 0.0) && (x <= n ==> score * n == 100.0 * (n - x))
  {
    var q := x / n;
    Undivided(x, n);
    if x == n { assert q == 1.0; }
    assert 100.0 * (1.0 - q) * n == 100.0 * (n - q * n);
  }

  /** Zero without an allocation, fifty at the threshold, a hundred at twice the threshold, and in proportion in
      between. */
  lemma CoverageMeans(i: Inputs, cfg: Config)
    ensures Coverage(i, cfg).Some? <==> i.allocations.Some?
    ensures i.allocations.Some? ==>
              var score, n, threshold := Coverage(i, cfg).value, i.allocations.value, Max(cfg.lowCoverage, 1);
              && (n <= 0 ==> score == 0.0) && (n >= 2 * threshold ==> score == 100.0)
              && (n == threshold ==> score == 50.0)
              && (0 <= n <= 2 * threshold ==> score * (2 * threshold) as real == 100.0 * n as real)
  {
    if i.allocations.Some? { CoverageAt(i.allocations.value as real, Max(cfg.lowCoverage, 1) as real * 2.0); }
  }

  lemma CoverageAt(x: real, n: real)
    requires n > 0.0
    ensures var score := 100.0 * Clamp01(x / n);
            && (x <= 0.0 ==> score == 0.0) && (x >= n ==> score == 100.0) && (2.0 * x == n ==> score == 50.0)
            && (0.0 <= x <= n ==> score * n == 100.0 * x)
  {
    var q := x / n;
    Undivided(x, n);
    if x == n { assert q == 1.0; }
    if 2.0 * x == n { assert (2.0 * q - 1.0) * n == 0.0; }
    assert 100.0 * q * n == 100.0 * (q * n);
  }

  lemma MoreCoverage(i: Inputs, j: Inputs, cfg: Config)
    requires i.allocations.Some? && j == i.(allocations := j.allocations) && j.allocations.Some?
    requires i.allocations.value <= j.allocations.value
    ensures Below(Components(i, cfg), Components(j, cfg))
  {
    QuotientMonotone(i.allocations.value as real, j.allocations.value as real, Max(cfg.lowCoverage, 1) as real * 2.0);
  }

  /** More allocations never lower the composite. */
  lemma MoreAllocationsNeverHurt(i: Inputs, j: Inputs, cfg: Config)
    requires i.allocations.Some? && j == i.(allocations := j.allocations) && j.allocations.Some?
    requires i.allocations.value <= j.allocations.value && Sane(cfg) && Confident(i)
    ensures Judged(i, cfg).composite <= Judged(j, cfg).composite
  {
    CompositeInRange(j, cfg);
    if Rated(i, cfg) {
      MoreCoverage(i, j, cfg);
      MeanMonotone(Components(i, cfg), Components(j, cfg));
      RawInRange(i, cfg);
      FactorsInRange(i, cfg);
      ProductsMonotone(WeightedMean(Components(j, cfg)), SybilFactor(j, cfg), ServingFactor(j, cfg),
                       WeightedMean(Components(i, cfg)), SybilFactor(i, cfg), ServingFactor(i, cfg));
    }
  }

  // ---------------------------------------------------------------------------
  // The composite.

  /** An indexer is rated when it does something and something of its service was measured. */
  lemma RatedMeans(i: Inputs, cfg: Config)
    ensures Judged(i, cfg).rated
       <==> && (i.probesAnswered > 0 || i.queries.GetOr(0) > 0 || i.allocations.GetOr(0) > 0)
            && (i.probesAnswered > 0 || i.observations > 0 || i.deploymentsMeasured >= cfg.servingMinDeployments || i.lag.Some?)
  {
  }

  function Part(score: Option<real>, weight: real): real {
    if score.Some? then score.value * weight else 0.0
  }

  function PartWeight(score: Option<real>, weight: real): real {
    if score.Some? then weight else 0.0
  }

  function Parts(o: Outcome, cfg: Config): real {
    Part(o.correctness, cfg.wCorrectness) + Part(o.availability, cfg.wAvailability)
    + Part(o.freshness, cfg.wFreshness) + Part(o.coverage, cfg.wCoverage)
  }

  function PartWeights(o: Outcome, cfg: Config): real {
    PartWeight(o.correctness, cfg.wCorrectness) + PartWeight(o.availability, cfg.wAvailability)
    + PartWeight(o.freshness, cfg.wFreshness) + PartWeight(o.coverage, cfg.wCoverage)
  }

  /** `mean` is `sum` over `weight`, and zero over nothing. */
  predicate Averages(mean: real, sum: real, weight: real) {
    if weight > 0.0 then mean * weight == sum else mean == 0.0
  }

  lemma FourParts(a: Component, b: Component, c: Component, d: Component)
    ensures Weighted([a, b, c, d])
         == Part(a.score, a.weight) + Part(b.score, b.weight) + Part(c.score, c.weight) + Part(d.score, d.weight)
    ensures Weight([a, b, c, d])
         == PartWeight(a.score, a.weight) + PartWeight(b.score, b.weight) + PartWeight(c.score, c.weight) + PartWeight(d.score, d.weight)
  {
    FourShares([a, b, c, d]);
    FourWeights([a, b, c, d]);
  }

  lemma FourWeights(cs: seq<Component>)
    requires |cs| == 4
    ensures Weight(cs) == ShareWeight(cs[0]) + ShareWeight(cs[1]) + ShareWeight(cs[2]) + ShareWeight(cs[3])
  {
    assert cs[..3][..2] == cs[..2] && cs[..2][..1] == cs[..1] && cs[..1][..0] == [];
    assert Weight(cs[..1]) == ShareWeight(cs[0]);
    assert Weight(cs[..2]) == Weight(cs[..1]) + ShareWeight(cs[1]);
    assert Weight(cs[..3]) == Weight(cs[..2]) + ShareWeight(cs[2]);
  }

  lemma MeanAverages(cs: seq<Component>, sum: real, weight: real)
    requires sum == Weighted(cs) && weight == Weight(cs)
    ensures Averages(WeightedMean(cs), sum, weight)
  {
    if weight > 0.0 { Undivided(sum, weight); }
  }

  lemma MeanIsWeighted(i: Inputs, cfg: Config)
    requires Judged(i, cfg).rated
    ensures Averages(WeightedMean(Components(i, cfg)), Parts(Judged(i, cfg), cfg), PartWeights(Judged(i, cfg), cfg))
  {
    var o := Judged(i, cfg);
    FourParts(Component(o.correctness, cfg.wCorrectness), Component(o.availability, cfg.wAvailability),
              Component(o.freshness, cfg.wFreshness), Component(o.coverage, cfg.wCoverage));
    MeanAverages(Components(i, cfg), Parts(o, cfg), PartWeights(o, cfg));
  }

  /** How far a swarm's confidence counts: from 0.6 on. */
  function Swarm(i: Inputs): real {
    if i.sybilConfidence.Some? && i.sybilConfidence.value >= 0.6 then i.sybilConfidence.value else 0.0
  }

  /** How far broken deployments count: by their share, or half by their number, whichever is more. */
  function Broken(i: Inputs, cfg: Config, share: real, count: real): real {
    if i.deploymentsMeasured < cfg.servingMinDeployments then 0.0
    else if share >= 0.5 * count then share else 0.5 * count
  }

  lemma NoPenalty(penalty: real)
    ensures 1.0 - 0.0 * penalty == 1.0
  {
  }

  lemma SybilFactorMeans(i: Inputs, cfg: Config)
    ensures SybilFactor(i, cfg) == 1.0 - Swarm(i) * cfg.sybilPenalty
  {
    NoPenalty(cfg.sybilPenalty);
  }

  lemma ServingFactorMeans(i: Inputs, cfg: Config)
    ensures ServingFactor(i, cfg)
         == 1.0 - Broken(i, cfg, Ratio(i.deploymentsErroring, i.deploymentsMeasured),
                         Ratio(i.deploymentsErroring, Max(cfg.servingCountRef, 1))) * cfg.servingPenalty
  {
    NoPenalty(cfg.servingPenalty);
  }

  lemma Times(x: real, y: real, z: real)
    ensures Product(x, y, z) == x * y * z
  {
  }

  /** The composite is the weighted mean of the sub-scores times what the two penalties leave. With `MeanIsWeighted`,
      `SybilFactorMeans` and `ServingFactorMeans` that is the whole of it. */
  lemma CompositeMeans(i: Inputs, cfg: Config)
    requires Judged(i, cfg).rated
    ensures Judged(i, cfg).composite
         == WeightedMean(Components(i, cfg)) * SybilFactor(i, cfg) * ServingFactor(i, cfg)
  {
    Times(WeightedMean(Components(i, cfg)), SybilFactor(i, cfg), ServingFactor(i, cfg));
  }

  /** By default A from 90, B from 75, C from 60 and D from 40. */
  lemma GradeMeans(i: Inputs)
    ensures var o := Judged(i, DEFAULT);
            && (o.grade == NR <==> !o.rated)
            && (o.grade == A <==> o.rated && o.composite >= 90.0)
            && (o.grade == B <==> o.rated && 75.0 <= o.composite < 90.0)
            && (o.grade == C <==> o.rated && 60.0 <= o.composite < 75.0)
            && (o.grade == D <==> o.rated && 40.0 <= o.composite < 60.0)
            && (o.grade == F <==> o.rated && o.composite < 40.0)
  {
  }

  // ---------------------------------------------------------------------------
  // Verdicts.

  /** The faults are at least so many, and at least that share of the answered probes. */
  predicate FaultsReach(i: Inputs, count: int, rate: real) {
    i.faults >= count && (if i.probesAnswered > 0 then i.faults as real >= rate * i.probesAnswered as real else rate <= 0.0)
  }

  predicate Unserved(i: Inputs, cfg: Config) {
    || (i.successRate.Some? && i.queries.Some? && i.queries.value >= cfg.qosMinQueries
        && i.successRate.value + 100.0 * cfg.noDataMinErrorRate < 100.0)
    || (i.recentObservations >= 3 && i.recentErrors as real >= cfg.noDataMinErrorRate * i.recentObservations as real)
  }

  predicate IdleStake(i: Inputs, cfg: Config) {
    && i.selfStake.Some? && i.selfStake.value >= cfg.leechMinStake
    && i.queries.Some? && i.queries.value <= cfg.leechMaxQueries
  }

  /** What each verdict says. */
  predicate Deserves(v: Verdict, i: Inputs, cfg: Config, composite: real) {
    match v
    case ServingBadData => FaultsReach(i, cfg.badDataMinFaults, cfg.badDataMinRate)
    case DisputeCandidate =>
      FaultsReach(i, cfg.badDataMinFaults, cfg.badDataMinRate) && FaultsReach(i, 2 * cfg.badDataMinFaults, 2.0 * cfg.badDataMinRate)
    case ServingNoData => Unserved(i, cfg)
    case BehindChainhead => i.lag.Some? && i.lag.value > cfg.behindLagBlocks as real
    case LowCoverage => i.allocations.Some? && i.allocations.value < cfg.lowCoverage
    case Leech => IdleStake(i, cfg)
    case ReoIneligible =>
      i.reoEligible && (composite < cfg.gradeD || FaultsReach(i, cfg.badDataMinFaults, cfg.badDataMinRate)
                        || Unserved(i, cfg) || IdleStake(i, cfg))
    case SwarmMember => i.sybilConfidence.Some? && i.sybilConfidence.value >= 0.6
  }

  lemma RateReaches(part: real, whole: real, rate: real)
    requires whole > 0.0
    ensures part / whole >= rate <==> part >= rate * whole
  {
    var q := part / whole;
    Undivided(part, whole);
    if q >= rate { ProductMonotone(rate, q, whole); } else { StrictProduct(q, rate, whole); }
  }

  lemma StrictProduct(x: real, y: real, k: real)
    requires x < y && k > 0.0
    ensures x * k < y * k
  {
  }

  lemma FaultsReachIff(i: Inputs, count: int, rate: real)
    ensures i.faults >= count && FaultRate(i) >= rate <==> FaultsReach(i, count, rate)
  {
    if i.probesAnswered > 0 { RateReaches(i.faults as real, i.probesAnswered as real, rate); }
  }

  lemma UnservedIff(i: Inputs, cfg: Config)
    ensures NoData(i, cfg) <==> Unserved(i, cfg)
  {
    if i.recentObservations > 0 {
      RateReaches(i.recentErrors as real, i.recentObservations as real, cfg.noDataMinErrorRate);
    }
  }

  lemma HoldsIffDeserved(v: Verdict, i: Inputs, cfg: Config, composite: real)
    ensures Holds(v, i, cfg, composite) <==> Deserves(v, i, cfg, composite)
  {
    FaultsReachIff(i, cfg.badDataMinFaults, cfg.badDataMinRate);
    FaultsReachIff(i, 2 * cfg.badDataMinFaults, 2.0 * cfg.badDataMinRate);
    UnservedIff(i, cfg);
  }

  /** A verdict is reported exactly when it is deserved; of an unrated indexer only idle stake, few allocations and swarms
      are. */
  lemma VerdictMeans(i: Inputs, cfg: Config, v: Verdict)
    ensures v in Judged(i, cfg).verdicts
       <==> Deserves(v, i, cfg, Judged(i, cfg).composite)
            && (Judged(i, cfg).rated || v == Leech || v == LowCoverage || v == SwarmMember)
  {
    VerdictIffHolds(i, cfg, v);
    HoldsIffDeserved(v, i, cfg, Judged(i, cfg).composite);
  }

  /** A swarm is named exactly when its confidence is a verdict and the indexer is rated. */
  lemma SwarmMeans(i: Inputs, cfg: Config)
    ensures var o := Judged(i, cfg);
            && (o.sybilFlag <==> o.rated && i.sybilConfidence.Some? && i.sybilConfidence.value >= 0.6)
            && o.sybilCluster == (if o.sybilFlag then i.sybilCluster else None)
  {
  }

  // ---------------------------------------------------------------------------
  // By default.

  lemma FaultsByDefault(i: Inputs, count: nat, share: nat)
    requires share > 0
    ensures FaultsReach(i, count, 1.0 / share as real) <==> i.faults >= count && i.probesAnswered > 0 && share * i.faults >= i.probesAnswered
  {
    var n, rate := share as real, 1.0 / share as real;
    Undivided(1.0, n);
    assert rate > 0.0;
    Crosswise(i.faults as real, i.probesAnswered as real, n, rate);
  }

  lemma Crosswise(x: real, y: real, n: real, rate: real)
    requires n > 0.0 && rate * n == 1.0
    ensures x >= rate * y <==> n * x >= y
  {
    assert n * (rate * y) == y;
    if x >= rate * y { ProductMonotone(rate * y, x, n); } else { StrictProduct(x, rate * y, n); }
  }

  /** The verdicts as they are configured by default: a tenth and a fifth of the answers wrong, half of the queries failed,
      and so on. */
  lemma VerdictsByDefault(i: Inputs)
    ensures var o := Judged(i, DEFAULT);
            && (ServingBadData in o.verdicts <==>
                  o.rated && i.faults >= 3 && i.probesAnswered > 0 && 10 * i.faults >= i.probesAnswered)
            && (DisputeCandidate in o.verdicts <==>
                  o.rated && i.faults >= 6 && i.probesAnswered > 0 && 5 * i.faults >= i.probesAnswered)
            && (ServingNoData in o.verdicts <==>
                  o.rated && (|| (i.successRate.Some? && i.successRate.value < 50.0 && i.queries.GetOr(0) >= 500)
                              || (i.recentObservations >= 3 && 2 * i.recentErrors >= i.recentObservations)))
            && (BehindChainhead in o.verdicts <==> o.rated && i.lag.Some? && i.lag.value > 500000.0)
            && (LowCoverage in o.verdicts <==> i.allocations.Some? && i.allocations.value < 20)
            && (Leech in o.verdicts <==>
                  i.selfStake.Some? && i.selfStake.value >= 1000000.0 && i.queries.Some? && i.queries.value <= 100)
  {
    FaultsByDefault(i, 3, 10);
    FaultsByDefault(i, 6, 5);
    assert 1.0 / 10.0 == DEFAULT.badDataMinRate && 1.0 / 5.0 == 2.0 * DEFAULT.badDataMinRate;
    forall v
      ensures v in Judged(i, DEFAULT).verdicts
         <==> Deserves(v, i, DEFAULT, Judged(i, DEFAULT).composite)
              && (Judged(i, DEFAULT).rated || v == Leech || v == LowCoverage || v == SwarmMember)
    {
      VerdictMeans(i, DEFAULT, v);
    }
  }

  /** Correctness counts for four tenths, availability for three, freshness for two and coverage for one; a swarm costs six
      tenths of its confidence; and fewer than three deployments measured cost nothing. */
  lemma CompositeByDefault(i: Inputs)
    ensures var o := Judged(i, DEFAULT);
            o.rated && o.correctness.Some? && o.availability.Some? && o.freshness.Some? && o.coverage.Some? ==>
              WeightedMean(Components(i, DEFAULT))
              == 0.4 * o.correctness.value + 0.3 * o.availability.value + 0.2 * o.freshness.value + 0.1 * o.coverage.value
    ensures SybilFactor(i, DEFAULT) == 1.0 - 0.6 * Swarm(i)
    ensures i.deploymentsMeasured < 3 ==> ServingFactor(i, DEFAULT) == 1.0
    ensures i.deploymentsMeasured >= 3 && i.deploymentsErroring >= i.deploymentsMeasured ==> ServingFactor(i, DEFAULT) == 1.0 - 0.7
  {
    if Judged(i, DEFAULT).rated { MeanIsWeighted(i, DEFAULT); }
    SybilFactorMeans(i, DEFAULT);
    if i.deploymentsMeasured >= 3 && i.deploymentsErroring >= i.deploymentsMeasured { AllBroken(i); }
  }

  lemma AllBroken(i: Inputs)
    requires i.deploymentsMeasured >= 3 && i.deploymentsErroring >= i.deploymentsMeasured
    ensures BrokenSeverity(i, DEFAULT) == Some(1.0)
  {
    FullRatio(i.deploymentsErroring, i.deploymentsMeasured);
    RatioMonotone(i.deploymentsErroring, i.deploymentsErroring, 20);
  }

  lemma FullRatio(a: nat, b: nat)
    requires a >= b > 0
    ensures Ratio(a, b) == 1.0
  {
    QuotientMonotone(b as real, a as real, b as real);
    assert b as real / b as real == 1.0;
  }
}
