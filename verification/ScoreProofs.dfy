/** What the grade guarantees: its range, the cap on broad failure, and that doing worse never pays. */
module ScoreProofs {
  import opened Prelude
  import opened Score

  predicate Unit(x: real) {
    0.0 <= x <= 1.0
  }

  /** Non-negative weights and penalties that are proportions. */
  predicate Sane(cfg: Config) {
    && cfg.wCorrectness >= 0.0 && cfg.wAvailability >= 0.0 && cfg.wFreshness >= 0.0 && cfg.wCoverage >= 0.0
    && Unit(cfg.sybilPenalty) && Unit(cfg.servingPenalty)
  }

  predicate Confident(i: Inputs) {
    i.sybilConfidence.Some? ==> Unit(i.sybilConfidence.value)
  }

  // ---------------------------------------------------------------------------
  // Arithmetic.

  lemma ProductMonotone(x: real, y: real, k: real)
    requires x <= y && k >= 0.0
    ensures x * k <= y * k
  {
  }

  lemma QuotientMonotone(x: real, y: real, k: real)
    requires x <= y && k > 0.0
    ensures x / k <= y / k
  {
  }

  /** `num / den` is between `lo` and `hi`, without the division. */
  predicate Between(lo: real, hi: real, num: real, den: real) {
    lo * den <= num <= hi * den
  }

  lemma MeanBetween(lo: real, hi: real, num: real, den: real)
    requires den > 0.0 && Between(lo, hi, num, den)
    ensures lo <= num / den <= hi
  {
  }

  lemma RatioMonotone(a: nat, b: nat, of: nat)
    requires a <= b
    ensures 0.0 <= Ratio(a, of) <= Ratio(b, of) <= 1.0
  {
    if of > 0 { QuotientMonotone(a as real, b as real, of as real); }
  }

  // ---------------------------------------------------------------------------
  // Means.

  predicate Weighable(cs: seq<Component>) {
    forall c <- cs :: c.weight >= 0.0
  }

  predicate Within(cs: seq<Component>, lo: real, hi: real) {
    forall c <- cs | c.score.Some? :: lo <= c.score.value <= hi
  }

  lemma ShareBetween(lo: real, hi: real, c: Component, num: real, den: real)
    requires c.weight >= 0.0 && (c.score.Some? ==> lo <= c.score.value <= hi)
    requires Between(lo, hi, num, den)
    ensures Between(lo, hi, num + Share(c), den + ShareWeight(c))
  {
  }

  lemma {:induction false} WeightedBetween(cs: seq<Component>, lo: real, hi: real)
    requires Weighable(cs) && Within(cs, lo, hi)
    ensures Between(lo, hi, Weighted(cs), Weight(cs))
  {
    if cs != [] {
      var before, c := cs[..|cs| - 1], cs[|cs| - 1];
      assert c in cs;
      WeightedBetween(before, lo, hi);
      ShareBetween(lo, hi, c, Weighted(before), Weight(before));
    }
  }

  lemma MeanWithin(cs: seq<Component>, lo: real, hi: real)
    requires Weighable(cs) && Within(cs, lo, hi) && Weight(cs) > 0.0
    ensures lo <= WeightedMean(cs) <= hi
  {
    WeightedBetween(cs, lo, hi);
    MeanBetween(lo, hi, Weighted(cs), Weight(cs));
  }

  predicate Present(cs: seq<Component>, x: real) {
    exists c <- cs :: c.score == Some(x)
  }

  lemma {:induction false} Extremes(cs: seq<Component>)
    requires exists x :: Present(cs, x)
    ensures exists lo, hi :: Present(cs, lo) && Present(cs, hi) && Within(cs, lo, hi)
  {
    var before, c := cs[..|cs| - 1], cs[|cs| - 1];
    assert cs == before + [c];
    assert forall x :: Present(cs, x) <==> Present(before, x) || c.score == Some(x);
    if exists x :: Present(before, x) {
      Extremes(before);
      var lo, hi :| Present(before, lo) && Present(before, hi) && Within(before, lo, hi);
      if c.score.Some? {
        var x := c.score.value;
        assert Present(cs, if x < lo then x else lo) && Present(cs, if x > hi then x else hi);
        assert Within(cs, if x < lo then x else lo, if x > hi then x else hi);
      } else {
        assert Within(cs, lo, hi);
      }
    } else {
      var x := c.score.value;
      forall b | b in before && b.score.Some?
        ensures false
      {
        assert Present(before, b.score.value);
      }
      assert Present(cs, x) && Within(cs, x, x);
    }
  }

  lemma {:induction false} WeightPresent(cs: seq<Component>)
    requires Weighable(cs)
    ensures Weight(cs) >= 0.0
    ensures Weight(cs) > 0.0 <==> exists c <- cs :: c.score.Some? && c.weight > 0.0
  {
    if cs != [] {
      assert cs == cs[..|cs| - 1] + [cs[|cs| - 1]];
      WeightPresent(cs[..|cs| - 1]);
    }
  }

  /** Before penalties, the composite lies between the least and the greatest sub-score present, as soon as
      one with positive weight is. */
  lemma MeanBetweenExtremes(cs: seq<Component>)
    requires Weighable(cs) && exists c <- cs :: c.score.Some? && c.weight > 0.0
    ensures exists lo, hi :: Present(cs, lo) && Present(cs, hi) && Within(cs, lo, hi) && lo <= WeightedMean(cs) <= hi
  {
    var c :| c in cs && c.score.Some? && c.weight > 0.0;
    assert Present(cs, c.score.value);
    Extremes(cs);
    var lo, hi :| Present(cs, lo) && Present(cs, hi) && Within(cs, lo, hi);
    WeightPresent(cs);
    MeanWithin(cs, lo, hi);
  }

  /** The same components present, with the same weights, none scoring higher in `ds`. */
  predicate Below(ds: seq<Component>, cs: seq<Component>) {
    |ds| == |cs| && forall k | 0 <= k < |cs| ::
      && ds[k].weight == cs[k].weight && (ds[k].score.Some? <==> cs[k].score.Some?)
      && (cs[k].score.Some? ==> ds[k].score.value <= cs[k].score.value)
  }

  lemma ShareMonotone(d: Component, c: Component)
    requires d.weight == c.weight >= 0.0 && (d.score.Some? <==> c.score.Some?)
    requires c.score.Some? ==> d.score.value <= c.score.value
    ensures Share(d) <= Share(c)
  {
  }

  lemma {:induction false} WeightedMonotone(ds: seq<Component>, cs: seq<Component>)
    requires Weighable(cs) && Below(ds, cs)
    ensures Weight(ds) == Weight(cs) && Weighted(ds) <= Weighted(cs)
  {
    if cs != [] {
      var n := |cs| - 1;
      WeightedMonotone(ds[..n], cs[..n]);
      assert cs[n] in cs;
      ShareMonotone(ds[n], cs[n]);
      assert Weighted(cs) == Weighted(cs[..n]) + Share(cs[n]) && Weighted(ds) == Weighted(ds[..n]) + Share(ds[n]);
    }
  }

  lemma MeanMonotone(ds: seq<Component>, cs: seq<Component>)
    requires Weighable(cs) && Below(ds, cs)
    ensures WeightedMean(ds) <= WeightedMean(cs)
  {
    WeightedMonotone(ds, cs);
    if Weight(cs) > 0.0 { QuotientMonotone(Weighted(ds), Weighted(cs), Weight(cs)); }
  }

  // ---------------------------------------------------------------------------
  // Range.

  predicate Percent(x: Option<real>) {
    x.Some? ==> 0.0 <= x.value <= 100.0
  }

  lemma SubScoresInRange(i: Inputs, cfg: Config)
    ensures Percent(Correctness(i)) && Percent(Availability(i, cfg))
    ensures Percent(Freshness(i, cfg)) && Percent(Coverage(i, cfg))
  {
  }

  lemma RawInRange(i: Inputs, cfg: Config)
    requires Sane(cfg)
    ensures 0.0 <= WeightedMean(Components(i, cfg)) <= 100.0
  {
    var cs := Components(i, cfg);
    SubScoresInRange(i, cfg);
    assert Within(cs, 0.0, 100.0);
    if Weight(cs) > 0.0 { MeanWithin(cs, 0.0, 100.0); }
  }

  lemma UnitProduct(x: real, y: real)
    requires Unit(x) && Unit(y)
    ensures Unit(x * y)
  {
    ProductMonotone(x, 1.0, y);
    assert x * y <= y;
    ProductMonotone(0.0, x, y);
  }

  lemma SeverityInRange(i: Inputs, cfg: Config)
    ensures BrokenSeverity(i, cfg).Some? ==> Unit(BrokenSeverity(i, cfg).value)
  {
  }

  lemma LeftInRange(severity: Option<real>, penalty: real)
    requires Unit(penalty) && (severity.Some? ==> Unit(severity.value))
    ensures Unit(Left(severity, penalty))
  {
    if severity.Some? { UnitProduct(severity.value, penalty); }
  }

  lemma FactorsInRange(i: Inputs, cfg: Config)
    requires Sane(cfg) && Confident(i)
    ensures Unit(SybilFactor(i, cfg)) && Unit(ServingFactor(i, cfg))
  {
    LeftInRange(SwarmConfidence(i), cfg.sybilPenalty);
    SeverityInRange(i, cfg);
    LeftInRange(BrokenSeverity(i, cfg), cfg.servingPenalty);
  }

  lemma Capped(z: real, y: real, cap: real)
    requires 0.0 <= z <= 100.0 && 0.0 <= y <= cap
    ensures 0.0 <= z * y <= 100.0 * cap
  {
    ProductMonotone(z, 100.0, y);
    assert z * y <= 100.0 * y;
    ProductMonotone(0.0, z, y);
    assert 0.0 <= z * y;
  }

  lemma Scaled(raw: real, x: real, y: real, cap: real)
    requires 0.0 <= raw <= 100.0 && Unit(x) && 0.0 <= y <= cap
    ensures 0.0 <= Product(raw, x, y) <= 100.0 * cap
  {
    Capped(raw, x, 1.0);
    Capped(raw * x, y, cap);
  }

  lemma CompositeInRange(i: Inputs, cfg: Config)
    requires Sane(cfg) && Confident(i)
    ensures 0.0 <= Judged(i, cfg).composite <= 100.0
  {
    RawInRange(i, cfg);
    FactorsInRange(i, cfg);
    Scaled(WeightedMean(Components(i, cfg)), SybilFactor(i, cfg), ServingFactor(i, cfg), 1.0);
  }

  predicate AtLeast(a: Option<real>, b: Option<real>) {
    a.Some? ==> b.Some? && a.value <= b.value
  }

  lemma LeftMonotone(a: Option<real>, b: Option<real>, penalty: real)
    requires AtLeast(a, b) && penalty >= 0.0 && (b.Some? ==> b.value >= 0.0)
    ensures Left(b, penalty) <= Left(a, penalty)
  {
  }

  lemma BroadSeverity(i: Inputs, cfg: Config)
    requires i.deploymentsMeasured >= cfg.servingMinDeployments && i.deploymentsErroring >= Max(cfg.servingCountRef, 1)
    ensures BrokenSeverity(i, cfg).Some? && BrokenSeverity(i, cfg).value >= 0.5
  {
    var reference: nat := Max(cfg.servingCountRef, 1);
    RatioMonotone(reference, i.deploymentsErroring, reference);
    assert reference as real / reference as real == 1.0;
    assert Ratio(reference, reference) == 1.0;
  }

  /** Failing on many deployments costs at least half the serving penalty, however large the operator and
      whatever its other scores. */
  lemma BroadFailureCaps(i: Inputs, cfg: Config)
    requires Sane(cfg) && Confident(i) && i.deploymentsMeasured >= cfg.servingMinDeployments
    requires i.deploymentsErroring >= Max(cfg.servingCountRef, 1)
    ensures Judged(i, cfg).composite <= 100.0 * (1.0 - 0.5 * cfg.servingPenalty)
  {
    RawInRange(i, cfg);
    FactorsInRange(i, cfg);
    BroadSeverity(i, cfg);
    LeftMonotone(Some(0.5), BrokenSeverity(i, cfg), cfg.servingPenalty);
    Scaled(WeightedMean(Components(i, cfg)), SybilFactor(i, cfg), ServingFactor(i, cfg), 1.0 - 0.5 * cfg.servingPenalty);
  }

  /** Under the default configuration, twenty broken deployments keep anyone out of A and B. */
  lemma TwentyBrokenIsAtMostC(i: Inputs)
    requires Confident(i) && 20 <= i.deploymentsErroring <= i.deploymentsMeasured
    ensures Judged(i, DEFAULT).composite <= 65.0
    ensures GradeRank(Judged(i, DEFAULT).grade) >= GradeRank(C)
  {
    BroadFailureCaps(i, DEFAULT);
  }

  // ---------------------------------------------------------------------------
  // Doing worse.

  /** As present as `i`, and no smaller. */
  predicate NoLess(i: Option<real>, j: Option<real>) {
    (i.Some? <==> j.Some?) && (i.Some? ==> i.value <= j.value)
  }

  /** `j` is `i` with more faults, errors, recent errors, lag, broken deployments or swarm confidence, or a lower
      success rate, in any combination. */
  predicate Worse(i: Inputs, j: Inputs) {
    && j == i.(faults := j.faults, errors := j.errors, recentErrors := j.recentErrors, successRate := j.successRate,
               lag := j.lag, deploymentsErroring := j.deploymentsErroring, sybilConfidence := j.sybilConfidence)
    && i.faults <= j.faults && i.errors <= j.errors && i.recentErrors <= j.recentErrors
    && i.deploymentsErroring <= j.deploymentsErroring
    && NoLess(j.successRate, i.successRate) && NoLess(i.lag, j.lag) && AtLeast(i.sybilConfidence, j.sybilConfidence)
  }

  lemma WorseFreshness(i: Inputs, j: Inputs, cfg: Config)
    requires Worse(i, j)
    ensures Freshness(i, cfg).Some? <==> Freshness(j, cfg).Some?
    ensures Freshness(i, cfg).Some? ==> Freshness(j, cfg).value <= Freshness(i, cfg).value
  {
    if i.lag.Some? {
      QuotientMonotone(RealMax(i.lag.value, 0.0), RealMax(j.lag.value, 0.0), Max(cfg.behindLagBlocks, 1) as real * 4.0);
    }
  }

  lemma WorseSubScores(i: Inputs, j: Inputs, cfg: Config)
    requires Worse(i, j)
    ensures Below(Components(j, cfg), Components(i, cfg))
  {
    RatioMonotone(i.faults, j.faults, i.probesAnswered);
    RatioMonotone(i.errors, j.errors, i.observations);
    RatioMonotone(i.deploymentsErroring, j.deploymentsErroring, i.deploymentsMeasured);
    WorseFreshness(i, j, cfg);
  }

  lemma WorseSybil(i: Inputs, j: Inputs, cfg: Config)
    requires Worse(i, j) && Sane(cfg) && Confident(j)
    ensures SybilFactor(j, cfg) <= SybilFactor(i, cfg)
  {
    LeftInRange(SwarmConfidence(j), cfg.sybilPenalty);
    LeftMonotone(SwarmConfidence(i), SwarmConfidence(j), cfg.sybilPenalty);
  }

  lemma WorseSeverity(i: Inputs, j: Inputs, cfg: Config)
    requires Worse(i, j)
    ensures AtLeast(BrokenSeverity(i, cfg), BrokenSeverity(j, cfg))
    ensures BrokenSeverity(j, cfg).Some? ==> BrokenSeverity(j, cfg).value >= 0.0
  {
    RatioMonotone(i.deploymentsErroring, j.deploymentsErroring, i.deploymentsMeasured);
    RatioMonotone(i.deploymentsErroring, j.deploymentsErroring, Max(cfg.servingCountRef, 1));
  }

  lemma WorseServing(i: Inputs, j: Inputs, cfg: Config)
    requires Worse(i, j) && Sane(cfg)
    ensures ServingFactor(j, cfg) <= ServingFactor(i, cfg)
  {
    WorseSeverity(i, j, cfg);
    LeftMonotone(BrokenSeverity(i, cfg), BrokenSeverity(j, cfg), cfg.servingPenalty);
  }

  lemma ProductsMonotone(raw: real, x: real, y: real, raw': real, x': real, y': real)
    requires 0.0 <= raw' <= raw && 0.0 <= x' <= x && 0.0 <= y' <= y
    ensures Product(raw', x', y') <= Product(raw, x, y)
  {
    var z, z' := raw * x, raw' * x';
    assert 0.0 <= z' <= z by {
      ProductMonotone(0.0, raw', x');
      ProductMonotone(raw', raw, x');
      ProductMonotone(x', x, raw);
    }
    ProductMonotone(z', z, y');
    ProductMonotone(y', y, z);
  }

  lemma WorseRaw(i: Inputs, j: Inputs, cfg: Config)
    requires Worse(i, j) && Sane(cfg)
    ensures 0.0 <= WeightedMean(Components(j, cfg)) <= WeightedMean(Components(i, cfg))
  {
    WorseSubScores(i, j, cfg);
    assert Weighable(Components(i, cfg));
    MeanMonotone(Components(j, cfg), Components(i, cfg));
    RawInRange(j, cfg);
  }

  lemma WorseComposite(i: Inputs, j: Inputs, cfg: Config)
    requires Worse(i, j) && Sane(cfg) && Confident(i) && Confident(j)
    ensures Composite(j, cfg) <= Composite(i, cfg)
  {
    WorseRaw(i, j, cfg);
    WorseSybil(i, j, cfg);
    WorseServing(i, j, cfg);
    FactorsInRange(j, cfg);
    ProductsMonotone(WeightedMean(Components(i, cfg)), SybilFactor(i, cfg), ServingFactor(i, cfg),
                     WeightedMean(Components(j, cfg)), SybilFactor(j, cfg), ServingFactor(j, cfg));
  }

  lemma WorseVerdict(i: Inputs, j: Inputs, cfg: Config, high: real, low: real, v: Verdict)
    requires Worse(i, j) && low <= high && Holds(v, i, cfg, high)
    ensures Holds(v, j, cfg, low)
  {
    if i.probesAnswered > 0 { QuotientMonotone(i.faults as real, j.faults as real, i.probesAnswered as real); }
    if i.recentObservations > 0 {
      QuotientMonotone(i.recentErrors as real, j.recentErrors as real, i.recentObservations as real);
    }
  }

  lemma {:induction false} HoldingMembers(vs: seq<Verdict>, i: Inputs, cfg: Config, composite: real, v: Verdict)
    ensures v in Holding(vs, i, cfg, composite) <==> v in vs && Holds(v, i, cfg, composite)
  {
    if vs != [] {
      HoldingMembers(vs[..|vs| - 1], i, cfg, composite, v);
      assert vs == vs[..|vs| - 1] + [vs[|vs| - 1]];
    }
  }

  lemma {:induction false} StructuralMembers(vs: seq<Verdict>, v: Verdict)
    ensures v in StructuralOnly(vs) <==> v in vs && Structural(v)
  {
    if vs != [] {
      StructuralMembers(vs[..|vs| - 1], v);
      assert vs == vs[..|vs| - 1] + [vs[|vs| - 1]];
    }
  }

  /** A verdict is reported exactly when its condition holds; of an unrated indexer, only the structural ones. */
  lemma VerdictIffHolds(i: Inputs, cfg: Config, v: Verdict)
    ensures v in Judged(i, cfg).verdicts
       <==> Holds(v, i, cfg, Judged(i, cfg).composite) && (Rated(i, cfg) || Structural(v))
  {
    var composite := Judged(i, cfg).composite;
    HoldingMembers(VERDICTS, i, cfg, composite, v);
    StructuralMembers(Holding(VERDICTS, i, cfg, composite), v);
    assert VERDICTS[0] == ServingBadData && VERDICTS[1] == DisputeCandidate && VERDICTS[2] == ServingNoData
        && VERDICTS[3] == BehindChainhead && VERDICTS[4] == LowCoverage && VERDICTS[5] == Leech
        && VERDICTS[6] == ReoIneligible && VERDICTS[7] == SwarmMember;
  }

  /** Doing worse never raises the composite, never improves the grade and never removes a verdict. */
  lemma WorseNeverHelps(i: Inputs, j: Inputs, cfg: Config)
    requires Worse(i, j) && Sane(cfg) && Confident(i) && Confident(j)
    ensures Judged(j, cfg).rated == Judged(i, cfg).rated
    ensures Judged(j, cfg).composite <= Judged(i, cfg).composite
    ensures GradeRank(Judged(j, cfg).grade) >= GradeRank(Judged(i, cfg).grade)
    ensures forall v | v in Judged(i, cfg).verdicts :: v in Judged(j, cfg).verdicts
  {
    WorseSubScores(i, j, cfg);
    SameRated(i, j, cfg);
    WorseComposite(i, j, cfg);
    forall v | v in Judged(i, cfg).verdicts
      ensures v in Judged(j, cfg).verdicts
    {
      VerdictIffHolds(i, cfg, v);
      VerdictIffHolds(j, cfg, v);
      WorseVerdict(i, j, cfg, Judged(i, cfg).composite, Judged(j, cfg).composite, v);
    }
  }

  lemma SameRated(i: Inputs, j: Inputs, cfg: Config)
    requires Worse(i, j)
    ensures Rated(i, cfg) == Rated(j, cfg)
  {
  }

  lemma FourShares(cs: seq<Component>)
    requires |cs| == 4
    ensures Weighted(cs) == Share(cs[0]) + Share(cs[1]) + Share(cs[2]) + Share(cs[3])
  {
    assert cs[..3][..2] == cs[..2] && cs[..2][..1] == cs[..1] && cs[..1][..0] == [];
    assert Weighted(cs[..1]) == Share(cs[0]);
    assert Weighted(cs[..2]) == Weighted(cs[..1]) + Share(cs[1]);
    assert Weighted(cs[..3]) == Weighted(cs[..2]) + Share(cs[2]);
  }

  const UNPROBED := Inputs(10, 10, 0, 0, 0, 0, None, None, None, None, None, false, 0, 0, None, None)

  /** A first measurement is not a worsening: an indexer wrong on every probe gains by having no lag
      measured for the first time. This is why `Worse` keeps what is present. */
  lemma FirstMeasurementCanHelp()
    ensures Judged(UNPROBED, DEFAULT).composite == 0.0 < Judged(UNPROBED.(lag := Some(0.0)), DEFAULT).composite
  {
    var i, j := UNPROBED, UNPROBED.(lag := Some(0.0));
    assert Correctness(i) == Correctness(j) == Some(0.0);
    assert Freshness(i, DEFAULT) == None && Freshness(j, DEFAULT) == Some(100.0);
    var cs, ds := Components(i, DEFAULT), Components(j, DEFAULT);
    FourShares(cs);
    FourShares(ds);
    assert Weighted(cs) == 0.0 && Weighted(ds) == 20.0;
    WeightPresent(cs);
    WeightPresent(ds);
    assert ds[2] in ds && Weight(ds) > 0.0;
  }
}
