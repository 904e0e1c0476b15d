/** Which deployments the detector flags, told by counting wrong answers, and what that leaves to be graded. */
module DetectorMeaning {
  import opened Prelude
  import opened Tables
  import opened Judgement
  import opened RowMeaning
  import Detector

  /** An answer the detector looks at: dispatched since, put down to some indexer, and not a refusal of payment. */
  predicate Seen(d: Data, since: int, deployment: DeploymentId, o: Observation)
    requires Valid(d)
  {
    && o in d.observations && d.probes[o.probe].dispatchedAt > since && d.probes[o.probe].deployment == deployment
    && !Refused(o) && Owner(d, o).Some?
  }

  function Owner(d: Data, o: Observation): Option<Address> {
    if o.address in d.attribution && d.attribution[o.address].Some? then d.attribution[o.address]
    else if o.mode == Paid then Some(o.address) else None
  }

  /** It carries another hash than the one more than half of its probe's responses carry, whether or not the
      deployment is flagged. */
  predicate Outvoted(d: Data, o: Observation) {
    o.hash.Some? && Settled(d, o.probe) && o.probe in d.divergence && o.hash != Some(d.divergence[o.probe].hash)
  }

  predicate SeenWrong(d: Data, since: int, deployment: DeploymentId, o: Observation)
    requires Valid(d)
  {
    Seen(d, since, deployment, o) && Outvoted(d, o)
  }

  /** The deployment's answered probes, and those of them somebody got wrong. */
  function Answered(d: Data, since: int, deployment: DeploymentId): set<ProbeId>
    requires Valid(d)
  {
    set o | o in d.observations && Seen(d, since, deployment, o) && o.hash.Some? :: o.probe
  }

  function Disputed(d: Data, since: int, deployment: DeploymentId): set<ProbeId>
    requires Valid(d)
  {
    set o | o in d.observations && SeenWrong(d, since, deployment, o) :: o.probe
  }

  /** The probes an indexer got wrong, and who got any wrong. */
  function WrongOf(d: Data, since: int, deployment: DeploymentId, ix: Address): set<ProbeId>
    requires Valid(d)
  {
    set o | o in d.observations && SeenWrong(d, since, deployment, o) && Owner(d, o) == Some(ix) :: o.probe
  }

  function Minority(d: Data, since: int, deployment: DeploymentId): set<Address>
    requires Valid(d)
  {
    set o | o in d.observations && SeenWrong(d, since, deployment, o) :: Owner(d, o).value
  }

  /** How often the minority's indexers got a probe wrong, all of them together. */
  ghost function Times(d: Data, since: int, deployment: DeploymentId): int
    requires Valid(d)
  {
    Prelude.Sum(Minority(d, since, deployment), ix => |WrongOf(d, since, deployment, ix)|)
  }

  // ---------------------------------------------------------------------------
  // The detector's own sets are these.

  lemma SeenIsRecent(d: Data, since: int, deployment: DeploymentId, o: Observation)
    requires Valid(d) && o in d.observations
    ensures Seen(d, since, deployment, o) <==> Detector.Recent(d, since, o) && Detector.On(d, o, deployment)
    ensures Identity(d, o) == Owner(d, o)
    ensures Outvoted(d, o) <==> JudgedFault(d, o, false)
  {
    RefusedIsPaymentError(o);
    RespondersAreTallied(d.observations, o.probe);
  }

  lemma SameProbeSets(d: Data, since: int, deployment: DeploymentId, ix: Address)
    requires Valid(d)
    ensures Detector.AnsweredProbes(d, since, deployment) == Answered(d, since, deployment)
    ensures Detector.DivergentProbes(d, since, false, deployment) == Disputed(d, since, deployment)
    ensures Detector.MinorityProbes(d, since, false, deployment, ix) == WrongOf(d, since, deployment, ix)
  {
    forall o | o in d.observations { SeenIsRecent(d, since, deployment, o); }
  }

  lemma SameIndexers(d: Data, since: int, deployment: DeploymentId)
    requires Valid(d)
    ensures Detector.MinorityIndexers(d, since, false, deployment) == Minority(d, since, deployment)
  {
    forall o | o in d.observations { SeenIsRecent(d, since, deployment, o); }
  }

  lemma SameTimes(d: Data, since: int, deployment: DeploymentId)
    requires Valid(d)
    ensures |Detector.MinorityPositions(d, since, false, deployment)| == Times(d, since, deployment)
  {
    Detector.TimesAddUp(d, since, false, deployment);
    SameIndexers(d, since, deployment);
    forall ix
      ensures Detector.MinorityProbes(d, since, false, deployment, ix) == WrongOf(d, since, deployment, ix)
    {
      SameProbeSets(d, since, deployment, ix);
    }
    SumSame(Minority(d, since, deployment), ix => |Detector.MinorityProbes(d, since, false, deployment, ix)|,
            ix => |WrongOf(d, since, deployment, ix)|);
  }

  // ---------------------------------------------------------------------------
  // What is flagged.

  /** At least three disputed probes, one in five of those answered, two indexers in the minority, and none of them
      behind more than three in five of the wrong answers. */
  ghost predicate Rotating(d: Data, since: int, deployment: DeploymentId)
    requires Valid(d)
  {
    && |Disputed(d, since, deployment)| >= 3
    && 5 * |Disputed(d, since, deployment)| >= |Answered(d, since, deployment)|
    && |Minority(d, since, deployment)| >= 2
    && SpreadOut(d, since, deployment)
  }

  ghost predicate SpreadOut(d: Data, since: int, deployment: DeploymentId)
    requires Valid(d)
  {
    forall ix <- Minority(d, since, deployment) :: 5 * |WrongOf(d, since, deployment, ix)| <= 3 * Times(d, since, deployment)
  }

  /** Comparing a quotient with `m` over five without dividing. */
  lemma Fifths(part: nat, whole: nat, m: nat)
    requires whole > 0
    ensures part as real / whole as real <= m as real / 5.0 <==> 5 * part <= m * whole
    ensures part as real / whole as real >= m as real / 5.0 <==> 5 * part >= m * whole
  {
    var q, w := part as real / whole as real, whole as real;
    QuotientTimes(part as real, w);
    Scale(5.0 * q, m as real, w);
    Scale(m as real, 5.0 * q, w);
    assert 5.0 * q * w == (5 * part) as real && m as real * w == (m * whole) as real;
  }

  lemma Scale(x: real, y: real, n: real)
    requires n > 0.0
    ensures x <= y ==> x * n <= y * n
    ensures x < y ==> x * n < y * n
  {
  }

  lemma DisputedWereAnswered(d: Data, since: int, deployment: DeploymentId)
    requires Valid(d) && Disputed(d, since, deployment) != {}
    ensures |Answered(d, since, deployment)| > 0 && Times(d, since, deployment) > 0
  {
    var p := Pick(Disputed(d, since, deployment));
    var o :| o in d.observations && SeenWrong(d, since, deployment, o) && o.probe == p;
    assert p in Answered(d, since, deployment);
    SeenIsRecent(d, since, deployment, o);
    assert Detector.Position(Owner(d, o).value, p) in Detector.MinorityPositions(d, since, false, deployment);
    SameTimes(d, since, deployment);
  }

  lemma SpreadIff(d: Data, since: int, deployment: DeploymentId, ix: Address)
    requires Valid(d) && Times(d, since, deployment) > 0
    ensures |Detector.MinorityProbes(d, since, false, deployment, ix)| as real / Times(d, since, deployment) as real <= 0.6
       <==> 5 * |WrongOf(d, since, deployment, ix)| <= 3 * Times(d, since, deployment)
  {
    SameProbeSets(d, since, deployment, ix);
    Fifths(|WrongOf(d, since, deployment, ix)|, Times(d, since, deployment), 3);
  }

  lemma ShareIff(d: Data, since: int, deployment: DeploymentId)
    requires Valid(d) && |Answered(d, since, deployment)| > 0
    ensures |Disputed(d, since, deployment)| as real / |Answered(d, since, deployment)| as real >= 0.2
       <==> 5 * |Disputed(d, since, deployment)| >= |Answered(d, since, deployment)|
  {
    Fifths(|Disputed(d, since, deployment)|, |Answered(d, since, deployment)|, 1);
  }

  lemma SpreadOutIff(d: Data, since: int, deployment: DeploymentId)
    requires Valid(d) && Times(d, since, deployment) > 0
    ensures SpreadOut(d, since, deployment)
       <==> forall ix <- Minority(d, since, deployment) ::
              |Detector.MinorityProbes(d, since, false, deployment, ix)| as real / Times(d, since, deployment) as real <= 0.6
  {
    forall ix
      ensures |Detector.MinorityProbes(d, since, false, deployment, ix)| as real / Times(d, since, deployment) as real <= 0.6
         <==> 5 * |WrongOf(d, since, deployment, ix)| <= 3 * Times(d, since, deployment)
    {
      SpreadIff(d, since, deployment, ix);
    }
  }

  lemma RotatesIffRotating(d: Data, since: int, deployment: DeploymentId)
    requires Valid(d)
    ensures Detector.Rotates(d, since, false, deployment) <==> Rotating(d, since, deployment)
  {
    SameIndexers(d, since, deployment);
    SameTimes(d, since, deployment);
    SameProbeSets(d, since, deployment, "");
    if Disputed(d, since, deployment) != {} {
      DisputedWereAnswered(d, since, deployment);
      ShareIff(d, since, deployment);
      SpreadOutIff(d, since, deployment);
    }
  }

  /** A deployment is flagged exactly when wrong answers rotate on it. */
  lemma FlaggedIffRotating(d: Data, since: int, deployment: DeploymentId)
    requires Valid(d)
    ensures deployment in Detector.Rotating(d, since) <==> Rotating(d, since, deployment)
  {
    RotatesIffRotating(d, since, deployment);
    if Rotating(d, since, deployment) {
      var p := Pick(Disputed(d, since, deployment));
      var o :| o in d.observations && SeenWrong(d, since, deployment, o) && o.probe == p;
      assert d.probes[o.probe].deployment == deployment;
    }
  }

  // ---------------------------------------------------------------------------
  // What is graded.

  /** An answer that is wrong counts against its indexer, in the feed and in the grade, exactly when wrong answers do not
      rotate on its deployment. */
  lemma CountsIffNotRotating(d: Data, since: int, o: Observation)
    requires Valid(d) && o in d.observations && Outvoted(d, o)
    ensures var after := d.(nondeterministic := Detector.Rotating(d, since));
            RollupDivergent(after, o) == ScorerFault(after, o) == !Rotating(d, since, d.probes[o.probe].deployment)
  {
    var after := d.(nondeterministic := Detector.Rotating(d, since));
    FlaggedIffRotating(d, since, d.probes[o.probe].deployment);
    SeenIsRecent(d, since, d.probes[o.probe].deployment, o);
    ThreeJudgesAgree(after, o);
    assert JudgedFault(after, o, false) == JudgedFault(d, o, false);
  }

  lemma OffenderIsOfTheMinority(d: Data, since: int, deployment: DeploymentId, ix: Address)
    requires Valid(d) && WrongOf(d, since, deployment, ix) != {}
    ensures ix in Minority(d, since, deployment)
  {
    var p := Pick(WrongOf(d, since, deployment, ix));
  }

  /** So one persistent offender is never excused: behind more than three in five of a deployment's wrong answers, it keeps
      the deployment unflagged, and every wrong answer on it counts. */
  lemma OffenderIsNotExcused(d: Data, since: int, deployment: DeploymentId, ix: Address)
    requires Valid(d) && 5 * |WrongOf(d, since, deployment, ix)| > 3 * Times(d, since, deployment)
    ensures deployment !in Detector.Rotating(d, since)
    ensures forall o | SeenWrong(d, since, deployment, o) :: ScorerFault(d.(nondeterministic := Detector.Rotating(d, since)), o)
  {
    SameTimes(d, since, deployment);
    OffenderIsOfTheMinority(d, since, deployment, ix);
    FlaggedIffRotating(d, since, deployment);
    forall o | SeenWrong(d, since, deployment, o)
      ensures ScorerFault(d.(nondeterministic := Detector.Rotating(d, since)), o)
    {
      CountsIffNotRotating(d, since, o);
    }
  }
}
