/** Which deployments the detector flags: those whose minority rotates among indexers. */
module Detector {
  import opened Prelude
  import opened Tables
  import opened Judgement

  predicate Recent(d: Data, since: int, o: Observation)
    requires Valid(d) && o in d.observations
  {
    Admitted(d, o) && d.probes[o.probe].dispatchedAt > since
  }

  predicate On(d: Data, o: Observation, deployment: DeploymentId)
    requires Valid(d) && o in d.observations
  {
    d.probes[o.probe].deployment == deployment
  }

  /** The probes of a deployment on which indexer `ix` was in the minority. */
  function MinorityProbes(d: Data, since: int, excuse: bool, deployment: DeploymentId, ix: Address): set<ProbeId>
    requires Valid(d)
  {
    set o | o in d.observations && Recent(d, since, o) && On(d, o, deployment)
            && Identity(d, o) == Some(ix) && JudgedFault(d, o, excuse) :: o.probe
  }

  function MinorityIndexers(d: Data, since: int, excuse: bool, deployment: DeploymentId): set<Address>
    requires Valid(d)
  {
    set o | o in d.observations && Recent(d, since, o) && On(d, o, deployment)
            && JudgedFault(d, o, excuse) :: Identity(d, o).value
  }

  datatype Position = Position(indexer: Address, probe: ProbeId)

  /** Every minority position on a deployment: what `SUM(times)` adds up to. */
  function MinorityPositions(d: Data, since: int, excuse: bool, deployment: DeploymentId): set<Position>
    requires Valid(d)
  {
    set o | o in d.observations && Recent(d, since, o) && On(d, o, deployment)
            && JudgedFault(d, o, excuse) :: Position(Identity(d, o).value, o.probe)
  }

  function AnsweredProbes(d: Data, since: int, deployment: DeploymentId): set<ProbeId>
    requires Valid(d)
  {
    set o | o in d.observations && Recent(d, since, o) && On(d, o, deployment) && o.hash.Some? :: o.probe
  }

  function DivergentProbes(d: Data, since: int, excuse: bool, deployment: DeploymentId): set<ProbeId>
    requires Valid(d)
  {
    set o | o in d.observations && Recent(d, since, o) && On(d, o, deployment) && o.hash.Some?
            && JudgedFault(d, o, excuse) :: o.probe
  }

  predicate Rotates(d: Data, since: int, excuse: bool, deployment: DeploymentId)
    requires Valid(d)
  {
    var total, divergent := |AnsweredProbes(d, since, deployment)|, |DivergentProbes(d, since, excuse, deployment)|;
    var indexers := MinorityIndexers(d, since, excuse, deployment);
    var positions := |MinorityPositions(d, since, excuse, deployment)|;
    && divergent >= 3
    && total > 0 && divergent as real / total as real >= 0.2
    && |indexers| >= 2
    && positions > 0
    && forall ix <- indexers :: |MinorityProbes(d, since, excuse, deployment, ix)| as real / positions as real <= 0.6
  }

  /** The detector's query: it judges without excusing. */
  function Rotating(d: Data, since: int): set<DeploymentId>
    requires Valid(d)
  {
    set o | o in d.observations && Rotates(d, since, false, d.probes[o.probe].deployment) :: d.probes[o.probe].deployment
  }

  function Of(all: set<Position>, ix: Address): set<ProbeId> {
    set p | p in all && p.indexer == ix :: p.probe
  }

  function Within(all: set<Position>, indexers: set<Address>): set<Position> {
    set p | p in all && p.indexer in indexers
  }

  lemma {:induction false} SameSize(positions: set<Position>, probes: set<ProbeId>, ix: Address)
    requires forall p | p in positions :: p.indexer == ix && p.probe in probes
    requires forall q | q in probes :: Position(ix, q) in positions
    ensures |positions| == |probes|
    decreases probes
  {
    if probes == {} {
      assert positions == {};
    } else {
      var q := Pick(probes);
      SameSize(positions - {Position(ix, q)}, probes - {q}, ix);
    }
  }

  lemma {:induction false} PositionsAddUp(all: set<Position>, indexers: set<Address>)
    ensures Sum(indexers, ix => |Of(all, ix)|) == |Within(all, indexers)|
    decreases indexers
  {
    var times := ix => |Of(all, ix)|;
    if indexers == {} {
      assert Within(all, indexers) == {};
    } else {
      var ix := Pick(indexers);
      var rest := indexers - {ix};
      SumTake(indexers, times, ix);
      PositionsAddUp(all, rest);
      SumSame(rest, times, x => |Of(all, x)|);
      assert Within(all, indexers) == Within(all, {ix}) + Within(all, rest);
      SameSize(Within(all, {ix}), Of(all, ix), ix);
    }
    SumSame(indexers, times, x => |Of(all, x)|);
  }

  /** `SUM(times)` over a deployment's minority indexers is the number of its minority positions. */
  lemma TimesAddUp(d: Data, since: int, excuse: bool, deployment: DeploymentId)
    requires Valid(d)
    ensures Sum(MinorityIndexers(d, since, excuse, deployment), ix => |MinorityProbes(d, since, excuse, deployment, ix)|)
         == |MinorityPositions(d, since, excuse, deployment)|
  {
    var all, indexers := MinorityPositions(d, since, excuse, deployment), MinorityIndexers(d, since, excuse, deployment);
    PositionsAddUp(all, indexers);
    assert Within(all, indexers) == all;
    forall ix
      ensures MinorityProbes(d, since, excuse, deployment, ix) == Of(all, ix)
    {
      forall q | q in MinorityProbes(d, since, excuse, deployment, ix)
        ensures Position(ix, q) in all
      {
      }
    }
    SumSame(indexers, ix => |Of(all, ix)|, ix => |MinorityProbes(d, since, excuse, deployment, ix)|);
  }

  /** Two states that judge every answer alike flag alike. */
  predicate JudgedAlike(d: Data, d': Data, since: int)
    requires Valid(d) && Valid(d')
  {
    && d'.observations == d.observations && d'.probes == d.probes
    && forall o <- d.observations ::
         && Recent(d', since, o) == Recent(d, since, o)
         && Identity(d', o) == Identity(d, o)
         && JudgedFault(d', o, false) == JudgedFault(d, o, false)
  }

  lemma AlikeSets(d: Data, d': Data, since: int, dep: DeploymentId)
    requires Valid(d) && Valid(d') && JudgedAlike(d, d', since)
    ensures MinorityIndexers(d', since, false, dep) == MinorityIndexers(d, since, false, dep)
    ensures MinorityPositions(d', since, false, dep) == MinorityPositions(d, since, false, dep)
  {
  }

  lemma AlikeProbes(d: Data, d': Data, since: int, dep: DeploymentId, ix: Address)
    requires Valid(d) && Valid(d') && JudgedAlike(d, d', since)
    ensures AnsweredProbes(d', since, dep) == AnsweredProbes(d, since, dep)
    ensures DivergentProbes(d', since, false, dep) == DivergentProbes(d, since, false, dep)
    ensures MinorityProbes(d', since, false, dep, ix) == MinorityProbes(d, since, false, dep, ix)
  {
  }

  /** The flag does not feed back: what is flagged now has no effect on what is flagged next, so a flag
      cannot flap on unchanged evidence. */
  lemma FlagIgnoresItself(d: Data, since: int, flags: set<DeploymentId>)
    requires Valid(d)
    ensures Rotating(d.(nondeterministic := flags), since) == Rotating(d, since)
  {
    var d' := d.(nondeterministic := flags);
    assert JudgedAlike(d, d', since);
    forall dep
      ensures Rotates(d', since, false, dep) == Rotates(d, since, false, dep)
    {
      AlikeSets(d, d', since, dep);
      forall ix
        ensures MinorityProbes(d', since, false, dep, ix) == MinorityProbes(d, since, false, dep, ix)
      {
        AlikeProbes(d, d', since, dep, ix);
      }
      AlikeProbes(d, d', since, dep, "");
    }
  }

  /** It would, had the detector judged as the grades do: excused, a flagged deployment has no faults
      left and would be unflagged by the very next run. */
  lemma ExcusedDetectorWouldFlap(d: Data, since: int, deployment: DeploymentId)
    requires Valid(d) && deployment in d.nondeterministic
    ensures !Rotates(d, since, true, deployment)
  {
    assert DivergentProbes(d, since, true, deployment) == {};
  }
}
