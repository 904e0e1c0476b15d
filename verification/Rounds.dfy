/** A probe round stored one statement at a time, among everything else a run of the rollup protocol does. */
module Rounds {
  import opened Tables
  import opened Judgement
  import opened Dispatch
  import opened Majority
  import opened RollupProtocol
  import Rollup

  /** The step writes a row of probe `id`. */
  predicate WritesRound(step: Step, id: ProbeId) {
    match step
    case StoreProbe(q, _) => q == id
    case StoreAnswer(o) => o.probe == id
    case StoreCluster(q, _) => q == id
    case _ => false
  }

  /** What a run has written of probe `id`. */
  function Own(steps: seq<Step>, id: ProbeId): seq<Step> {
    if steps == [] then []
    else
      var last := steps[|steps| - 1];
      Own(steps[..|steps| - 1], id) + (if WritesRound(last, id) then [last] else [])
  }

  function AnswerSteps(id: ProbeId, best: seq<Answer>): seq<Step> {
    seq(|best|, i requires 0 <= i < |best| => StoreAnswer(Observed(id, best[i])))
  }

  function ClusterSteps(id: ProbeId, c: Clusters): seq<Step> {
    if Corroborated(c) then [StoreCluster(id, Divergence(c.largestHash, c.largestSize))] else []
  }

  /** The statements that store a round, in order; the first that fails ends them. */
  function Script(id: ProbeId, p: Probe, best: seq<Answer>, c: Clusters): seq<Step> {
    [StoreProbe(id, p)] + AnswerSteps(id, best) + ClusterSteps(id, c)
  }

  /** How many answers the first `m` statements store. */
  function Answers(m: nat, best: seq<Answer>): nat {
    if m == 0 then 0 else if m - 1 < |best| then m - 1 else |best|
  }

  /** The tables once the first `m` statements of the round are done. */
  predicate WrittenUpTo(d: Data, id: ProbeId, p: Probe, best: seq<Answer>, c: Clusters, m: nat) {
    && (id in d.probes <==> m > 0) && (m > 0 ==> d.probes[id] == p)
    && OfProbe(d.observations, id) == AllObserved(id, best[..Answers(m, best)])
    && (id in d.divergence <==> m == |best| + 2)
    && (m == |best| + 2 ==> Corroborated(c) && d.divergence[id] == Divergence(c.largestHash, c.largestSize))
  }

  lemma OneMoreOfProbe(observations: seq<Observation>, o: Observation, id: ProbeId)
    ensures OfProbe(observations + [o], id) == OfProbe(observations, id) + (if o.probe == id then [o] else [])
  {
    assert (observations + [o])[..|observations|] == observations;
  }

  /** Every other step leaves what is stored of the round alone. */
  lemma OthersKeepRound(cfg: Rollup.Config, s: State, step: Step, t: State, id: ProbeId, p: Probe, best: seq<Answer>,
                        c: Clusters, m: nat)
    requires cfg.Valid() && Valid(s.data) && Next(cfg, s, step, t) && !WritesRound(step, id)
    requires WrittenUpTo(s.data, id, p, best, c, m)
    ensures WrittenUpTo(t.data, id, p, best, c, m)
  {
    if step.StoreAnswer? { OneMoreOfProbe(s.data.observations, step.answer, id); }
  }

  lemma ScriptAt(id: ProbeId, p: Probe, best: seq<Answer>, c: Clusters, m: nat)
    requires m < |Script(id, p, best, c)|
    ensures Script(id, p, best, c)[m]
         == if m == 0 then StoreProbe(id, p)
            else if m - 1 < |best| then StoreAnswer(Observed(id, best[m - 1]))
            else Script(id, p, best, c)[m]
    ensures m > |best| ==> m == |best| + 1 && Corroborated(c)
                           && Script(id, p, best, c)[m] == StoreCluster(id, Divergence(c.largestHash, c.largestSize))
  {
  }

  /** The round's own next statement takes it one further. */
  lemma OwnStepAdvances(cfg: Rollup.Config, s: State, step: Step, t: State, id: ProbeId, p: Probe, best: seq<Answer>,
                        c: Clusters, m: nat)
    requires cfg.Valid() && Valid(s.data) && Next(cfg, s, step, t)
    requires m < |Script(id, p, best, c)| && step == Script(id, p, best, c)[m]
    requires WrittenUpTo(s.data, id, p, best, c, m)
    ensures WrittenUpTo(t.data, id, p, best, c, m + 1)
  {
    ScriptAt(id, p, best, c, m);
    if 0 < m && m - 1 < |best| {
      OneMoreOfProbe(s.data.observations, step.answer, id);
      assert best[..m][..m - 1] == best[..m - 1];
    }
  }

  lemma OwnIsPrefix(steps: seq<Step>, id: ProbeId, script: seq<Step>, m: nat)
    requires steps != [] && m <= |script| && Own(steps, id) == script[..m]
    requires WritesRound(steps[|steps| - 1], id)
    ensures m > 0 && Own(steps[..|steps| - 1], id) == script[..m - 1] && steps[|steps| - 1] == script[m - 1]
  {
    var before := Own(steps[..|steps| - 1], id);
    assert before == Own(steps, id)[..|before|];
    assert script[..m][..m - 1] == script[..m - 1];
  }

  /** In every state of every run, whatever came between, what is stored of a probe is what its own statements
      have stored so far. */
  lemma {:induction false} RoundAlongRun(cfg: Rollup.Config, states: seq<State>, steps: seq<Step>, n: nat,
                                         id: ProbeId, p: Probe, best: seq<Answer>, c: Clusters, m: nat)
    requires cfg.Valid() && Run(cfg, states, steps) && n <= |steps|
    requires m <= |Script(id, p, best, c)| && Own(steps[..n], id) == Script(id, p, best, c)[..m]
    ensures WrittenUpTo(states[n].data, id, p, best, c, m)
  {
    var script := Script(id, p, best, c);
    if n > 0 {
      var s, step, t := states[n - 1], steps[n - 1], states[n];
      assert TakenAt(cfg, states, steps, n - 1);
      assert steps[..n][..n - 1] == steps[..n - 1];
      if WritesRound(step, id) {
        OwnIsPrefix(steps[..n], id, script, m);
        RoundAlongRun(cfg, states, steps, n - 1, id, p, best, c, m - 1);
        OwnStepAdvances(cfg, s, step, t, id, p, best, c, m - 1);
      } else {
        RoundAlongRun(cfg, states, steps, n - 1, id, p, best, c, m);
        OthersKeepRound(cfg, s, step, t, id, p, best, c, m);
      }
    }
  }

  lemma ScriptDone(d: Data, id: ProbeId, p: Probe, best: seq<Answer>, c: Clusters)
    requires WrittenUpTo(d, id, p, best, c, |Script(id, p, best, c)|)
    ensures RoundStored(d, id, p, best, c)
  {
    assert best[..|best|] == best;
  }

  lemma FaultWhenWritten(d: Data, id: ProbeId, p: Probe, all: seq<Answer>, best: seq<Answer>, c: Clusters, m: nat, a: Answer)
    requires Deduplicated(all, best) && IsClustering(best, c) && a in best
    requires 0 < m <= |Script(id, p, best, c)| && WrittenUpTo(d, id, p, best, c, m)
    ensures var complete := m == |Script(id, p, best, c)|;
            && id in d.probes
            && (complete ==> Observed(id, a) in d.observations)
            && (JudgedFault(d, Observed(id, a), false) <==> complete && Outvoted(best, a))
            && (RollupDivergent(d, Observed(id, a)) <==> complete && Outvoted(best, a) && p.deployment !in d.nondeterministic)
  {
    if m == |Script(id, p, best, c)| {
      ScriptDone(d, id, p, best, c);
      FaultIsStrictMajority(d, id, p, all, best, c, a);
    } else {
      UnclusteredFaultsNobody(d, Observed(id, a));
    }
  }

  lemma UnclusteredFaultsNobody(d: Data, o: Observation)
    requires o.probe in d.probes && o.probe !in d.divergence
    ensures !JudgedFault(d, o, false) && !RollupDivergent(d, o)
  {
  }

  /** In every state of every run, with the round stored in full or cut off anywhere, an answer of it is a fault
      exactly when the round is complete and some other hash has a strict majority of its deduplicated answers: a
      half-stored round faults nobody. */
  lemma FaultInRunIsStrictMajority(cfg: Rollup.Config, states: seq<State>, steps: seq<Step>, n: nat, id: ProbeId, p: Probe,
                                   all: seq<Answer>, best: seq<Answer>, c: Clusters, m: nat, a: Answer)
    requires cfg.Valid() && Run(cfg, states, steps) && n <= |steps|
    requires Deduplicated(all, best) && IsClustering(best, c) && a in best
    requires 0 < m <= |Script(id, p, best, c)| && Own(steps[..n], id) == Script(id, p, best, c)[..m]
    ensures var d, complete := states[n].data, m == |Script(id, p, best, c)|;
            && id in d.probes
            && (complete ==> Observed(id, a) in d.observations)
            && (JudgedFault(d, Observed(id, a), false) <==> complete && Outvoted(best, a))
            && (RollupDivergent(d, Observed(id, a)) <==> complete && Outvoted(best, a) && p.deployment !in d.nondeterministic)
  {
    RoundAlongRun(cfg, states, steps, n, id, p, best, c, m);
    FaultWhenWritten(states[n].data, id, p, all, best, c, m, a);
  }
}
