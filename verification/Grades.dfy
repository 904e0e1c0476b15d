/** The scorer's aggregate, and how the feed's bucket rows add up to it. */
module Grades {
  import opened Prelude
  import opened Tables
  import opened Judgement
  import opened Rollup
  import opened Buckets

  /** An admitted answer of indexer `ix` to one of `probes`: the rows the scorer groups under `ix`. */
  predicate Graded(d: Data, probes: set<ProbeId>, ix: Address, o: Observation) {
    Admitted(d, o) && Identity(d, o) == Some(ix) && o.probe in probes
  }

  function GradedTotal(d: Data, rows: seq<Observation>, probes: set<ProbeId>, ix: Address): nat {
    if rows == [] then 0
    else GradedTotal(d, rows[..|rows| - 1], probes, ix) + (if Graded(d, probes, ix, rows[|rows| - 1]) then 1 else 0)
  }

  /** `COUNT(DISTINCT o.probe_id) FILTER (WHERE <fault>)` */
  function GradedFaults(d: Data, rows: seq<Observation>, probes: set<ProbeId>, ix: Address): set<ProbeId>
    requires forall o <- rows :: o.probe in d.probes
  {
    set o | o in rows && Graded(d, probes, ix, o) && ScorerFault(d, o) :: o.probe
  }

  /** Distinct faulted probes as `judged_probes(.., true)` has them. */
  function JudgedFaults(d: Data, rows: seq<Observation>, probes: set<ProbeId>, ix: Address): set<ProbeId>
    requires forall o <- rows :: o.probe in d.probes
  {
    set o | o in rows && Graded(d, probes, ix, o) && JudgedFault(d, o, true) :: o.probe
  }

  lemma ScorerFaultsAreJudgedFaults(d: Data, rows: seq<Observation>, probes: set<ProbeId>, ix: Address)
    requires forall o <- rows :: o.probe in d.probes
    ensures GradedFaults(d, rows, probes, ix) == JudgedFaults(d, rows, probes, ix)
  {
  }

  /** The same probes seen both ways: `keys` are buckets of `ix`, and hold its answers to `probes` and
      no other answers. */
  predicate SameProbes(cfg: Config, d: Data, keys: set<Key>, probes: set<ProbeId>, ix: Address)
    requires cfg.Valid() && Valid(d)
  {
    forall o <- d.observations ::
      var fact := FactOf(cfg, d, o);
      (fact.Some? && fact.value.key in keys) <==> Graded(d, probes, ix, o)
  }

  predicate MatchesGraded(cfg: Config, d: Data, rows: seq<Observation>, keys: set<Key>, probes: set<ProbeId>, ix: Address)
    requires cfg.Valid() && forall o <- rows :: o.probe in d.probes
  {
    forall o <- rows ::
      var fact := FactOf(cfg, d, o);
      (fact.Some? && fact.value.key in keys) <==> Graded(d, probes, ix, o)
  }

  lemma {:induction false} FactsAreGraded(cfg: Config, d: Data, rows: seq<Observation>, keys: set<Key>, probes: set<ProbeId>, ix: Address)
    requires cfg.Valid() && forall o <- rows :: o.probe in d.probes
    requires MatchesGraded(cfg, d, rows, keys, probes, ix)
    ensures |FactsOf(cfg, d, rows, keys)| == GradedTotal(d, rows, probes, ix)
  {
    if rows != [] {
      assert forall o <- rows[..|rows| - 1] :: o in rows;
      assert rows[|rows| - 1] in rows;
      FactsAreGraded(cfg, d, rows[..|rows| - 1], keys, probes, ix);
    }
  }

  /** No two of the indexer's faulted answers are to the same probe. */
  predicate OneFaultPerProbe(facts: seq<Fact>) {
    forall i, j | 0 <= i < j < |facts| && facts[i].divergent && facts[j].divergent :: facts[i].probe != facts[j].probe
  }

  function FaultedProbes(facts: seq<Fact>): set<ProbeId> {
    set f | f in facts && f.divergent :: f.probe
  }

  lemma {:induction false} FaultsCountedOncePerProbe(facts: seq<Fact>)
    ensures |FaultedProbes(facts)| <= Count(facts, IsDivergent)
    ensures |FaultedProbes(facts)| == Count(facts, IsDivergent) <==> OneFaultPerProbe(facts)
  {
    if facts != [] {
      var init, last := facts[..|facts| - 1], facts[|facts| - 1];
      FaultsCountedOncePerProbe(init);
      assert forall f :: f in facts <==> f in init || f == last;
      assert FaultedProbes(facts) == FaultedProbes(init) + (if last.divergent then {last.probe} else {});
      if last.divergent && last.probe in FaultedProbes(init) {
        RepeatedFault(init, last, facts);
      } else {
        OneMoreFact(init, last, facts);
      }
    }
  }

  lemma RepeatedFault(init: seq<Fact>, last: Fact, facts: seq<Fact>)
    requires facts == init + [last] && last.divergent && last.probe in FaultedProbes(init)
    ensures !OneFaultPerProbe(facts)
  {
    var f :| f in init && f.divergent && f.probe == last.probe;
    var i :| 0 <= i < |init| && init[i] == f;
    assert facts[i].divergent && facts[|facts| - 1].divergent;
  }

  lemma OneMoreFact(init: seq<Fact>, last: Fact, facts: seq<Fact>)
    requires facts == init + [last]
    requires last.divergent ==> last.probe !in FaultedProbes(init)
    ensures OneFaultPerProbe(facts) <==> OneFaultPerProbe(init)
  {
    forall i, j | 0 <= i < j < |facts| && facts[i].divergent && facts[j].divergent && OneFaultPerProbe(init)
      ensures facts[i].probe != facts[j].probe
    {
      assert facts[i] in init;
    }
    if OneFaultPerProbe(facts) {
      forall i, j | 0 <= i < j < |init| && init[i].divergent && init[j].divergent
        ensures init[i].probe != init[j].probe
      {
        assert facts[i] == init[i] && facts[j] == init[j];
      }
    }
  }

  /** The feed and the grades, over the same probes: bucket query counts add up to the scorer's total;
      bucket divergent counts add up to at least its faults, and to exactly them precisely when no
      probe was answered wrongly twice under the one indexer. */
  lemma FeedAndGradesAgree(cfg: Config, d: Data, qos: Table, keys: set<Key>, probes: set<ProbeId>, ix: Address,
                           queries: Key -> int, divergent: Key -> int)
    requires cfg.Valid() && Valid(d) && FreshRows(cfg, d, qos, keys) && SameProbes(cfg, d, keys, probes, ix)
    requires forall k | k in keys :: queries(k) == qos[k].queries && divergent(k) == qos[k].divergent
    ensures Sum(keys, queries) == GradedTotal(d, d.observations, probes, ix)
    ensures Sum(keys, divergent) >= |GradedFaults(d, d.observations, probes, ix)|
    ensures Sum(keys, divergent) == |GradedFaults(d, d.observations, probes, ix)|
       <==> OneFaultPerProbe(FactsOf(cfg, d, d.observations, keys))
  {
    var facts := FactsOf(cfg, d, d.observations, keys);
    QueriesAddUp(cfg, d, qos, keys, queries);
    FactsAreGraded(cfg, d, d.observations, keys, probes, ix);
    CountsAddUp(cfg, d, qos, keys, IsDivergent, divergent);
    FaultsCountedOncePerProbe(facts);
    SameFaultedProbes(cfg, d, keys, probes, ix);
  }

  lemma SameFaultedProbes(cfg: Config, d: Data, keys: set<Key>, probes: set<ProbeId>, ix: Address)
    requires cfg.Valid() && Valid(d) && SameProbes(cfg, d, keys, probes, ix)
    ensures FaultedProbes(FactsOf(cfg, d, d.observations, keys)) == GradedFaults(d, d.observations, probes, ix)
  {
    var facts := FactsOf(cfg, d, d.observations, keys);
    forall o | o in d.observations { ThreeJudgesAgree(d, o); }
    forall p
      ensures p in FaultedProbes(facts) <==> p in GradedFaults(d, d.observations, probes, ix)
    {
      if p in FaultedProbes(facts) {
        var f :| f in facts && f.divergent && f.probe == p;
        FactsOfAreFacts(cfg, d, d.observations, keys, f);
      }
      if p in GradedFaults(d, d.observations, probes, ix) {
        var o :| o in d.observations && Graded(d, probes, ix, o) && ScorerFault(d, o) && o.probe == p;
        FactsOfAreFacts(cfg, d, d.observations, keys, FactOf(cfg, d, o).value);
      }
    }
  }

  // ---------------------------------------------------------------------------
  // A window both can see.

  function ProbesIn(d: Data, w: Window): set<ProbeId> {
    set p | p in d.probes && w.Holds(d.probes[p].dispatchedAt)
  }

  function BucketsIn(cfg: Config, qos: Table, w: Window, ix: Address): set<Key> {
    set k | k in qos && k.indexer == ix && k.width == cfg.width && w.Holds(k.start)
  }

  /** Over any range widened to whole buckets, a fresh table's buckets of an indexer and the probes
      dispatched in the range are the same probes. */
  lemma WindowIsSameProbes(cfg: Config, d: Data, qos: Table, from: int, to: Option<int>, ix: Address)
    requires cfg.Valid() && Valid(d)
    requires forall k: Key | k.width == cfg.width :: Lookup(qos, k) == Fresh(cfg, d, k)
    ensures var w := WindowRange(cfg, from, to);
            SameProbes(cfg, d, BucketsIn(cfg, qos, w, ix), ProbesIn(d, w), ix)
            && FreshRows(cfg, d, qos, BucketsIn(cfg, qos, w, ix))
  {
    var w := WindowRange(cfg, from, to);
    forall o | o in d.observations
      ensures var fact := FactOf(cfg, d, o);
              (fact.Some? && fact.value.key in BucketsIn(cfg, qos, w, ix)) <==> Graded(d, ProbesIn(d, w), ix, o)
    {
      var fact := FactOf(cfg, d, o);
      if fact.Some? {
        WindowHoldsWholeBuckets(cfg, from, to, d.probes[o.probe].dispatchedAt);
        StoredFactHasABucket(cfg, d, qos, o);
      }
    }
  }

  lemma StoredFactHasABucket(cfg: Config, d: Data, qos: Table, o: Observation)
    requires cfg.Valid() && Valid(d) && o in d.observations && FactOf(cfg, d, o).Some?
    requires forall k: Key | k.width == cfg.width :: Lookup(qos, k) == Fresh(cfg, d, k)
    ensures FactOf(cfg, d, o).value.key in qos
  {
    FactIsAmongItsKeys(cfg, d, d.observations, o);
    assert Lookup(qos, FactOf(cfg, d, o).value.key).Some?;
  }

  // ---------------------------------------------------------------------------
  // One indexer wrong twice on one probe.

  const WITNESS_CONFIG := Config(300, 3600, 12)

  const WITNESS_KEY := Key("ix", "D", 0, 300)

  function Attested(key: Address): Observation {
    Observation(1, key, Some("n"), Some(40), None, Some(200), None, Gateway)
  }

  function PaidAnswer(indexer: Address): Observation {
    Observation(1, indexer, Some("y"), Some(40), None, Some(200), None, Paid)
  }

  /** Two attestation keys of one indexer, outvoted together on one probe by three other indexers. */
  function TwoKeys(): Data {
    Data(map[1 := Probe("D", 0, 100)], [Attested("k1"), Attested("k2"), PaidAnswer("X"), PaidAnswer("Y"), PaidAnswer("Z")],
         map["k1" := Some("ix"), "k2" := Some("ix")], map[1 := Divergence("y", 3)], {})
  }

  lemma Prefixes<T>(a: T, b: T, c: T, d: T, e: T)
    ensures [a, b, c, d, e][..4] == [a, b, c, d] && [a, b, c, d][..3] == [a, b, c] && [a, b, c][..2] == [a, b]
    ensures [a, b][..1] == [a] && [a][..0] == []
  {
  }

  lemma TwoKeysResponders()
    ensures Responders(TwoKeys().observations, 1) == 5
  {
    var a, b, x, y, z := Attested("k1"), Attested("k2"), PaidAnswer("X"), PaidAnswer("Y"), PaidAnswer("Z");
    Prefixes(a, b, x, y, z);
    assert Responders([a], 1) == 1;
    assert Responders([a, b], 1) == 2;
    assert Responders([a, b, x, y], 1) == 4;
  }

  lemma AttestedFact(key: Address)
    requires key == "k1" || key == "k2"
    ensures Valid(TwoKeys())
    ensures var d, o := TwoKeys(), Attested(key);
            && o in d.observations && Graded(d, {1}, "ix", o) && ScorerFault(d, o)
            && FactOf(WITNESS_CONFIG, d, o).Some?
            && FactOf(WITNESS_CONFIG, d, o).value.key == WITNESS_KEY && FactOf(WITNESS_CONFIG, d, o).value.divergent
  {
    TwoKeysResponders();
  }

  lemma PaidFact(indexer: Address)
    requires indexer == "X" || indexer == "Y" || indexer == "Z"
    ensures Valid(TwoKeys())
    ensures var d, o := TwoKeys(), PaidAnswer(indexer);
            && o in d.observations && !Graded(d, {1}, "ix", o)
            && FactOf(WITNESS_CONFIG, d, o).Some? && FactOf(WITNESS_CONFIG, d, o).value.key != WITNESS_KEY
  {
  }

  lemma TwoFacts(f: Fact, g: Fact)
    ensures Aggregate([f, g]).queries == 2
    ensures f.divergent && g.divergent ==> Aggregate([f, g]).divergent == 2
  {
    assert [f, g][..1] == [f];
    assert f.divergent ==> Count([f], IsDivergent) == 1;
  }

  lemma TwoKeysRow(d: Data, a: Observation, b: Observation, x: Observation, y: Observation, z: Observation)
    requires Valid(d) && d.observations == [a, b, x, y, z]
    requires forall o <- [a, b] :: FactOf(WITNESS_CONFIG, d, o).Some?
               && FactOf(WITNESS_CONFIG, d, o).value.key == WITNESS_KEY && FactOf(WITNESS_CONFIG, d, o).value.divergent
    requires forall o <- [x, y, z] :: FactOf(WITNESS_CONFIG, d, o).Some? && FactOf(WITNESS_CONFIG, d, o).value.key != WITNESS_KEY
    ensures var row := Fresh(WITNESS_CONFIG, d, WITNESS_KEY); row.Some? && row.value.queries == row.value.divergent == 2
  {
    Prefixes(a, b, x, y, z);
    assert x in [x, y, z] && y in [x, y, z] && z in [x, y, z] && a in [a, b] && b in [a, b];
    var k := WITNESS_KEY;
    var f, g := FactOf(WITNESS_CONFIG, d, a).value, FactOf(WITNESS_CONFIG, d, b).value;
    assert KeyFacts(WITNESS_CONFIG, d, [a], k) == [f];
    assert KeyFacts(WITNESS_CONFIG, d, [a, b], k) == [f, g];
    assert KeyFacts(WITNESS_CONFIG, d, [a, b, x], k) == [f, g];
    assert KeyFacts(WITNESS_CONFIG, d, [a, b, x, y], k) == [f, g];
    assert KeyFacts(WITNESS_CONFIG, d, d.observations, k) == [f, g];
    TwoFacts(f, g);
  }

  /** The feed's row counts the indexer wrong twice, the scorer once, over the very same answers. */
  lemma TwoKeysAreTwoDivergents()
    ensures Valid(TwoKeys()) && SameProbes(WITNESS_CONFIG, TwoKeys(), {WITNESS_KEY}, {1}, "ix")
    ensures var row := Fresh(WITNESS_CONFIG, TwoKeys(), WITNESS_KEY);
            row.Some? && row.value.queries == row.value.divergent == 2
    ensures GradedTotal(TwoKeys(), TwoKeys().observations, {1}, "ix") == 2
    ensures GradedFaults(TwoKeys(), TwoKeys().observations, {1}, "ix") == {1}
  {
    AttestedFact("k1");
    AttestedFact("k2");
    PaidFact("X");
    PaidFact("Y");
    PaidFact("Z");
    TwoKeysRow(TwoKeys(), Attested("k1"), Attested("k2"), PaidAnswer("X"), PaidAnswer("Y"), PaidAnswer("Z"));
    TwoKeysGraded(TwoKeys(), Attested("k1"), Attested("k2"), PaidAnswer("X"), PaidAnswer("Y"), PaidAnswer("Z"));
  }

  lemma TwoKeysGraded(d: Data, a: Observation, b: Observation, x: Observation, y: Observation, z: Observation)
    requires Valid(d) && d.observations == [a, b, x, y, z] && a.probe == b.probe == 1
    requires Graded(d, {1}, "ix", a) && Graded(d, {1}, "ix", b) && ScorerFault(d, a)
    requires forall o <- [x, y, z] :: !Graded(d, {1}, "ix", o)
    ensures GradedTotal(d, d.observations, {1}, "ix") == 2
    ensures GradedFaults(d, d.observations, {1}, "ix") == {1}
  {
    Prefixes(a, b, x, y, z);
    assert x in [x, y, z] && y in [x, y, z] && z in [x, y, z];
    assert GradedTotal(d, [a], {1}, "ix") == 1;
    assert GradedTotal(d, [a, b], {1}, "ix") == 2;
    assert GradedTotal(d, [a, b, x, y], {1}, "ix") == 2;
    assert a in d.observations;
  }
}
