/** What a fault means, end to end: from a probe's raw answers, through deduplication, clustering, the
    gate on storing a cluster row and the judgement, to one statement about strict majorities. */
module Majority {
  import opened Prelude
  import opened Tables
  import opened Judgement
  import opened Dispatch

  /** How many of the answers are answers at all. */
  function Answered(best: seq<Answer>): nat {
    if best == [] then 0
    else Answered(best[..|best| - 1]) + (if best[|best| - 1].hash.Some? then 1 else 0)
  }

  /** Hash `h` is held by strictly more than half of the answers. */
  predicate StrictMajority(best: seq<Answer>, h: Hash) {
    2 * |Holders(best, h)| > Answered(best)
  }

  /** The plain statement: some other hash has a strict majority. */
  ghost predicate Outvoted(best: seq<Answer>, a: Answer) {
    a.hash.Some? && exists h: Hash :: h != a.hash.value && StrictMajority(best, h)
  }

  // ---------------------------------------------------------------------------
  // Counting answers.

  lemma {:induction false} HoldersOfTwoHashes(best: seq<Answer>, g: Hash, h: Hash)
    requires g != h
    ensures |Holders(best, g)| + |Holders(best, h)| <= Answered(best)
    ensures |Holders(best, g)| <= Answered(best)
  {
    if best != [] {
      HoldersOfTwoHashes(best[..|best| - 1], g, h);
    }
  }

  lemma {:induction false} HolderIsHeld(best: seq<Answer>, a: Answer)
    requires a in best && a.hash.Some?
    ensures |Holders(best, a.hash.value)| >= 1
  {
    if best[|best| - 1] != a {
      HolderIsHeld(best[..|best| - 1], a);
    }
  }

  lemma {:induction false} HeldByNone(best: seq<Answer>, h: Hash)
    requires h !in Hashes(best)
    ensures Holders(best, h) == []
  {
    if best != [] {
      var init, last := best[..|best| - 1], best[|best| - 1];
      assert last in best && forall b <- init :: b in best;
      HeldByNone(init, h);
    }
  }

  /** The gate hides no fault: whenever an answer is outvoted, the cluster that outvotes it is the
      recorded one and the round is corroborated. */
  lemma GateHidesNoFault(best: seq<Answer>, c: Clusters, a: Answer, h: Hash)
    requires IsClustering(best, c) && a in best && a.hash.Some?
    requires h != a.hash.value && StrictMajority(best, h)
    ensures Corroborated(c) && c.largestHash == h && c.largestSize == |Holders(best, h)|
  {
    HolderIsHeld(best, a);
    HoldersOfTwoHashes(best, a.hash.value, h);
    if h !in Hashes(best) { HeldByNone(best, h); }
    var g := c.largestHash;
    if g != h { HoldersOfTwoHashes(best, g, h); }
  }

  // ---------------------------------------------------------------------------
  // What storing leaves in the observation table.

  lemma {:induction false} StoredFromRound(observations: seq<Observation>, id: ProbeId, best: seq<Answer>, address: Address)
    requires forall o <- observations :: o.probe != id
    ensures Stored(InsertObservations(observations, id, best), id, address)
        ==> exists b :: b in best && b.address == address
  {
    if best != [] {
      var init, last := best[..|best| - 1], best[|best| - 1];
      StoredFromRound(observations, id, init, address);
      assert last in best && forall b <- init :: b in best;
    }
  }

  /** The stored answers to one probe, in order. */
  function OfProbe(observations: seq<Observation>, id: ProbeId): seq<Observation> {
    if observations == [] then []
    else
      var o := observations[|observations| - 1];
      OfProbe(observations[..|observations| - 1], id) + (if o.probe == id then [o] else [])
  }

  function AllObserved(id: ProbeId, best: seq<Answer>): (rows: seq<Observation>)
    ensures |rows| == |best|
  {
    if best == [] then [] else AllObserved(id, best[..|best| - 1]) + [Observed(id, best[|best| - 1])]
  }

  /** The tables hold a round's results: its probe, its answers in order, and its cluster row if it has one. What
      they hold of other probes, and whose keys and which deployments are on record, is open. */
  predicate RoundStored(d: Data, id: ProbeId, p: Probe, best: seq<Answer>, c: Clusters) {
    && id in d.probes && d.probes[id] == p
    && OfProbe(d.observations, id) == AllObserved(id, best)
    && (id in d.divergence <==> Corroborated(c))
    && (Corroborated(c) ==> d.divergence[id] == Divergence(c.largestHash, c.largestSize))
  }

  lemma {:induction false} OfNoProbe(observations: seq<Observation>, id: ProbeId)
    requires forall o <- observations :: o.probe != id
    ensures OfProbe(observations, id) == []
  {
    if observations != [] {
      OfNoProbe(observations[..|observations| - 1], id);
    }
  }

  lemma {:induction false} InsertedAreOfProbe(observations: seq<Observation>, id: ProbeId, best: seq<Answer>)
    requires Distinct(best) && forall o <- observations :: o.probe != id
    ensures OfProbe(InsertObservations(observations, id, best), id) == AllObserved(id, best)
  {
    if best == [] {
      OfNoProbe(observations, id);
    } else {
      var init, last := best[..|best| - 1], best[|best| - 1];
      InsertedAreOfProbe(observations, id, init);
      StoredFromRound(observations, id, init, last.address);
      var before := InsertObservations(observations, id, init);
      assert (before + [Observed(id, last)])[..|before|] == before;
    }
  }

  lemma {:induction false} InsertedSpareOthers(observations: seq<Observation>, id: ProbeId, best: seq<Answer>, q: ProbeId)
    requires q != id
    ensures OfProbe(InsertObservations(observations, id, best), q) == OfProbe(observations, q)
  {
    if best != [] {
      var init, last := best[..|best| - 1], best[|best| - 1];
      InsertedSpareOthers(observations, id, init, q);
      var before := InsertObservations(observations, id, init);
      assert (before + [Observed(id, last)])[..|before|] == before;
    }
  }

  /** Storing a round's results over a table that has none of that probe's leaves them stored, and every other
      round as it was. */
  lemma StoreLeavesRoundStored(d: Data, id: ProbeId, p: Probe, best: seq<Answer>, c: Clusters)
    requires Valid(d) && id !in d.probes && Distinct(best)
    ensures RoundStored(Store(d, id, p, best, c), id, p, best, c)
    ensures forall q, p', best', c' | RoundStored(d, q, p', best', c') :: RoundStored(Store(d, id, p, best, c), q, p', best', c')
  {
    InsertedAreOfProbe(d.observations, id, best);
    forall q | q != id
      ensures OfProbe(InsertObservations(d.observations, id, best), q) == OfProbe(d.observations, q)
    {
      InsertedSpareOthers(d.observations, id, best, q);
    }
  }

  /** Every probe has at most one answer per address. */
  predicate OneEach(observations: seq<Observation>) {
    forall i, j | 0 <= i < j < |observations| ::
      observations[i].probe != observations[j].probe || observations[i].address != observations[j].address
  }

  lemma {:induction false} InsertedOnceEach(observations: seq<Observation>, id: ProbeId, best: seq<Answer>)
    ensures observations <= InsertObservations(observations, id, best)
    ensures OneEach(observations) ==> OneEach(InsertObservations(observations, id, best))
  {
    if best != [] { InsertedOnceEach(observations, id, best[..|best| - 1]); }
  }

  /** Storing a round never changes or repeats a row: what was stored stays, and no probe gets a second answer from
      an address. */
  lemma StoreKeepsRows(d: Data, id: ProbeId, p: Probe, best: seq<Answer>, c: Clusters)
    ensures var after := Store(d, id, p, best, c);
            && (forall q | q in d.probes :: q in after.probes && after.probes[q] == d.probes[q])
            && (forall q | q in d.divergence :: q in after.divergence && after.divergence[q] == d.divergence[q])
            && d.observations <= after.observations && (OneEach(d.observations) ==> OneEach(after.observations))
  {
    InsertedOnceEach(d.observations, id, best);
  }

  /** What the judgement reads of the round. */
  predicate Recorded(d: Data, id: ProbeId, best: seq<Answer>, c: Clusters) {
    && id in d.probes
    && Responders(d.observations, id) == Answered(best)
    && (id in d.divergence <==> Corroborated(c))
    && (Corroborated(c) ==> d.divergence[id] == Divergence(c.largestHash, c.largestSize))
  }

  lemma {:induction false} RespondersOfProbe(observations: seq<Observation>, id: ProbeId)
    ensures Responders(observations, id) == Responders(OfProbe(observations, id), id)
  {
    if observations != [] {
      var init, o := observations[..|observations| - 1], observations[|observations| - 1];
      RespondersOfProbe(init, id);
      if o.probe == id {
        assert (OfProbe(init, id) + [o])[..|OfProbe(init, id)|] == OfProbe(init, id);
      } else {
        assert OfProbe(observations, id) == OfProbe(init, id);
      }
    }
  }

  lemma {:induction false} ObservedRespond(id: ProbeId, best: seq<Answer>)
    ensures Responders(AllObserved(id, best), id) == Answered(best)
  {
    if best != [] {
      var init := best[..|best| - 1];
      ObservedRespond(id, init);
      assert AllObserved(id, best)[..|init|] == AllObserved(id, init);
    }
  }

  lemma RoundIsRecorded(d: Data, id: ProbeId, p: Probe, best: seq<Answer>, c: Clusters)
    requires RoundStored(d, id, p, best, c)
    ensures Recorded(d, id, best, c)
  {
    RespondersOfProbe(d.observations, id);
    ObservedRespond(id, best);
  }

  // ---------------------------------------------------------------------------
  // The main result.

  lemma OutvotedIsFault(d: Data, id: ProbeId, best: seq<Answer>, c: Clusters, a: Answer)
    requires Recorded(d, id, best, c) && IsClustering(best, c) && a in best
    requires Outvoted(best, a)
    ensures JudgedFault(d, Observed(id, a), false)
  {
    var h: Hash :| h != a.hash.value && StrictMajority(best, h);
    GateHidesNoFault(best, c, a, h);
    RecordedMajorityIsFault(d, Observed(id, a), h, |Holders(best, h)|);
  }

  lemma RecordedMajorityIsFault(d: Data, o: Observation, h: Hash, size: nat)
    requires o.probe in d.probes && o.probe in d.divergence && d.divergence[o.probe] == Divergence(h, size)
    requires 2 * size > Responders(d.observations, o.probe) && o.hash.Some? && o.hash.value != h
    ensures JudgedFault(d, o, false)
  {
  }

  lemma FaultIsOutvoted(d: Data, id: ProbeId, best: seq<Answer>, c: Clusters, a: Answer)
    requires Recorded(d, id, best, c) && IsClustering(best, c) && a in best
    requires JudgedFault(d, Observed(id, a), false)
    ensures Outvoted(best, a)
  {
    var h := d.divergence[id].hash;
    assert Hashes(best) != {};
    assert StrictMajority(best, h);
  }

  /** Once a round is stored, an answer of it is a fault exactly when some other hash is held by strictly
      more than half of the probe's deduplicated answers; so the verdict cannot depend on the order in
      which clusters were listed or on how a tie was broken. */
  lemma FaultIsStrictMajority(d: Data, id: ProbeId, p: Probe, all: seq<Answer>, best: seq<Answer>, c: Clusters, a: Answer)
    requires Deduplicated(all, best) && IsClustering(best, c)
    requires RoundStored(d, id, p, best, c)
    requires a in best
    ensures Observed(id, a) in d.observations
    ensures JudgedFault(d, Observed(id, a), false) <==> Outvoted(best, a)
    ensures RollupDivergent(d, Observed(id, a)) <==> Outvoted(best, a) && p.deployment !in d.nondeterministic
  {
    ObservedIsStored(d, id, best, a);
    RoundIsRecorded(d, id, p, best, c);
    ThreeJudgesAgree(d, Observed(id, a));
    if Outvoted(best, a) { OutvotedIsFault(d, id, best, c, a); }
    if JudgedFault(d, Observed(id, a), false) { FaultIsOutvoted(d, id, best, c, a); }
  }

  lemma {:induction false} OfProbeIsStored(observations: seq<Observation>, id: ProbeId, o: Observation)
    requires o in OfProbe(observations, id)
    ensures o in observations
  {
    var init, last := observations[..|observations| - 1], observations[|observations| - 1];
    if o in OfProbe(init, id) { OfProbeIsStored(init, id, o); }
  }

  lemma {:induction false} AnswerIsObserved(id: ProbeId, best: seq<Answer>, a: Answer)
    requires a in best
    ensures Observed(id, a) in AllObserved(id, best)
  {
    if a != best[|best| - 1] { AnswerIsObserved(id, best[..|best| - 1], a); }
  }

  lemma ObservedIsStored(d: Data, id: ProbeId, best: seq<Answer>, a: Answer)
    requires OfProbe(d.observations, id) == AllObserved(id, best) && a in best
    ensures Observed(id, a) in d.observations
  {
    AnswerIsObserved(id, best, a);
    OfProbeIsStored(d.observations, id, Observed(id, a));
  }

  // ---------------------------------------------------------------------------
  // The same, over everything that came back.

  /** The first response from an address. */
  function FirstResponse(all: seq<Answer>, address: Address): Option<Hash> {
    if all == [] then None
    else if all[0].address == address && all[0].hash.Some? then all[0].hash
    else FirstResponse(all[1..], address)
  }

  /** The addresses that responded, each with one voice. */
  function Voices(all: seq<Answer>): set<Address> {
    set a | a in all && a.hash.Some? :: a.address
  }

  function VoicesFor(all: seq<Answer>, h: Hash): set<Address> {
    set x | x in Voices(all) && FirstResponse(all, x) == Some(h)
  }

  lemma {:induction false} FirstResponseAt(all: seq<Answer>, address: Address, i: nat)
    requires i < |all| && all[i].address == address && all[i].hash.Some?
    requires forall j | 0 <= j < i && all[j].address == address :: all[j].hash.None?
    ensures FirstResponse(all, address) == all[i].hash
  {
    if i > 0 { FirstResponseAt(all[1..], address, i - 1); }
  }

  lemma {:induction false} NoResponse(all: seq<Answer>, address: Address)
    requires forall a <- all | a.address == address :: a.hash.None?
    ensures FirstResponse(all, address) == None && address !in Voices(all)
  {
    if all != [] {
      assert all == [all[0]] + all[1..];
      NoResponse(all[1..], address);
    }
  }

  /** What is kept of an address carries its first response, if it responded. */
  lemma KeptIsFirstResponse(all: seq<Answer>, best: seq<Answer>, b: Answer)
    requires KeepsMost(all, best) && b in best
    ensures b.hash == FirstResponse(all, b.address) && (b.hash.Some? <==> b.address in Voices(all))
  {
    var i: nat :| FirstAlike(all, b, i);
    if b.hash.Some? {
      FirstResponseAt(all, b.address, i);
      assert all[i] in all;
    } else {
      NoResponse(all, b.address);
    }
  }

  function AddressesHolding(best: seq<Answer>, h: Hash): set<Address> {
    set b | b in best && b.hash == Some(h) :: b.address
  }

  lemma {:induction false} HoldersAreAddresses(best: seq<Answer>, h: Hash)
    requires Distinct(best)
    ensures |Holders(best, h)| == |AddressesHolding(best, h)|
  {
    if best != [] {
      var init, last := best[..|best| - 1], best[|best| - 1];
      HoldersAreAddresses(init, h);
      assert forall b :: b in best <==> b in init || b == last;
      assert AddressesHolding(best, h) == AddressesHolding(init, h) + (if last.hash == Some(h) then {last.address} else {});
      assert last.address !in AddressesHolding(init, h);
    }
  }

  lemma {:induction false} AnsweredAreVoices(best: seq<Answer>)
    requires Distinct(best)
    ensures Answered(best) == |Voices(best)|
  {
    if best != [] {
      var init, last := best[..|best| - 1], best[|best| - 1];
      AnsweredAreVoices(init);
      assert forall b :: b in best <==> b in init || b == last;
      assert Voices(best) == Voices(init) + (if last.hash.Some? then {last.address} else {});
      assert last.address !in Voices(init);
    }
  }

  lemma SameVoices(all: seq<Answer>, best: seq<Answer>, h: Hash)
    requires KeepsMost(all, best)
    ensures Voices(best) == Voices(all) && AddressesHolding(best, h) == VoicesFor(all, h)
  {
    forall b | b in best
      ensures b.hash == FirstResponse(all, b.address) && (b.hash.Some? <==> b.address in Voices(all))
    {
      KeptIsFirstResponse(all, best, b);
    }
    forall x | x in Voices(all)
      ensures exists b :: b in best && b.address == x
    {
      var a :| a in all && a.hash.Some? && a.address == x;
    }
  }

  /** A hash counts once for every address whose first response carries it, however often and in whatever company it
      came back: an answer is a fault exactly when another hash has more than half of the responding addresses. */
  lemma FaultOverAll(d: Data, id: ProbeId, p: Probe, all: seq<Answer>, best: seq<Answer>, c: Clusters, a: Answer)
    requires Deduplicated(all, best) && IsClustering(best, c)
    requires RoundStored(d, id, p, best, c)
    requires a in best
    ensures JudgedFault(d, Observed(id, a), false)
       <==> a.hash.Some? && exists h: Hash :: h != a.hash.value && 2 * |VoicesFor(all, h)| > |Voices(all)|
    ensures a.hash == FirstResponse(all, a.address)
  {
    FaultIsStrictMajority(d, id, p, all, best, c, a);
    DeduplicatedKeepsMost(all, best);
    KeptIsFirstResponse(all, best, a);
    AnsweredAreVoices(best);
    forall h: Hash
      ensures StrictMajority(best, h) <==> 2 * |VoicesFor(all, h)| > |Voices(all)|
    {
      HoldersAreAddresses(best, h);
      SameVoices(all, best, h);
    }
  }

  /** What is stored of an answer is what the indexer answered. */
  lemma StoredAsAnswered(d: Data, id: ProbeId, p: Probe, best: seq<Answer>, c: Clusters, a: Answer)
    requires RoundStored(d, id, p, best, c) && a in best
    ensures exists o :: o in d.observations && o.probe == id && o.address == a.address && o.hash == a.hash
                     && o.latency == a.latency && o.metaBlock == a.metaBlock && o.status == a.status
                     && o.error == a.error && o.mode == a.mode
  {
    ObservedIsStored(d, id, best, a);
  }

  /** The stake of the answers that carry a hash. */
  function StakeBehind(inputs: seq<Answer>, h: Hash): real {
    if inputs == [] then 0.0
    else
      var a := inputs[|inputs| - 1];
      StakeBehind(inputs[..|inputs| - 1], h) + (if a.hash == Some(h) then a.stake else 0.0)
  }

  lemma {:induction false} HoldersStake(inputs: seq<Answer>, h: Hash)
    ensures Stake(Holders(inputs, h)) == StakeBehind(inputs, h)
  {
    if inputs != [] {
      var init, a := inputs[..|inputs| - 1], inputs[|inputs| - 1];
      HoldersStake(init, h);
      if a.hash == Some(h) {
        var m := Member(a.address, a.stake);
        assert (Holders(init, h) + [m])[..|Holders(init, h)|] == Holders(init, h);
      } else {
        assert Holders(inputs, h) == Holders(init, h);
      }
    }
  }

  /** The heaviest cluster is the one no other outweighs in stake. */
  lemma HeaviestMeans(inputs: seq<Answer>, c: Clusters, h: Hash)
    requires IsClustering(inputs, c) && h in Hashes(inputs)
    ensures c.heaviestHash in Hashes(inputs) && c.heaviestWeight == StakeBehind(inputs, c.heaviestHash)
    ensures StakeBehind(inputs, h) <= c.heaviestWeight
  {
    HoldersStake(inputs, h);
    HoldersStake(inputs, c.heaviestHash);
  }

  /** A cluster row is on record exactly when at least two addresses agree, and holds a hash no other outnumbers. */
  lemma ClusterRowMeans(d: Data, id: ProbeId, p: Probe, all: seq<Answer>, best: seq<Answer>, c: Clusters)
    requires Deduplicated(all, best) && IsClustering(best, c)
    requires RoundStored(d, id, p, best, c)
    ensures id in d.divergence <==> exists h: Hash :: |VoicesFor(all, h)| >= 2
    ensures id in d.divergence ==>
              && d.divergence[id].size == |VoicesFor(all, d.divergence[id].hash)|
              && forall h: Hash :: |VoicesFor(all, h)| <= d.divergence[id].size
  {
    DeduplicatedKeepsMost(all, best);
    forall h: Hash
      ensures |Holders(best, h)| == |VoicesFor(all, h)|
    {
      HoldersAreAddresses(best, h);
      SameVoices(all, best, h);
    }
    LargestMeans(best, c);
  }

  lemma LargestMeans(best: seq<Answer>, c: Clusters)
    requires IsClustering(best, c)
    ensures forall h: Hash :: |Holders(best, h)| <= c.largestSize
    ensures Corroborated(c) <==> exists h: Hash :: |Holders(best, h)| >= 2
    ensures Corroborated(c) ==> c.largestSize == |Holders(best, c.largestHash)|
  {
    forall h: Hash
      ensures |Holders(best, h)| <= c.largestSize
    {
      if h !in Hashes(best) { HeldByNone(best, h); }
    }
    if Corroborated(c) { LargestAgree(best, c, c.largestHash); }
  }

  lemma LargestAgree(best: seq<Answer>, c: Clusters, h: Hash)
    requires IsClustering(best, c) && Corroborated(c) && h == c.largestHash
    ensures c.largestSize == |Holders(best, h)| && exists g: Hash :: |Holders(best, g)| >= 2
  {
    assert Hashes(best) != {};
    assert |Holders(best, h)| >= 2;
  }

  // ---------------------------------------------------------------------------
  // Faults are always a minority.

  ghost function FaultsAmong(d: Data, id: ProbeId, best: seq<Answer>): nat
    requires id in d.probes
  {
    if best == [] then 0
    else
      var fault := JudgedFault(d, Observed(id, best[|best| - 1]), false);
      FaultsAmong(d, id, best[..|best| - 1]) + (if fault then 1 else 0)
  }

  lemma {:induction false} FaultsAvoidTheMajority(d: Data, id: ProbeId, best: seq<Answer>)
    requires id in d.probes && id in d.divergence
    ensures FaultsAmong(d, id, best) + |Holders(best, d.divergence[id].hash)| <= Answered(best)
  {
    if best != [] {
      FaultsAvoidTheMajority(d, id, best[..|best| - 1]);
    }
  }

  lemma {:induction false} NoFaults(d: Data, id: ProbeId, best: seq<Answer>)
    requires id in d.probes && !ClearMajority(d, id)
    ensures FaultsAmong(d, id, best) == 0
  {
    if best != [] {
      NoFaults(d, id, best[..|best| - 1]);
    }
  }

  /** However a round is judged, its faults are none or strictly fewer than half of its answers. */
  lemma FaultsAreAMinority(d: Data, id: ProbeId, p: Probe, all: seq<Answer>, best: seq<Answer>, c: Clusters)
    requires Deduplicated(all, best) && IsClustering(best, c)
    requires RoundStored(d, id, p, best, c)
    ensures FaultsAmong(d, id, best) == 0 || 2 * FaultsAmong(d, id, best) < Answered(best)
  {
    RoundIsRecorded(d, id, p, best, c);
    if ClearMajority(d, id) {
      FaultsAvoidTheMajority(d, id, best);
    } else {
      NoFaults(d, id, best);
    }
  }
}
