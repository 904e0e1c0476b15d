/** One probe round's answers, from raw list to stored rows: deduplication, clustering by response
    hash, and the gate on writing a cluster row. */
module Dispatch {
  import opened Prelude
  import opened Tables
  import opened Judgement

  // ---------------------------------------------------------------------------
  // Deduplication.

  /** A real response beats any error; an error that describes the indexer beats a payment refusal. */
  function Rank(a: Answer): nat {
    if a.hash.Some? then 2 else if !IsPaymentError(a.error) then 1 else 0
  }

  function Position(best: seq<Answer>, address: Address): (i: Option<nat>)
    ensures i.Some? ==> i.value < |best| && best[i.value].address == address
                        && forall j | 0 <= j < i.value :: best[j].address != address
    ensures i.None? ==> forall b <- best :: b.address != address
  {
    if best == [] then None
    else
      var i := Position(best[..|best| - 1], address);
      if i.Some? then i else if best[|best| - 1].address == address then Some(|best| - 1) else None
  }

  predicate Distinct(answers: seq<Answer>) {
    forall i, j | 0 <= i < j < |answers| :: answers[i].address != answers[j].address
  }

  /** `b` is the answer at `i`, the first of the best-ranked answers from its address. */
  predicate TopAt(all: seq<Answer>, b: Answer, i: nat) {
    && i < |all| && all[i] == b
    && (forall j | 0 <= j < i && all[j].address == b.address :: Rank(all[j]) < Rank(b))
    && (forall j | i < j < |all| && all[j].address == b.address :: Rank(all[j]) <= Rank(b))
  }

  ghost predicate Top(all: seq<Answer>, b: Answer) {
    exists i :: TopAt(all, b, i)
  }

  ghost predicate Deduplicated(all: seq<Answer>, best: seq<Answer>) {
    && Distinct(best)
    && (forall b <- best :: Top(all, b))
    && (forall a <- all :: exists b :: b in best && b.address == a.address)
  }

  /** One turn of the loop. */
  function Keep(best: seq<Answer>, o: Answer): seq<Answer> {
    var at := Position(best, o.address);
    if at.None? then best + [o] else if Rank(o) > Rank(best[at.value]) then best[at.value := o] else best
  }

  lemma TopExtends(all: seq<Answer>, b: Answer, o: Answer)
    requires Top(all, b)
    requires o.address != b.address || Rank(o) <= Rank(b)
    ensures Top(all + [o], b)
  {
    var i :| TopAt(all, b, i);
    assert TopAt(all + [o], b, i);
  }

  lemma TopReplaced(all: seq<Answer>, b: Answer, o: Answer)
    requires Top(all, b) && o.address == b.address && Rank(o) > Rank(b)
    ensures Top(all + [o], o)
  {
    var i :| TopAt(all, b, i);
    assert TopAt(all + [o], o, |all|);
  }

  lemma KeepTop(all: seq<Answer>, best: seq<Answer>, o: Answer, b: Answer)
    requires Deduplicated(all, best) && b in Keep(best, o)
    ensures Top(all + [o], b)
  {
    var at := Position(best, o.address);
    if at.None? {
      if b in best { TopExtends(all, b, o); } else { assert TopAt(all + [o], o, |all|); }
    } else {
      var i := at.value;
      assert best[i] in best;
      if Rank(o) > Rank(best[i]) {
        var j :| 0 <= j < |best| && b == best[i := o][j];
        if j == i { TopReplaced(all, best[i], o); } else { TopExtends(all, best[j], o); }
      } else {
        var j :| 0 <= j < |best| && b == best[j];
        TopExtends(all, b, o);
      }
    }
  }

  lemma KeepCovers(all: seq<Answer>, best: seq<Answer>, o: Answer, a: Answer)
    requires Deduplicated(all, best) && a in all + [o]
    ensures exists b :: b in Keep(best, o) && b.address == a.address
  {
    var at := Position(best, o.address);
    var kept := Keep(best, o);
    if a in all {
      var j :| 0 <= j < |best| && best[j].address == a.address;
      assert kept[j] in kept && kept[j].address == a.address;
    } else {
      var j := if at.Some? then at.value else |best|;
      assert kept[j] in kept && kept[j].address == a.address;
    }
  }

  lemma KeepDeduplicated(all: seq<Answer>, best: seq<Answer>, o: Answer)
    requires Deduplicated(all, best)
    ensures Deduplicated(all + [o], Keep(best, o))
  {
    forall b | b in Keep(best, o)
      ensures Top(all + [o], b)
    {
      KeepTop(all, best, o, b);
    }
    forall a | a in all + [o]
      ensures exists b :: b in Keep(best, o) && b.address == a.address
    {
      KeepCovers(all, best, o, a);
    }
  }

  // ---------------------------------------------------------------------------
  // What is kept of an address, told without ranks.

  /** The indexer never ran: no response, and the error is a refusal of our payment. */
  predicate Refusal(a: Answer) {
    a.hash.None? && a.error.Some? && |a.error.value| >= 8 && a.error.value[..8] == "payment_"
  }

  /** Both are responses, or both refusals, or both some other error. */
  predicate Alike(a: Answer, b: Answer) {
    (a.hash.Some? <==> b.hash.Some?) && (Refusal(a) <==> Refusal(b))
  }

  predicate FirstAlike(all: seq<Answer>, b: Answer, i: nat) {
    && i < |all| && all[i] == b
    && forall j | 0 <= j < i && all[j].address == b.address :: !Alike(all[j], b)
  }

  /** `b` tells the most of what `all` holds from its address: a response if there is any, a refusal only if there is
      nothing else, and the first of its like. */
  ghost predicate TellsMost(all: seq<Answer>, b: Answer) {
    && (forall a <- all | a.address == b.address :: a.hash.Some? ==> b.hash.Some?)
    && (forall a <- all | a.address == b.address :: Refusal(b) ==> Refusal(a))
    && exists i :: FirstAlike(all, b, i)
  }

  /** One answer from every address there is, and the one that tells the most. */
  ghost predicate KeepsMost(all: seq<Answer>, best: seq<Answer>) {
    && Distinct(best)
    && (forall b <- best :: TellsMost(all, b))
    && (forall a <- all :: exists b :: b in best && b.address == a.address)
  }

  lemma TopTellsMost(all: seq<Answer>, b: Answer, i: nat)
    requires TopAt(all, b, i)
    ensures TellsMost(all, b)
  {
    forall a | a in all && a.address == b.address
      ensures Rank(a) <= Rank(b)
    {
      var j :| 0 <= j < |all| && all[j] == a;
    }
    assert FirstAlike(all, b, i);
  }

  lemma DeduplicatedKeepsMost(all: seq<Answer>, best: seq<Answer>)
    requires Deduplicated(all, best)
    ensures KeepsMost(all, best)
  {
    forall b | b in best
      ensures TellsMost(all, b)
    {
      var i :| TopAt(all, b, i);
      TopTellsMost(all, b, i);
    }
  }

  /** One answer per address: the first of the best-ranked ones, which is the one that tells the most. */
  method DedupByAddress(all: seq<Answer>) returns (best: seq<Answer>)
    ensures Deduplicated(all, best) && KeepsMost(all, best)
  {
    best := [];
    for n := 0 to |all|
      invariant Deduplicated(all[..n], best)
    {
      var o := all[n];
      ghost var was := best;
      var at := Position(best, o.address);
      match at {
        case Some(i) =>
          if Rank(o) > Rank(best[i]) {
            best := best[i := o];
          }
        case None =>
          best := best + [o];
      }
      assert all[..n + 1] == all[..n] + [o] && best == Keep(was, o);
      KeepDeduplicated(all[..n], was, o);
    }
    assert all[..|all|] == all;
    DeduplicatedKeepsMost(all, best);
  }

  // ---------------------------------------------------------------------------
  // Clustering by response hash.

  datatype Member = Member(address: Address, stake: real)

  datatype Clusters = Clusters(
    count: nat,
    largestHash: string,
    largestSize: nat,
    heaviestHash: string,
    heaviestWeight: real,
    divergent: bool)

  datatype Cluster = Cluster(hash: Hash, members: seq<Member>, stake: real)

  /** The answers carrying hash `h`, in order. */
  function Holders(inputs: seq<Answer>, h: Hash): seq<Member> {
    if inputs == [] then []
    else
      var a := inputs[|inputs| - 1];
      Holders(inputs[..|inputs| - 1], h) + (if a.hash == Some(h) then [Member(a.address, a.stake)] else [])
  }

  function Stake(members: seq<Member>): real {
    if members == [] then 0.0 else Stake(members[..|members| - 1]) + members[|members| - 1].stake
  }

  function Hashes(inputs: seq<Answer>): set<Hash> {
    set a | a in inputs && a.hash.Some? :: a.hash.value
  }

  /** What clustering promises, whichever order the hash map hands the clusters over and whichever of
      several equal maxima it settles on. */
  ghost predicate IsClustering(inputs: seq<Answer>, c: Clusters) {
    var hashes := Hashes(inputs);
    && c.count == |hashes|
    && c.divergent == (|hashes| > 1)
    && (hashes == {} ==> c.largestHash == c.heaviestHash == "" && c.largestSize == 0 && c.heaviestWeight == 0.0)
    && (hashes != {} ==>
          && c.largestHash in hashes && c.largestSize == |Holders(inputs, c.largestHash)|
          && (forall h <- hashes :: |Holders(inputs, h)| <= c.largestSize)
          && c.heaviestHash in hashes && c.heaviestWeight == Stake(Holders(inputs, c.heaviestHash))
          && (forall h <- hashes :: Stake(Holders(inputs, h)) <= c.heaviestWeight))
  }

  ghost predicate GroupedBy(inputs: seq<Answer>, members: map<Hash, seq<Member>>) {
    members.Keys == Hashes(inputs)
    && forall h: Hash :: Holders(inputs, h) == if h in members then members[h] else []
  }

  lemma GroupOneMore(inputs: seq<Answer>, a: Answer, members: map<Hash, seq<Member>>)
    requires GroupedBy(inputs, members)
    ensures a.hash.None? ==> GroupedBy(inputs + [a], members)
    ensures a.hash.Some? ==>
      var h := a.hash.value;
      GroupedBy(inputs + [a], members[h := (if h in members then members[h] else []) + [Member(a.address, a.stake)]])
  {
    assert (inputs + [a])[..|inputs|] == inputs;
    assert Hashes(inputs + [a]) == Hashes(inputs) + (if a.hash.Some? then {a.hash.value} else {});
  }

  method GroupByHash(inputs: seq<Answer>) returns (members: map<Hash, seq<Member>>)
    ensures members.Keys == Hashes(inputs)
    ensures forall h <- members :: members[h] == Holders(inputs, h)
  {
    members := map[];
    for n := 0 to |inputs|
      invariant GroupedBy(inputs[..n], members)
    {
      var a := inputs[n];
      assert inputs[..n + 1] == inputs[..n] + [a];
      GroupOneMore(inputs[..n], a, members);
      if a.hash.Some? {
        var h := a.hash.value;
        members := members[h := (if h in members then members[h] else []) + [Member(a.address, a.stake)]];
      }
    }
    assert inputs[..|inputs|] == inputs;
  }

  predicate IsListing(members: map<Hash, seq<Member>>, clusters: seq<Cluster>) {
    && |clusters| == |members.Keys|
    && (forall c <- clusters :: c.hash in members && c == Cluster(c.hash, members[c.hash], Stake(members[c.hash])))
    && (forall h <- members :: exists c :: c in clusters && c.hash == h)
  }

  /** The clusters in whatever order the map yields them. */
  method ListClusters(members: map<Hash, seq<Member>>) returns (clusters: seq<Cluster>)
    ensures IsListing(members, clusters)
  {
    clusters := [];
    var rest := members.Keys;
    while rest != {}
      invariant rest <= members.Keys
      invariant |clusters| + |rest| == |members.Keys|
      invariant forall c <- clusters :: c.hash in members && c == Cluster(c.hash, members[c.hash], Stake(members[c.hash]))
      invariant forall h <- members :: h in rest || exists c :: c in clusters && c.hash == h
      decreases rest
    {
      ghost var was := clusters;
      var h :| h in rest;
      var cluster := Cluster(h, members[h], Stake(members[h]));
      clusters := clusters + [cluster];
      rest := rest - {h};
      assert cluster in clusters && forall c <- was :: c in clusters;
    }
  }

  /** `max_by_key` over member counts, and `max_by` over stake: the last of the maxima. */
  method Largest(clusters: seq<Cluster>) returns (byCount: nat, byStake: nat)
    requires clusters != []
    ensures byCount < |clusters| && byStake < |clusters|
    ensures forall c <- clusters :: |c.members| <= |clusters[byCount].members| && c.stake <= clusters[byStake].stake
  {
    byCount, byStake := 0, 0;
    for i := 0 to |clusters|
      invariant byCount < |clusters| && byStake < |clusters|
      invariant forall j | 0 <= j < i :: |clusters[j].members| <= |clusters[byCount].members|
      invariant forall j | 0 <= j < i :: clusters[j].stake <= clusters[byStake].stake
    {
      if |clusters[i].members| >= |clusters[byCount].members| {
        byCount := i;
      }
      if clusters[i].stake >= clusters[byStake].stake {
        byStake := i;
      }
    }
  }

  lemma MaximaAreClustering(inputs: seq<Answer>, members: map<Hash, seq<Member>>, clusters: seq<Cluster>,
                            largest: Cluster, heaviest: Cluster)
    requires members.Keys == Hashes(inputs) && forall h <- members :: members[h] == Holders(inputs, h)
    requires IsListing(members, clusters)
    requires largest in clusters && heaviest in clusters
    requires forall c <- clusters :: |c.members| <= |largest.members| && c.stake <= heaviest.stake
    ensures IsClustering(inputs, Clusters(|clusters|, largest.hash, |largest.members|, heaviest.hash, heaviest.stake,
                                          |clusters| > 1))
  {
  }

  method ComputeClusters(inputs: seq<Answer>) returns (c: Clusters)
    ensures IsClustering(inputs, c)
  {
    var members := GroupByHash(inputs);
    if members == map[] {
      assert Hashes(inputs) == members.Keys == {};
      return Clusters(0, "", 0, "", 0.0, false);
    }
    var clusters := ListClusters(members);
    assert members.Keys != {};
    var byCount, byStake := Largest(clusters);
    var largest, heaviest := clusters[byCount], clusters[byStake];
    c := Clusters(|clusters|, largest.hash, |largest.members|, heaviest.hash, heaviest.stake, |clusters| > 1);
    MaximaAreClustering(inputs, members, clusters, largest, heaviest);
  }

  // ---------------------------------------------------------------------------
  // Storing a round.

  /** A cluster row is written only when at least two answers agree. */
  predicate Corroborated(c: Clusters) {
    c.largestSize >= 2 && c.largestHash != ""
  }

  predicate Stored(observations: seq<Observation>, probe: ProbeId, address: Address) {
    exists o <- observations :: o.probe == probe && o.address == address
  }

  /** `ON CONFLICT (probe_id, indexer_address) DO NOTHING` */
  function InsertObservation(observations: seq<Observation>, o: Observation): seq<Observation> {
    if Stored(observations, o.probe, o.address) then observations else observations + [o]
  }

  function InsertObservations(observations: seq<Observation>, probe: ProbeId, best: seq<Answer>): seq<Observation> {
    if best == [] then observations
    else InsertObservation(InsertObservations(observations, probe, best[..|best| - 1]), Observed(probe, best[|best| - 1]))
  }

  function InsertProbe(d: Data, id: ProbeId, p: Probe): Data {
    if id in d.probes then d else d.(probes := d.probes[id := p])
  }

  function InsertDivergence(d: Data, id: ProbeId, row: Divergence): Data {
    if id in d.divergence then d else d.(divergence := d.divergence[id := row])
  }

  /** The tables after one round's results are stored. */
  function Store(d: Data, id: ProbeId, p: Probe, best: seq<Answer>, c: Clusters): Data {
    var withProbe := InsertProbe(d, id, p);
    var withAnswers := withProbe.(observations := InsertObservations(d.observations, id, best));
    if Corroborated(c) then InsertDivergence(withAnswers, id, Divergence(c.largestHash, c.largestSize))
    else withAnswers
  }
}
