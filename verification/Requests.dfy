/** The re-roll queue, and what each late change to the measurement tables can invalidate. */
module Requests {
  import opened Prelude
  import opened Tables
  import opened Judgement
  import opened Rollup

  /** A request to recompute the buckets of one deployment (or all) between two dispatch times. */
  datatype Request = Request(deployment: Option<DeploymentId>, from: int, to: int)

  type Queue = map<nat, Request>

  predicate Covers(cfg: Config, r: Request, k: Key)
    requires cfg.Valid()
  {
    Targeted(cfg, WindowRange(cfg, r.from, Some(r.to)), r.deployment, k)
  }

  ghost predicate Covered(cfg: Config, queue: Queue, k: Key)
    requires cfg.Valid()
  {
    exists id :: id in queue && Covers(cfg, queue[id], k)
  }

  /** `after` is `before` with one new row for each of `added`, under the next serial ids. */
  ghost predicate Appended(before: Queue, next: nat, after: Queue, next': nat, added: set<Request>) {
    && next' == next + |added|
    && (forall id | id in before :: id < next && id in after && after[id] == before[id])
    && (forall id | id in after && id !in before :: next <= id < next' && after[id] in added)
    && (forall r | r in added :: exists id :: id in after && id !in before && after[id] == r)
  }

  function RequestOver(deployment: DeploymentId, times: set<int>): Request
    requires times != {}
  {
    Request(Some(deployment), Least(times), Last(times))
  }

  /** A request over dispatch times covers the bucket of every one of them. */
  lemma RequestCoversTimes(cfg: Config, deployment: DeploymentId, times: set<int>, t: int, k: Key)
    requires cfg.Valid() && t in times
    requires k.deployment == deployment && k.start == Bucket(t, cfg.width) && k.width == cfg.width
    ensures Covers(cfg, RequestOver(deployment, times), k)
  {
    WindowHoldsWholeBuckets(cfg, Least(times), Some(Last(times)), t);
  }

  /** And no bucket before the first of them or after the last, and of no other deployment. */
  lemma RequestIsTight(cfg: Config, deployment: DeploymentId, times: set<int>, k: Key)
    requires cfg.Valid() && times != {} && Covers(cfg, RequestOver(deployment, times), k)
    ensures k.deployment == deployment && k.width == cfg.width
    ensures exists t, u :: t in times && u in times && Bucket(t, cfg.width) <= k.start < Bucket(u, cfg.width) + cfg.width
  {
    var t, u := Least(times), Last(times);
    NextMultiple(u / cfg.width, cfg.width);
    assert t in times && u in times && Bucket(t, cfg.width) <= k.start < Bucket(u, cfg.width) + cfg.width;
  }

  lemma NextMultiple(q: int, width: int)
    ensures (q + 1) * width == q * width + width
  {
  }

  // ---------------------------------------------------------------------------
  // The two statements that enqueue.

  function KeyDeployments(d: Data, key: Address): set<DeploymentId>
    requires Valid(d)
  {
    set o | o in d.observations && o.address == key :: d.probes[o.probe].deployment
  }

  function KeyTimes(d: Data, key: Address, deployment: DeploymentId): set<int>
    requires Valid(d)
  {
    set o | o in d.observations && o.address == key && d.probes[o.probe].deployment == deployment
      :: d.probes[o.probe].dispatchedAt
  }

  /** What `record_attribution` enqueues: one request per deployment the key has answered for, over
      the key's own dispatch times, when the owner is distinct from the one on record. */
  function AttributionRequests(d: Data, key: Address, indexer: Address): set<Request>
    requires Valid(d)
  {
    if Mapped(d, key) == Some(indexer) then {}
    else set dep | dep in KeyDeployments(d, key) && KeyTimes(d, key, dep) != {} :: RequestOver(dep, KeyTimes(d, key, dep))
  }

  function DeploymentTimes(d: Data, deployment: DeploymentId): set<int> {
    set p | p in d.probes && d.probes[p].deployment == deployment :: d.probes[p].dispatchedAt
  }

  /** What `request_deployment_reroll` enqueues: every dispatch time of the deployment, if it has any. */
  function DeploymentRequests(d: Data, deployment: DeploymentId): set<Request> {
    var times := DeploymentTimes(d, deployment);
    if times == {} then {} else {RequestOver(deployment, times)}
  }

  // ---------------------------------------------------------------------------
  // What a change can invalidate.

  /** The buckets an observation of probe `p` can count in. */
  predicate InPlace(cfg: Config, d: Data, p: ProbeId, k: Key)
    requires cfg.Valid() && p in d.probes
  {
    && d.probes[p].deployment == k.deployment
    && Bucket(d.probes[p].dispatchedAt, cfg.width) == k.start
    && k.width == cfg.width
  }

  lemma {:induction false} SameContributions(cfg: Config, d: Data, d': Data, rows: seq<Observation>, k: Key)
    requires cfg.Valid() && forall o <- rows :: o.probe in d.probes && o.probe in d'.probes
    requires forall o <- rows :: Contribution(cfg, d, o, k) == Contribution(cfg, d', o, k)
    ensures KeyFacts(cfg, d, rows, k) == KeyFacts(cfg, d', rows, k)
  {
    if rows != [] {
      assert forall o <- rows[..|rows| - 1] :: o in rows;
      assert rows[|rows| - 1] in rows;
      SameContributions(cfg, d, d', rows[..|rows| - 1], k);
    }
  }

  lemma ContributionIsInPlace(cfg: Config, d: Data, o: Observation, k: Key)
    requires cfg.Valid() && o.probe in d.probes
    ensures Contribution(cfg, d, o, k) != [] ==> InPlace(cfg, d, o.probe, k)
  {
  }

  /** If two states give bucket `k` different rows, some stored answer contributes differently. */
  lemma SomeContributionDiffers(cfg: Config, d: Data, d': Data, k: Key) returns (o: Observation)
    requires cfg.Valid() && Valid(d) && Valid(d') && d'.observations == d.observations && d'.probes == d.probes
    requires Fresh(cfg, d', k) != Fresh(cfg, d, k)
    ensures o in d.observations && Contribution(cfg, d, o, k) != Contribution(cfg, d', o, k)
    ensures InPlace(cfg, d, o.probe, k)
  {
    if forall o <- d.observations :: Contribution(cfg, d, o, k) == Contribution(cfg, d', o, k) {
      SameContributions(cfg, d, d', d.observations, k);
    }
    o :| o in d.observations && Contribution(cfg, d, o, k) != Contribution(cfg, d', o, k);
    ContributionIsInPlace(cfg, d, o, k);
    ContributionIsInPlace(cfg, d', o, k);
  }

  lemma FactOfAnotherKey(cfg: Config, d: Data, key: Address, owner: Option<Address>, o: Observation)
    requires cfg.Valid() && o.probe in d.probes
    requires o.address != key || Mapped(d, key) == owner
    ensures FactOf(cfg, d.(attribution := d.attribution[key := owner]), o) == FactOf(cfg, d, o)
  {
  }

  lemma FactUnderSameFlag(cfg: Config, d: Data, flags: set<DeploymentId>, o: Observation)
    requires cfg.Valid() && o.probe in d.probes
    requires d.probes[o.probe].deployment in flags <==> Flagged(d, o)
    ensures FactOf(cfg, d.(nondeterministic := flags), o) == FactOf(cfg, d, o)
  {
  }

  /** Attributing a key changes only buckets its own answers fall in, and each of those is covered by
      a request the same statement enqueues. */
  lemma AttributionIsCovered(cfg: Config, d: Data, key: Address, indexer: Address, k: Key)
    requires cfg.Valid() && Valid(d)
    requires Fresh(cfg, d.(attribution := d.attribution[key := Some(indexer)]), k) != Fresh(cfg, d, k)
    ensures exists r :: r in AttributionRequests(d, key, indexer) && Covers(cfg, r, k)
  {
    var o := SomeContributionDiffers(cfg, d, d.(attribution := d.attribution[key := Some(indexer)]), k);
    if o.address != key || Mapped(d, key) == Some(indexer) {
      FactOfAnotherKey(cfg, d, key, Some(indexer), o);
    }
    var times, t := KeyTimes(d, key, k.deployment), d.probes[o.probe].dispatchedAt;
    assert t in times && k.deployment in KeyDeployments(d, key);
    RequestCoversTimes(cfg, k.deployment, times, t, k);
    assert RequestOver(k.deployment, times) in AttributionRequests(d, key, indexer);
  }

  /** Nothing is asked for unless the owner is news, and then only on deployments the key has answered for. */
  lemma AttributionAsksForNews(d: Data, key: Address, indexer: Address, r: Request)
    requires Valid(d) && r in AttributionRequests(d, key, indexer)
    ensures !(key in d.attribution && d.attribution[key] == Some(indexer))
    ensures exists o :: o in d.observations && o.address == key && r.deployment == Some(d.probes[o.probe].deployment)
                     && r.from <= d.probes[o.probe].dispatchedAt <= r.to
  {
    var dep :| dep in KeyDeployments(d, key) && KeyTimes(d, key, dep) != {} && r == RequestOver(dep, KeyTimes(d, key, dep));
    var t := Least(KeyTimes(d, key, dep));
    var o :| o in d.observations && o.address == key && d.probes[o.probe].deployment == dep && d.probes[o.probe].dispatchedAt == t;
  }

  /** Recording that a key resolves to nobody changes no bucket: it never unmaps a mapped key. */
  lemma UnresolvedChangesNothing(cfg: Config, d: Data, key: Address, k: Key)
    requires cfg.Valid() && Valid(d) && key !in d.attribution
    ensures Fresh(cfg, d.(attribution := d.attribution[key := None]), k) == Fresh(cfg, d, k)
  {
    var d' := d.(attribution := d.attribution[key := None]);
    if Fresh(cfg, d', k) != Fresh(cfg, d, k) {
      var o := SomeContributionDiffers(cfg, d, d', k);
      FactOfAnotherKey(cfg, d, key, None, o);
    }
  }

  /** Changing flags changes only buckets of deployments whose flag changed, and only where there are
      probes: a request for the deployment covers them all. */
  lemma FlagChangeIsCovered(cfg: Config, d: Data, flags: set<DeploymentId>, k: Key)
    requires cfg.Valid() && Valid(d)
    requires Fresh(cfg, d.(nondeterministic := flags), k) != Fresh(cfg, d, k)
    ensures (k.deployment in flags) != (k.deployment in d.nondeterministic)
    ensures exists p :: p in d.probes && InPlace(cfg, d, p, k)
  {
    var o := SomeContributionDiffers(cfg, d, d.(nondeterministic := flags), k);
    if k.deployment in flags <==> k.deployment in d.nondeterministic {
      FactUnderSameFlag(cfg, d, flags, o);
    }
    assert o.probe in d.probes;
  }

  lemma DeploymentRequestCovers(cfg: Config, d: Data, p: ProbeId, k: Key)
    requires cfg.Valid() && p in d.probes && InPlace(cfg, d, p, k)
    ensures exists r :: r in DeploymentRequests(d, k.deployment) && Covers(cfg, r, k)
  {
    var times, t := DeploymentTimes(d, k.deployment), d.probes[p].dispatchedAt;
    assert t in times;
    RequestCoversTimes(cfg, k.deployment, times, t, k);
    assert RequestOver(k.deployment, times) in DeploymentRequests(d, k.deployment);
  }

  /** Storing a probe changes no bucket; an answer or a cluster row, only the probe's own. */
  lemma NewProbeChangesNothing(cfg: Config, d: Data, id: ProbeId, p: Probe, k: Key)
    requires cfg.Valid() && Valid(d) && id !in d.probes
    ensures Fresh(cfg, d.(probes := d.probes[id := p]), k) == Fresh(cfg, d, k)
  {
    var d' := d.(probes := d.probes[id := p]);
    forall o | o in d.observations
      ensures Contribution(cfg, d, o, k) == Contribution(cfg, d', o, k)
    {
      assert d'.probes[o.probe] == d.probes[o.probe];
    }
    SameContributions(cfg, d, d', d.observations, k);
  }

  lemma RespondersSnoc(rows: seq<Observation>, o: Observation, p: ProbeId)
    requires o.probe != p
    ensures Responders(rows + [o], p) == Responders(rows, p)
  {
  }

  lemma KeyFactsSnoc(cfg: Config, d: Data, rows: seq<Observation>, o: Observation, k: Key)
    requires cfg.Valid() && o.probe in d.probes && forall q <- rows :: q.probe in d.probes
    ensures KeyFacts(cfg, d, rows + [o], k) == KeyFacts(cfg, d, rows, k) + Contribution(cfg, d, o, k)
  {
  }

  lemma NewAnswerStaysInPlace(cfg: Config, d: Data, o: Observation, k: Key)
    requires cfg.Valid() && Valid(d) && o.probe in d.probes && !InPlace(cfg, d, o.probe, k)
    ensures Fresh(cfg, d.(observations := d.observations + [o]), k) == Fresh(cfg, d, k)
  {
    var d' := d.(observations := d.observations + [o]);
    forall q | q in d.observations
      ensures Contribution(cfg, d, q, k) == Contribution(cfg, d', q, k)
    {
      ContributionIsInPlace(cfg, d, q, k);
      ContributionIsInPlace(cfg, d', q, k);
      if q.probe != o.probe {
        RespondersSnoc(d.observations, o, q.probe);
        assert FactOf(cfg, d', q) == FactOf(cfg, d, q);
      }
    }
    SameContributions(cfg, d, d', d.observations, k);
    ContributionIsInPlace(cfg, d', o, k);
    KeyFactsSnoc(cfg, d', d.observations, o, k);
    assert KeyFacts(cfg, d', d'.observations, k) == KeyFacts(cfg, d, d.observations, k);
  }

  lemma NewClusterStaysInPlace(cfg: Config, d: Data, id: ProbeId, row: Divergence, k: Key)
    requires cfg.Valid() && Valid(d) && id in d.probes && id !in d.divergence && !InPlace(cfg, d, id, k)
    ensures Fresh(cfg, d.(divergence := d.divergence[id := row]), k) == Fresh(cfg, d, k)
  {
    var d' := d.(divergence := d.divergence[id := row]);
    forall q | q in d.observations
      ensures Contribution(cfg, d, q, k) == Contribution(cfg, d', q, k)
    {
      ContributionIsInPlace(cfg, d, q, k);
      ContributionIsInPlace(cfg, d', q, k);
    }
    SameContributions(cfg, d, d', d.observations, k);
  }

  // ---------------------------------------------------------------------------
  // Exactly what a flag change invalidates.

  /** An answer that is compared with a clear majority as long as its deployment is not flagged. */
  predicate Judgeable(d: Data, o: Observation) {
    Admitted(d, o) && o.hash.Some? && ClearMajority(d, o.probe)
  }

  function KeyOfAnswer(cfg: Config, d: Data, o: Observation): Key
    requires cfg.Valid() && o.probe in d.probes && Admitted(d, o)
  {
    var p := d.probes[o.probe];
    Key(Identity(d, o).value, p.deployment, Bucket(p.dispatchedAt, cfg.width), cfg.width)
  }

  /** Bucket `k` holds such an answer. */
  ghost predicate HoldsJudgeable(cfg: Config, d: Data, k: Key)
    requires cfg.Valid() && Valid(d)
  {
    exists o :: o in d.observations && Judgeable(d, o) && KeyOfAnswer(cfg, d, o) == k
  }

  lemma FlaggedComparesNothing(cfg: Config, d: Data, k: Key)
    requires cfg.Valid() && Valid(d) && k.deployment in d.nondeterministic
    ensures Count(KeyFacts(cfg, d, d.observations, k), IsComparable) == 0
  {
    forall f | f in KeyFacts(cfg, d, d.observations, k)
      ensures !f.comparable
    {
      KeyFactsAreOfAnswers(cfg, d, d.observations, k, f);
    }
    CountNone(KeyFacts(cfg, d, d.observations, k), IsComparable);
  }

  /** A bucket with a judgeable answer has a row, and compares none of them exactly while it is flagged. */
  lemma JudgeableRow(cfg: Config, d: Data, k: Key, o: Observation)
    requires cfg.Valid() && Valid(d) && o in d.observations && Judgeable(d, o) && KeyOfAnswer(cfg, d, o) == k
    ensures Fresh(cfg, d, k).Some? && (Fresh(cfg, d, k).value.comparable == 0 <==> k.deployment in d.nondeterministic)
  {
    FactIsAmongItsKeys(cfg, d, d.observations, o);
    if k.deployment in d.nondeterministic {
      FlaggedComparesNothing(cfg, d, k);
    } else {
      CountPositive(KeyFacts(cfg, d, d.observations, k), IsComparable, FactOf(cfg, d, o).value);
    }
  }

  lemma FlagsDoNotJudge(d: Data, flags: set<DeploymentId>, o: Observation)
    ensures Judgeable(d.(nondeterministic := flags), o) == Judgeable(d, o)
  {
  }

  lemma UnjudgeableIgnoresFlags(cfg: Config, d: Data, flags: set<DeploymentId>, o: Observation, k: Key)
    requires cfg.Valid() && o.probe in d.probes
    requires Contribution(cfg, d, o, k) != Contribution(cfg, d.(nondeterministic := flags), o, k)
    ensures Judgeable(d, o) && KeyOfAnswer(cfg, d, o) == k
  {
  }

  lemma AlteredHoldsJudgeable(cfg: Config, d: Data, flags: set<DeploymentId>, k: Key)
    requires cfg.Valid() && Valid(d)
    requires Fresh(cfg, d.(nondeterministic := flags), k) != Fresh(cfg, d, k)
    ensures (k.deployment in flags) != (k.deployment in d.nondeterministic) && HoldsJudgeable(cfg, d, k)
  {
    FlagChangeIsCovered(cfg, d, flags, k);
    var o := SomeContributionDiffers(cfg, d, d.(nondeterministic := flags), k);
    UnjudgeableIgnoresFlags(cfg, d, flags, o, k);
  }

  lemma JudgeableIsAltered(cfg: Config, d: Data, flags: set<DeploymentId>, k: Key)
    requires cfg.Valid() && Valid(d) && HoldsJudgeable(cfg, d, k)
    requires (k.deployment in flags) != (k.deployment in d.nondeterministic)
    ensures Fresh(cfg, d.(nondeterministic := flags), k) != Fresh(cfg, d, k)
  {
    var o :| o in d.observations && Judgeable(d, o) && KeyOfAnswer(cfg, d, o) == k;
    FlagsDoNotJudge(d, flags, o);
    JudgeableRow(cfg, d, k, o);
    JudgeableRow(cfg, d.(nondeterministic := flags), k, o);
  }

  /** Changing flags changes bucket `k` if and only if its deployment's flag changed and it holds a judgeable
      answer. */
  lemma FlagChangeAltersIff(cfg: Config, d: Data, flags: set<DeploymentId>, k: Key)
    requires cfg.Valid() && Valid(d)
    ensures Fresh(cfg, d.(nondeterministic := flags), k) != Fresh(cfg, d, k)
       <==> (k.deployment in flags) != (k.deployment in d.nondeterministic) && HoldsJudgeable(cfg, d, k)
  {
    if Fresh(cfg, d.(nondeterministic := flags), k) != Fresh(cfg, d, k) {
      AlteredHoldsJudgeable(cfg, d, flags, k);
    } else if HoldsJudgeable(cfg, d, k) && (k.deployment in flags) != (k.deployment in d.nondeterministic) {
      JudgeableIsAltered(cfg, d, flags, k);
    }
  }
}
