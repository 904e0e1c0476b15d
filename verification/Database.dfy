/** The database the loops share, and the loops themselves as they update it in place. Each method is
    proved against the functions of the other modules; the interleaving of their statements is the
    subject of RollupProtocol. */
module Database {
  import opened Prelude
  import opened Tables
  import opened Rollup
  import opened Requests
  import Dispatch
  import Detector

  const DAY: int := 86400

  lemma AppendedTrans(a: Queue, n: nat, b: Queue, m: nat, x: set<Request>, c: Queue, p: nat, y: set<Request>)
    requires Appended(a, n, b, m, x) && Appended(b, m, c, p, y) && x !! y
    requires forall id | id in b :: id < m
    ensures Appended(a, n, c, p, x + y)
  {
  }

  function DeploymentsRequests(d: Data, deployments: set<DeploymentId>): set<Request> {
    set dep | dep in deployments && DeploymentTimes(d, dep) != {} :: RequestOver(dep, DeploymentTimes(d, dep))
  }

  function Changed(before: set<DeploymentId>, after: set<DeploymentId>): set<DeploymentId> {
    (before - after) + (after - before)
  }

  /** Every bucket the detector's flags change is covered by a request it enqueues for them. */
  lemma FlagsAreRequested(cfg: Config, d: Data, flags: set<DeploymentId>, k: Key)
    requires cfg.Valid() && Tables.Valid(d)
    requires Fresh(cfg, d.(nondeterministic := flags), k) != Fresh(cfg, d, k)
    ensures exists r :: r in DeploymentsRequests(d, Changed(d.nondeterministic, flags)) && Covers(cfg, r, k)
  {
    FlagChangeIsCovered(cfg, d, flags, k);
    var p :| p in d.probes && InPlace(cfg, d, p, k);
    DeploymentRequestCovers(cfg, d, p, k);
    var r :| r in DeploymentRequests(d, k.deployment) && Covers(cfg, r, k);
    assert k.deployment in Changed(d.nondeterministic, flags);
    assert r in DeploymentsRequests(d, Changed(d.nondeterministic, flags));
  }

  /** And it enqueues for no deployment whose flag stays as it was. */
  lemma OnlyChangesAreRequested(d: Data, before: set<DeploymentId>, after: set<DeploymentId>, r: Request)
    requires r in DeploymentsRequests(d, Changed(before, after))
    ensures r.deployment.Some? && (r.deployment.value in before) != (r.deployment.value in after)
  {
  }

  lemma RequestsOfOneMore(d: Data, deployments: set<DeploymentId>, dep: DeploymentId)
    requires dep !in deployments
    ensures DeploymentsRequests(d, deployments + {dep}) == DeploymentsRequests(d, deployments) + DeploymentRequests(d, dep)
    ensures DeploymentsRequests(d, deployments) !! DeploymentRequests(d, dep)
  {
  }

  lemma EnqueuedOneMore(d: Data, changed: set<DeploymentId>, rest: set<DeploymentId>, dep: DeploymentId,
                        a: Queue, n: nat, b: Queue, m: nat, c: Queue, p: nat)
    requires dep in rest && rest <= changed && forall id | id in b :: id < m
    requires Appended(a, n, b, m, DeploymentsRequests(d, changed - rest))
    requires Appended(b, m, c, p, DeploymentRequests(d, dep))
    ensures Appended(a, n, c, p, DeploymentsRequests(d, changed - (rest - {dep})))
  {
    RequestsOfOneMore(d, changed - rest, dep);
    assert changed - (rest - {dep}) == changed - rest + {dep};
    AppendedTrans(a, n, b, m, DeploymentsRequests(d, changed - rest), c, p, DeploymentRequests(d, dep));
  }

  lemma RollRangeEverywhere(cfg: Config, d: Data, qos: Table, from: int, to: Option<int>, deployment: Option<DeploymentId>)
    requires cfg.Valid() && Tables.Valid(d)
    ensures forall k: Key :: Lookup(Rollup.RollRange(cfg, d, qos, from, to, deployment), k)
                == if Targeted(cfg, WindowRange(cfg, from, to), deployment, k) then Fresh(cfg, d, k) else Lookup(qos, k)
  {
    forall k: Key
      ensures Lookup(Rollup.RollRange(cfg, d, qos, from, to, deployment), k)
           == if Targeted(cfg, WindowRange(cfg, from, to), deployment, k) then Fresh(cfg, d, k) else Lookup(qos, k)
    {
      RollRangeIsFresh(cfg, d, qos, from, to, deployment, k);
    }
  }

  /** One rollup from the first probe's day to the end of today. */
  function Rerolled(cfg: Config, d: Data, qos: Table, now: int): Table
    requires cfg.Valid() && Tables.Valid(d)
  {
    var first := FirstDispatch(d.probes);
    if first.None? || RerollFrom(first.value) > now then qos
    else Rollup.RollRange(cfg, d, qos, RerollFrom(first.value), Some(RerollTo(now)), None)
  }

  predicate WholeDay(t: int) { t % DAY == 0 }

  lemma FirstDay(t: int)
    ensures WholeDay(RerollFrom(t))
  {
  }

  lemma NextDay(t: int)
    requires WholeDay(t)
    ensures WholeDay(t + DAY)
  {
  }

  lemma LastDay(from: int, now: int)
    requires WholeDay(from) && from - DAY <= now < from
    ensures from - 1 == RerollTo(now)
  {
  }

  /** Days before `from` are done: the table is what one roll of them all makes of it. */
  ghost predicate DaysRolled(cfg: Config, d: Data, before: Table, start: int, from: int, qos: Table)
    requires cfg.Valid() && Tables.Valid(d)
  {
    qos == if from == start then before else Rollup.RollRange(cfg, d, before, start, Some(from - 1), None)
  }

  lemma OneMoreDay(cfg: Config, d: Data, before: Table, start: int, from: int, qos: Table)
    requires cfg.Valid() && Tables.Valid(d) && start <= from && DaysRolled(cfg, d, before, start, from, qos)
    ensures DaysRolled(cfg, d, before, start, from + DAY, Rollup.RollRange(cfg, d, qos, from, Some(from + DAY - 1), None))
  {
    if from != start {
      RollRangesJoin(cfg, d, before, start, from - 1, from + DAY - 1);
    }
  }

  /** `SELECT min(dispatched_at) FROM probe` */
  function DispatchTimes(probes: map<ProbeId, Probe>): set<int> {
    set p | p in probes :: probes[p].dispatchedAt
  }

  function FirstDispatch(probes: map<ProbeId, Probe>): Option<int> {
    var times := DispatchTimes(probes);
    if times == {} then None else Some(Least(times))
  }

  /** The day-aligned range a full re-roll covers, when there is anything to roll. */
  function RerollFrom(first: int): int {
    first / 86400 * 86400
  }

  function RerollTo(now: int): int {
    now / 86400 * 86400 + 86399
  }

  class Store {
    var probes: map<ProbeId, Probe>
    var observations: seq<Observation>
    var attribution: map<Address, Option<Address>>
    var divergence: map<ProbeId, Divergence>
    var nondeterministic: set<DeploymentId>
    var qos: Table
    var requests: Queue
    var nextRequest: nat

    function Snapshot(): Data
      reads this`probes, this`observations, this`attribution, this`divergence, this`nondeterministic
    {
      Data(probes, observations, attribution, divergence, nondeterministic)
    }

    ghost predicate Valid()
      reads this
    {
      Tables.Valid(Snapshot()) && Serial()
    }

    /** Ids are serial: every queued one is below the next. */
    ghost predicate Serial()
      reads this`requests, this`nextRequest
    {
      forall id | id in requests :: id < nextRequest
    }

    constructor ()
      ensures Valid() && Snapshot() == Data(map[], [], map[], map[], {}) && qos == map[] && requests == map[]
    {
      probes, observations, attribution, divergence, nondeterministic := map[], [], map[], map[], {};
      qos, requests, nextRequest := map[], map[], 0;
    }

    // -------------------------------------------------------------------------
    // scheduler.rs

    method StoreResults(id: ProbeId, p: Probe, best: seq<Answer>, clusters: Dispatch.Clusters)
      requires Valid()
      modifies this`probes, this`observations, this`divergence
      ensures Valid() && Snapshot() == Dispatch.Store(old(Snapshot()), id, p, best, clusters)
    {
      if id !in probes {
        probes := probes[id := p];
      }
      for n := 0 to |best|
        invariant Tables.Valid(Snapshot()) && divergence == old(divergence)
        invariant probes == Dispatch.InsertProbe(old(Snapshot()), id, p).probes
        invariant observations == Dispatch.InsertObservations(old(observations), id, best[..n])
      {
        assert best[..n + 1][..n] == best[..n];
        var o := Observed(id, best[n]);
        if !Dispatch.Stored(observations, o.probe, o.address) {
          observations := observations + [o];
        }
      }
      assert best[..|best|] == best;
      if Dispatch.Corroborated(clusters) && id !in divergence {
        divergence := divergence[id := Divergence(clusters.largestHash, clusters.largestSize)];
      }
    }

    // -------------------------------------------------------------------------
    // resolver.rs

    method Insert(r: Request)
      requires Serial()
      modifies this`requests, this`nextRequest
      ensures Serial() && Appended(old(requests), old(nextRequest), requests, nextRequest, {r})
    {
      requests := requests[nextRequest := r];
      assert nextRequest in requests && requests[nextRequest] == r;
      nextRequest := nextRequest + 1;
    }

    /** Record who a key belongs to and, when that is news, ask for its buckets again. */
    method RecordAttribution(key: Address, indexer: Address)
      requires Valid()
      modifies this`attribution, this`requests, this`nextRequest
      ensures Valid()
      ensures Snapshot() == old(Snapshot()).(attribution := old(attribution)[key := Some(indexer)])
      ensures Appended(old(requests), old(nextRequest), requests, nextRequest,
                       AttributionRequests(old(Snapshot()), key, indexer))
    {
      var wanted := AttributionRequests(Snapshot(), key, indexer);
      attribution := attribution[key := Some(indexer)];
      InsertAll(wanted);
    }

    method InsertAll(wanted: set<Request>)
      requires Serial()
      modifies this`requests, this`nextRequest
      ensures Serial() && Appended(old(requests), old(nextRequest), requests, nextRequest, wanted)
    {
      var rest := wanted;
      while rest != {}
        invariant Serial() && rest <= wanted
        invariant Appended(old(requests), old(nextRequest), requests, nextRequest, wanted - rest)
        decreases rest
      {
        var r :| r in rest;
        ghost var mid, next := requests, nextRequest;
        Insert(r);
        AppendedTrans(old(requests), old(nextRequest), mid, next, wanted - rest, requests, nextRequest, {r});
        assert wanted - rest + {r} == wanted - (rest - {r});
        rest := rest - {r};
      }
      assert wanted - rest == wanted;
    }

    /** Remember that a key resolved to nobody; a key that has an owner keeps it. */
    method RecordUnresolved(key: Address)
      requires Valid()
      modifies this`attribution
      ensures Valid()
      ensures attribution == if key in old(attribution) then old(attribution) else old(attribution)[key := None]
    {
      if key !in attribution {
        attribution := attribution[key := None];
      }
    }

    // -------------------------------------------------------------------------
    // scorer.rs

    method RequestDeploymentReroll(deployment: DeploymentId)
      requires Serial()
      modifies this`requests, this`nextRequest
      ensures Serial()
      ensures Appended(old(requests), old(nextRequest), requests, nextRequest, DeploymentRequests(Snapshot(), deployment))
    {
      var times := DeploymentTimes(Snapshot(), deployment);
      if times != {} {
        Insert(RequestOver(deployment, times));
      }
    }

    /** Flag exactly the rotating deployments, and ask again for every bucket of each whose flag changed. */
    method DetectNondeterministic(since: int)
      requires Valid()
      modifies this`nondeterministic, this`requests, this`nextRequest
      ensures Valid()
      ensures nondeterministic == Detector.Rotating(old(Snapshot()), since)
      ensures Appended(old(requests), old(nextRequest), requests, nextRequest,
                       DeploymentsRequests(Snapshot(), Changed(old(nondeterministic), nondeterministic)))
    {
      var found, before := Detector.Rotating(Snapshot(), since), nondeterministic;
      WriteFlags(found);
      EnqueueAll(Changed(before, found));
    }

    method WriteFlags(found: set<DeploymentId>)
      modifies this`nondeterministic
      ensures nondeterministic == found
    {
      var rows := found;
      while rows != {}
        invariant rows <= found && nondeterministic == old(nondeterministic) + (found - rows)
        decreases rows
      {
        var dep :| dep in rows;
        nondeterministic := nondeterministic + {dep};
        rows := rows - {dep};
      }
      nondeterministic := nondeterministic * found;
    }

    method EnqueueAll(changed: set<DeploymentId>)
      requires Serial()
      modifies this`requests, this`nextRequest
      ensures Serial()
      ensures Appended(old(requests), old(nextRequest), requests, nextRequest, DeploymentsRequests(Snapshot(), changed))
    {
      var rest := changed;
      while rest != {}
        invariant Serial() && rest <= changed
        invariant Appended(old(requests), old(nextRequest), requests, nextRequest,
                           DeploymentsRequests(Snapshot(), changed - rest))
        decreases rest
      {
        var dep :| dep in rest;
        ghost var mid, next := requests, nextRequest;
        RequestDeploymentReroll(dep);
        EnqueuedOneMore(Snapshot(), changed, rest, dep, old(requests), old(nextRequest), mid, next, requests, nextRequest);
        rest := rest - {dep};
      }
      assert changed - rest == changed;
    }

    // -------------------------------------------------------------------------
    // qos.rs

    /** One statement: rows in range that the aggregation would not write are deleted, the rest upserted. */
    method RollRange(cfg: Config, from: int, to: Option<int>, deployment: Option<DeploymentId>)
      requires Tables.Valid(Snapshot()) && cfg.Valid()
      modifies this`qos
      ensures qos == Rollup.RollRange(cfg, Snapshot(), old(qos), from, to, deployment)
      ensures forall k: Key :: Lookup(qos, k)
                == if Targeted(cfg, WindowRange(cfg, from, to), deployment, k) then Fresh(cfg, Snapshot(), k)
                   else Lookup(old(qos), k)
    {
      RollRangeEverywhere(cfg, Snapshot(), qos, from, to, deployment);
      var w := WindowRange(cfg, from, to);
      var agg := GroupRows(FactsIn(cfg, Snapshot(), observations, w, deployment));
      qos := qos - Vanished(cfg, qos, agg, w, deployment);
      qos := qos + agg;
    }

    /** `SELECT .. FROM qos_reroll ORDER BY id` */
    method FetchRequests() returns (ids: seq<nat>)
      ensures forall i | 0 <= i < |ids| :: ids[i] in requests
      ensures forall i, j | 0 <= i < j < |ids| :: ids[i] < ids[j]
      ensures forall id | id in requests :: id in ids
    {
      ids := [];
      var rest: set<int> := requests.Keys;
      while rest != {}
        invariant forall id | id in rest :: id in requests
        invariant forall i | 0 <= i < |ids| :: ids[i] in requests
        invariant forall i, j | 0 <= i < j < |ids| :: ids[i] < ids[j]
        invariant forall i, id | 0 <= i < |ids| && id in rest :: ids[i] < id
        invariant forall id | id in requests :: id in rest || id in ids
        decreases rest
      {
        var id := Least(rest);
        ids := ids + [id];
        rest := rest - {id};
      }
    }

    /** One pass: the trailing window, then every queued request, deleting each once rolled. What any of
        them covers is fresh, the rest is as it was, and the queue is empty. */
    method RollupOnce(cfg: Config, now: int)
      requires Valid() && cfg.Valid()
      modifies this`qos, this`requests
      ensures Valid() && requests == map[]
      ensures forall k :: Lookup(qos, k)
                == if Targeted(cfg, WindowRange(cfg, TrailingFrom(cfg, now), None), None, k)
                      || Covered(cfg, old(requests), k)
                   then Fresh(cfg, Snapshot(), k) else Lookup(old(qos), k)
    {
      RollRange(cfg, TrailingFrom(cfg, now), None, None);
      var ids := FetchRequests();
      ghost var d, trailing := Snapshot(), WindowRange(cfg, TrailingFrom(cfg, now), None);
      for n := 0 to |ids|
        invariant Snapshot() == d
        invariant forall id :: id in requests <==> id in old(requests) && id !in ids[..n]
        invariant forall id | id in requests :: requests[id] == old(requests)[id]
        invariant forall k :: Lookup(qos, k)
                    == if Targeted(cfg, trailing, None, k) || CoveredBy(cfg, old(requests), ids[..n], k)
                       then Fresh(cfg, d, k) else Lookup(old(qos), k)
      {
        var r := requests[ids[n]];
        RollRange(cfg, r.from, Some(r.to), r.deployment);
        requests := requests - {ids[n]};
        assert ids[..n + 1] == ids[..n] + [ids[n]];
        forall k: Key
          ensures CoveredBy(cfg, old(requests), ids[..n + 1], k)
             <==> CoveredBy(cfg, old(requests), ids[..n], k) || Covers(cfg, r, k)
        {
        }
      }
      assert ids[..|ids|] == ids;
    }

    /** The loop over days, from a day boundary through the day that holds `now`. */
    method RollDays(cfg: Config, start: int, now: int)
      requires Tables.Valid(Snapshot()) && cfg.Valid() && WholeDay(start)
      modifies this`qos
      ensures qos == if start > now then old(qos)
                     else Rollup.RollRange(cfg, Snapshot(), old(qos), start, Some(RerollTo(now)), None)
    {
      var end := start;
      while end <= now
        invariant WholeDay(end) && start <= end
        invariant end == start || end - DAY <= now
        invariant DaysRolled(cfg, Snapshot(), old(qos), start, end, qos)
        decreases now - end
      {
        OneMoreDay(cfg, Snapshot(), old(qos), start, end, qos);
        NextDay(end);
        RollRange(cfg, end, Some(end + DAY - 1), None);
        end := end + DAY;
      }
      if end != start {
        LastDay(end, now);
      }
    }

    /** Re-roll everything, a day at a time. It equals one rollup from the first probe's day to the end
        of today, at any bucket width. */
    method RerollAll(cfg: Config, now: int)
      requires Tables.Valid(Snapshot()) && cfg.Valid()
      modifies this`qos
      ensures qos == Rerolled(cfg, Snapshot(), old(qos), now)
    {
      var first := FirstDispatch(probes);
      if first.None? {
        return;
      }
      FirstDay(first.value);
      RollDays(cfg, RerollFrom(first.value), now);
    }
  }

  ghost predicate CoveredBy(cfg: Config, queue: Queue, ids: seq<nat>, k: Key)
    requires cfg.Valid()
  {
    exists id :: id in ids && id in queue && Covers(cfg, queue[id], k)
  }

  /** The range of a full re-roll: the first probe's day to today, in whole buckets. */
  predicate InReroll(cfg: Config, d: Data, now: int, k: Key)
    requires cfg.Valid()
  {
    var first := FirstDispatch(d.probes);
    first.Some? && RerollFrom(first.value) <= now
    && WindowRange(cfg, RerollFrom(first.value), Some(RerollTo(now))).Holds(k.start)
  }

  /** On any table: in its range a full re-roll leaves the rows of its width fresh, and it leaves every other row as
      it was. */
  lemma RerollAllIsFreshInItsRange(cfg: Config, d: Data, qos: Table, now: int, k: Key)
    requires cfg.Valid() && Tables.Valid(d)
    ensures Lookup(Rerolled(cfg, d, qos, now), k)
         == if k.width == cfg.width && InReroll(cfg, d, now, k) then Fresh(cfg, d, k) else Lookup(qos, k)
  {
    var first := FirstDispatch(d.probes);
    if first.Some? {
      RollRangeIsFresh(cfg, d, qos, RerollFrom(first.value), Some(RerollTo(now)), None, k);
    }
  }
}
