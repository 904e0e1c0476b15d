/** The loops that update the tables in place do what their statements do one step at a time, and in the states
    a run can reach a full re-roll leaves exactly the fresh rows. */
module Refinement {
  import opened Prelude
  import opened Tables
  import opened Judgement
  import opened Rollup
  import opened Requests
  import opened RollupProtocol
  import opened RollupRuns
  import Database
  import Detector

  /** Draining step by step makes fresh exactly what the fetched requests cover. */
  lemma {:induction false} DrainedTable(cfg: Config, s: State, k: Key)
    requires cfg.Valid() && Valid(s.data) && s.loop.Draining? && !s.loop.rolled
    requires forall id <- s.loop.todo :: id in s.queue
    requires forall i, j | 0 <= i < j < |s.loop.todo| :: s.loop.todo[i] < s.loop.todo[j]
    ensures Lookup(Drained(cfg, s).qos, k)
         == if Database.CoveredBy(cfg, s.queue, s.loop.todo, k) then Fresh(cfg, s.data, k) else Lookup(s.qos, k)
    decreases |s.loop.todo|
  {
    if s.loop.todo != [] {
      var id, rest := s.loop.todo[0], s.loop.todo[1..];
      var r := s.queue[id];
      var rolled := Rolled(cfg, s, r.from, Some(r.to), r.deployment).(loop := s.loop.(rolled := true));
      var deleted := rolled.(queue := rolled.queue - {id}, loop := Draining(rest, false));
      RollRangeIsFresh(cfg, s.data, s.qos, r.from, Some(r.to), r.deployment, k);
      DrainedTable(cfg, deleted, k);
      CoveredByRest(cfg, s.queue, s.loop.todo, k);
    }
  }

  lemma CoveredByRest(cfg: Config, queue: Queue, ids: seq<nat>, k: Key)
    requires cfg.Valid() && ids != [] && ids[0] in queue
    requires forall i, j | 0 <= i < j < |ids| :: ids[i] < ids[j]
    ensures Database.CoveredBy(cfg, queue, ids, k)
       <==> Covers(cfg, queue[ids[0]], k) || Database.CoveredBy(cfg, queue - {ids[0]}, ids[1..], k)
  {
    assert ids == [ids[0]] + ids[1..];
    assert ids[0] !in ids[1..];
  }

  lemma FetchedCovers(cfg: Config, queue: Queue, ids: seq<nat>, k: Key)
    requires cfg.Valid() && SortedIds(queue, ids)
    ensures Covered(cfg, queue, k) <==> Database.CoveredBy(cfg, queue, ids, k)
  {
    if id :| id in queue && Covers(cfg, queue[id], k) {
      assert id in ids;
    }
  }

  lemma DrainedAt(cfg: Config, rolled: State, fetched: State, k: Key)
    requires cfg.Valid() && Valid(rolled.data) && Fetched(rolled, fetched)
    ensures Lookup(Drained(cfg, fetched).qos, k)
         == if Covered(cfg, rolled.queue, k) then Fresh(cfg, rolled.data, k) else Lookup(rolled.qos, k)
  {
    DrainedTable(cfg, fetched, k);
    FetchedCovers(cfg, rolled.queue, fetched.loop.todo, k);
  }

  lemma UndisturbedRunAt(cfg: Config, s: State, fetched: State, k: Key)
    requires cfg.Valid() && Valid(s.data)
    requires Fetched(Rolled(cfg, s, TrailingFrom(cfg, s.now), None, None).(loop := Fetching), fetched)
    ensures Lookup(Drained(cfg, fetched).qos, k)
         == if Targeted(cfg, WindowRange(cfg, TrailingFrom(cfg, s.now), None), None, k) || Covered(cfg, s.queue, k)
            then Fresh(cfg, s.data, k) else Lookup(s.qos, k)
  {
    var from := TrailingFrom(cfg, s.now);
    var rolled := Rolled(cfg, s, from, None, None).(loop := Fetching);
    RangeMoves(cfg, s, from, None, None, Fetching, rolled, k);
    DrainedAt(cfg, rolled, fetched, k);
  }

  /** The table `Database.Store.RollupOnce` promises is the one the undisturbed run of the trailing roll, the
      fetch, and a roll and a delete per request ends in. */
  lemma PassIsUndisturbedRun(cfg: Config, s: State, fetched: State, after: Table)
    requires cfg.Valid() && Valid(s.data)
    requires Fetched(Rolled(cfg, s, TrailingFrom(cfg, s.now), None, None).(loop := Fetching), fetched)
    requires forall k :: Lookup(after, k)
               == if Targeted(cfg, WindowRange(cfg, TrailingFrom(cfg, s.now), None), None, k) || Covered(cfg, s.queue, k)
                  then Fresh(cfg, s.data, k) else Lookup(s.qos, k)
    ensures after == Drained(cfg, fetched).qos
  {
    forall k
      ensures Lookup(after, k) == Lookup(Drained(cfg, fetched).qos, k)
    {
      UndisturbedRunAt(cfg, s, fetched, k);
    }
    SameLookups(after, Drained(cfg, fetched).qos);
  }

  lemma TrailingTargets(cfg: Config, now: int, k: Key)
    requires cfg.Valid() && k.width == cfg.width
    ensures Targeted(cfg, WindowRange(cfg, TrailingFrom(cfg, now), None), None, k) <==> WindowStart(cfg, now) <= k.start
  {
    assert WindowRange(cfg, TrailingFrom(cfg, now), None) == Window(WindowStart(cfg, now), None);
  }

  /** What an undisturbed pass mends, from any state, timely or not: a bucket is fresh after it exactly when it was
      fresh before, or is in the trailing window, or has a request queued. */
  lemma PassFreshensIff(cfg: Config, s: State, fetched: State, k: Key)
    requires cfg.Valid() && Valid(s.data) && k.width == cfg.width
    requires Fetched(Rolled(cfg, s, TrailingFrom(cfg, s.now), None, None).(loop := Fetching), fetched)
    ensures Drained(cfg, fetched).data == s.data
    ensures Lookup(Drained(cfg, fetched).qos, k) == Fresh(cfg, s.data, k)
       <==> !Stale(cfg, s, k) || WindowStart(cfg, s.now) <= k.start || Covered(cfg, s.queue, k)
  {
    UndisturbedRunAt(cfg, s, fetched, k);
    DrainedData(cfg, fetched);
    TrailingTargets(cfg, s.now, k);
  }

  lemma {:induction false} DrainedData(cfg: Config, s: State)
    requires cfg.Valid() && Valid(s.data) && s.loop.Draining? && !s.loop.rolled
    requires forall id <- s.loop.todo :: id in s.queue
    requires forall i, j | 0 <= i < j < |s.loop.todo| :: s.loop.todo[i] < s.loop.todo[j]
    ensures Drained(cfg, s).data == s.data
    decreases |s.loop.todo|
  {
    if s.loop.todo != [] {
      var id := s.loop.todo[0];
      var r := s.queue[id];
      var rolled := Rolled(cfg, s, r.from, Some(r.to), r.deployment).(loop := s.loop.(rolled := true));
      DrainedData(cfg, rolled.(queue := rolled.queue - {id}, loop := Draining(s.loop.todo[1..], false)));
    }
  }

  // ---------------------------------------------------------------------------
  // The other methods take the other steps: what each promises of the tables is where its step leads.

  lemma RecordAttributionIsStep(cfg: Config, s: State, key: Address, indexer: Address, queue: Queue, next: nat)
    requires cfg.Valid() && Valid(s.data)
    requires Appended(s.queue, s.next, queue, next, AttributionRequests(s.data, key, indexer))
    ensures Next(cfg, s, Attribute(key, indexer),
                 s.(data := s.data.(attribution := s.data.attribution[key := Some(indexer)]), queue := queue, next := next))
    ensures forall t | Next(cfg, s, Attribute(key, indexer), t) ::
              Mapped(t.data, key) == Some(indexer) && t.data == s.data.(attribution := t.data.attribution)
  {
  }

  lemma RecordUnresolvedIsStep(cfg: Config, s: State, key: Address, t: State)
    requires cfg.Valid() && Valid(s.data)
    ensures Next(cfg, s, Unresolved(key), t)
       <==> t == s.(data := s.data.(attribution := if key in s.data.attribution then s.data.attribution
                                                   else s.data.attribution[key := None]))
  {
  }

  lemma RequestDeploymentRerollIsStep(cfg: Config, s: State, deployment: DeploymentId, queue: Queue, next: nat)
    requires cfg.Valid() && Valid(s.data) && s.detector.Enqueueing? && deployment in s.detector.owed
    requires Appended(s.queue, s.next, queue, next, DeploymentRequests(s.data, deployment))
    ensures Next(cfg, s, Enqueue(deployment), s.(detector := Owing(s.detector.owed - {deployment}), queue := queue, next := next))
  {
  }

  lemma RollRangeIsStep(cfg: Config, s: State, from: int, to: int, t: State)
    requires cfg.Valid() && Valid(s.data) && Next(cfg, s, Reroll(from, to), t)
    ensures t.qos == RollRange(cfg, s.data, s.qos, from, Some(to), None) && t.data == s.data && t.queue == s.queue
  {
  }

  /** Writing the flags one at a time and then dropping the others leaves the flags the detector found, as
      `Database.Store.DetectNondeterministic` promises, and owes for every one that changed. */
  lemma DetectIsSteps(cfg: Config, s: State, since: int, t: State, u: State)
    requires cfg.Valid() && Valid(s.data) && Next(cfg, s, DetectStart(since), t)
    requires Valid(u.data) && u.detector == t.detector && u.data == s.data.(nondeterministic := u.data.nondeterministic)
    requires t.detector.found <= u.data.nondeterministic
    ensures forall v | Next(cfg, u, Unflag, v) ::
              && v.data.nondeterministic == Detector.Rotating(s.data, since)
              && Owed(v) == Database.Changed(s.data.nondeterministic, v.data.nondeterministic)
  {
  }

  // ---------------------------------------------------------------------------
  // Re-rolling everything.

  lemma RerollReaches(d: Data, p: ProbeId, now: int)
    requires p in d.probes && d.probes[p].dispatchedAt <= now
    ensures Database.FirstDispatch(d.probes).Some?
    ensures var from := Database.RerollFrom(Database.FirstDispatch(d.probes).value);
            from <= d.probes[p].dispatchedAt <= Database.RerollTo(now) && from <= now
  {
    assert d.probes[p].dispatchedAt in Database.DispatchTimes(d.probes);
  }

  lemma ProbedIsInReroll(cfg: Config, d: Data, now: int, k: Key)
    requires cfg.Valid() && NoneFromTheFuture(d, now) && HasProbe(cfg, d, k)
    ensures Database.InReroll(cfg, d, now, k)
  {
    var p :| p in d.probes && InPlace(cfg, d, p, k);
    RerollReaches(d, p, now);
    var first := Database.FirstDispatch(d.probes).value;
    WindowHoldsWholeBuckets(cfg, Database.RerollFrom(first), Some(Database.RerollTo(now)), d.probes[p].dispatchedAt);
  }

  /** Outside the range there is nothing a from-scratch rollup would write. */
  lemma NothingFreshOutside(cfg: Config, d: Data, now: int, k: Key)
    requires cfg.Valid() && Valid(d) && NoneFromTheFuture(d, now) && !Database.InReroll(cfg, d, now, k)
    ensures Fresh(cfg, d, k) == None
  {
    FreshHasProbe(cfg, d, k);
    if HasProbe(cfg, d, k) { ProbedIsInReroll(cfg, d, now, k); }
  }

  /** A full re-roll leaves exactly the rows of a from-scratch rollup if and only if the table had no row of its
      width outside the range it covers. */
  lemma RerollIsExactIff(cfg: Config, d: Data, qos: Table, now: int)
    requires cfg.Valid() && Valid(d) && NoneFromTheFuture(d, now)
    ensures (forall k: Key | k.width == cfg.width :: Lookup(Database.Rerolled(cfg, d, qos, now), k) == Fresh(cfg, d, k))
       <==> (forall k | k in qos && k.width == cfg.width :: Database.InReroll(cfg, d, now, k))
  {
    forall k: Key
      ensures Lookup(Database.Rerolled(cfg, d, qos, now), k)
           == if k.width == cfg.width && Database.InReroll(cfg, d, now, k) then Fresh(cfg, d, k) else Lookup(qos, k)
      ensures !Database.InReroll(cfg, d, now, k) ==> Fresh(cfg, d, k) == None
    {
      Database.RerollAllIsFreshInItsRange(cfg, d, qos, now, k);
      if !Database.InReroll(cfg, d, now, k) { NothingFreshOutside(cfg, d, now, k); }
    }
    assert forall k | k in qos :: Lookup(qos, k).Some?;
  }

  /** It does when every row has a probe behind it; rows of other widths it leaves alone. */
  lemma RerollIsExact(cfg: Config, d: Data, qos: Table, now: int, k: Key)
    requires cfg.Valid() && Valid(d) && RowsHaveProbes(cfg, d, qos) && NoneFromTheFuture(d, now)
    ensures Lookup(Database.Rerolled(cfg, d, qos, now), k)
         == if k.width == cfg.width then Fresh(cfg, d, k) else Lookup(qos, k)
  {
    Database.RerollAllIsFreshInItsRange(cfg, d, qos, now, k);
    if k.width == cfg.width && !Database.InReroll(cfg, d, now, k) {
      NothingFreshOutside(cfg, d, now, k);
      if k in qos { ProbedIsInReroll(cfg, d, now, k); }
    }
  }

  /** Doing it again changes nothing, on any table. */
  lemma RerolledIdempotent(cfg: Config, d: Data, qos: Table, now: int)
    requires cfg.Valid() && Valid(d)
    ensures var once := Database.Rerolled(cfg, d, qos, now); Database.Rerolled(cfg, d, once, now) == once
  {
    var first := Database.FirstDispatch(d.probes);
    if first.Some? {
      RollRangeIdempotent(cfg, d, qos, Database.RerollFrom(first.value), Some(Database.RerollTo(now)), None);
    }
  }

  /** In every state a run can reach, lost invalidations and cut-short detectors included, a full re-roll leaves the
      table exactly as computed from scratch at its width. */
  lemma RerollMendsAnyReachableState(cfg: Config, states: seq<State>, steps: seq<Step>, n: nat, k: Key)
    requires cfg.Valid() && Run(cfg, states, steps) && n <= |steps|
    ensures Valid(states[n].data)
    ensures var s := states[n];
            Lookup(Database.Rerolled(cfg, s.data, s.qos, s.now), k)
            == if k.width == cfg.width then Fresh(cfg, s.data, k) else Lookup(s.qos, k)
  {
    RunsArePlaced(cfg, states, steps, n);
    RerollIsExact(cfg, states[n].data, states[n].qos, states[n].now, k);
  }
}
