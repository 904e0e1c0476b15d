/** The daily feed: bucket rows aggregated a second time, and when that loses nothing. */
module Daily {
  import opened Prelude
  import opened Tables
  import opened Rollup
  import opened Buckets

  const DAY_SECS: int := 86400

  /** `floor(epoch / 86400)` */
  function DayOf(t: int): int { t / 86400 }

  datatype Point = Point(
    queries: int,
    ok: int,
    successRate: Option<real>,
    avgLatency: Option<real>,
    maxLatency: Option<int>,
    maxBehind: Option<int>,
    comparable: int,
    divergent: int,
    correctness: Option<real>)

  /** The rows of one (indexer, deployment, day) group, whatever their bucket width. */
  function DayRows(qos: Table, ix: Address, deployment: DeploymentId, day: int): set<Key> {
    set k | k in qos && k.indexer == ix && k.deployment == deployment && DayOf(k.start) == day
  }

  function Values(keys: set<Key>, column: Key -> Option<int>): set<int> {
    set k | k in keys && column(k).Some? :: column(k).value
  }

  /** SQL's MAX: NULLs are skipped, and it is NULL over nothing. */
  function MaxOver(keys: set<Key>, column: Key -> Option<int>): Option<int> {
    var values := Values(keys, column);
    if values == {} then None else Some(Last(values))
  }

  function Ratio(a: int, b: int): Option<real> {
    if b == 0 then None else Some(a as real / b as real)
  }

  function Cell(qos: Table, k: Key): Row {
    if k in qos then qos[k] else Row(0, 0, None, None, None, None, 0, 0, None)
  }

  function QueriesOf(qos: Table): Key -> int { k => Cell(qos, k).queries }

  function OkOf(qos: Table): Key -> int { k => Cell(qos, k).ok }

  function WeightOf(qos: Table): Key -> int { k => if Cell(qos, k).avgLatency.Some? then Cell(qos, k).ok else 0 }

  function WeightedOf(qos: Table): Key -> real { k => Cell(qos, k).avgLatency.GetOr(0.0) * Cell(qos, k).ok as real }

  function MaxLatencyOf(qos: Table): Key -> Option<int> { k => Cell(qos, k).maxLatency }

  function MaxBehindOf(qos: Table): Key -> Option<int> { k => Cell(qos, k).maxBehind }

  function ComparableOf(qos: Table): Key -> int { k => Cell(qos, k).comparable }

  function DivergentOf(qos: Table): Key -> int { k => Cell(qos, k).divergent }

  function WrongRate(divergent: int, comparable: int): Option<real> {
    if comparable > 0 then Some(1.0 - divergent as real / comparable as real) else None
  }

  function Mean(weighted: real, weight: int): Option<real> {
    if weight == 0 then None else Some(weighted / weight as real)
  }

  /** `daily_points` for one group. */
  ghost function DailyPoint(qos: Table, ix: Address, deployment: DeploymentId, day: int): Point {
    PointOver(qos, DayRows(qos, ix, deployment, day))
  }

  ghost function PointOver(qos: Table, keys: set<Key>): Point {
    var queries, ok := Sum(keys, QueriesOf(qos)), Sum(keys, OkOf(qos));
    var comparable, divergent := Sum(keys, ComparableOf(qos)), Sum(keys, DivergentOf(qos));
    Point(
      queries, ok, Ratio(ok, queries),
      Mean(RealSum(keys, WeightedOf(qos)), Sum(keys, WeightOf(qos))),
      MaxOver(keys, MaxLatencyOf(qos)), MaxOver(keys, MaxBehindOf(qos)),
      comparable, divergent, WrongRate(divergent, comparable))
  }

  // ---------------------------------------------------------------------------
  // The same figures straight from the day's observations.

  function DayFacts(cfg: Config, d: Data, rows: seq<Observation>, ix: Address, deployment: DeploymentId, day: int): seq<Fact>
    requires cfg.Valid() && forall o <- rows :: o.probe in d.probes
  {
    if rows == [] then []
    else
      var o := rows[|rows| - 1];
      var fact := FactOf(cfg, d, o);
      DayFacts(cfg, d, rows[..|rows| - 1], ix, deployment, day)
      + (if fact.Some? && fact.value.key.indexer == ix && fact.value.key.deployment == deployment
            && DayOf(d.probes[o.probe].dispatchedAt) == day then [fact.value] else [])
  }

  function DirectPoint(facts: seq<Fact>): Point {
    RowPoint(Aggregate(facts))
  }

  function RowPoint(row: Row): Point {
    Point(row.queries, row.ok, Ratio(row.ok, row.queries), row.avgLatency, row.maxLatency, row.maxBehind,
          row.comparable, row.divergent, row.correctness)
  }

  predicate LatencyOnEverySuccess(d: Data) {
    forall o <- d.observations :: o.error.None? && o.status == Some(200) ==> o.latency.Some?
  }

  /** The table's rows at the configured width are a from-scratch rollup. */
  predicate FreshSeries(cfg: Config, d: Data, qos: Table)
    requires cfg.Valid() && Valid(d)
  {
    && (forall k <- qos | k.width == cfg.width :: Fresh(cfg, d, k) == Some(qos[k]))
    && (forall o <- d.observations :: FactOf(cfg, d, o).Some? ==> FactOf(cfg, d, o).value.key in qos)
  }

  /** The table is a from-scratch rollup at one width, and holds no other series. */
  predicate OneFreshSeries(cfg: Config, d: Data, qos: Table)
    requires cfg.Valid() && Valid(d)
  {
    FreshSeries(cfg, d, qos) && forall k <- qos :: k.width == cfg.width
  }

  /** Every stored row counts something. */
  predicate RowsCount(qos: Table) {
    forall k <- qos :: qos[k].queries > 0
  }

  // ---------------------------------------------------------------------------
  // A day is whole buckets.

  lemma DayIsWholeBuckets(t: int, width: int)
    requires width > 0 && DAY_SECS % width == 0
    ensures DayOf(Bucket(t, width)) == DayOf(t)
  {
    var perDay, q, day := DAY_SECS / width, t / width, DayOf(t);
    assert perDay * width == DAY_SECS;
    var first := day * perDay;
    assert first * width == day * 86400 by {
      assert first * width == day * (perDay * width);
    }
    MultipleBelow(first, t, width);
    assert q * width <= t;
  }

  lemma {:induction false} DayFactsAreItsBuckets(cfg: Config, d: Data, rows: seq<Observation>, keys: set<Key>,
                                                 ix: Address, deployment: DeploymentId, day: int)
    requires cfg.Valid() && DAY_SECS % cfg.width == 0 && forall o <- rows :: o.probe in d.probes
    requires forall o <- rows :: FactOf(cfg, d, o).Some? ==>
               var k := FactOf(cfg, d, o).value.key;
               k in keys <==> k.indexer == ix && k.deployment == deployment && DayOf(k.start) == day
    ensures FactsOf(cfg, d, rows, keys) == DayFacts(cfg, d, rows, ix, deployment, day)
  {
    if rows != [] {
      var init, o := rows[..|rows| - 1], rows[|rows| - 1];
      assert o in rows && forall q <- init :: q in rows;
      DayFactsAreItsBuckets(cfg, d, init, keys, ix, deployment, day);
      DayIsWholeBuckets(d.probes[o.probe].dispatchedAt, cfg.width);
    }
  }

  // ---------------------------------------------------------------------------
  // The latency average.

  lemma {:induction false} KnownLatencies(group: seq<Fact>)
    requires forall f <- group :: f.ok ==> f.latency.Some?
    ensures Count(group, HasValue(Latency)) == Count(group, Succeeded)
  {
    if group != [] {
      assert group[|group| - 1] in group && forall f <- group[..|group| - 1] :: f in group;
      KnownLatencies(group[..|group| - 1]);
      assert HasValue(Latency)(group[|group| - 1]) == Succeeded(group[|group| - 1]);
    }
  }

  lemma {:induction false} NothingToTotal(group: seq<Fact>, value: Fact -> Option<int>)
    requires Count(group, HasValue(value)) == 0
    ensures Total(group, value) == 0
  {
    if group != [] {
      NothingToTotal(group[..|group| - 1], value);
    }
  }

  /** A bucket's average, weighted by its successes, is its total latency. */
  lemma WeightedIsTotal(group: seq<Fact>)
    requires forall f <- group :: f.ok ==> f.latency.Some?
    ensures var row := Aggregate(group);
            && row.avgLatency.GetOr(0.0) * row.ok as real == Total(group, Latency) as real
            && (row.avgLatency.None? ==> row.ok == 0)
  {
    KnownLatencies(group);
    if Count(group, HasValue(Latency)) == 0 {
      NothingToTotal(group, Latency);
    }
  }

  lemma KeyFactsSucceedWithLatency(cfg: Config, d: Data, rows: seq<Observation>, k: Key, f: Fact)
    requires cfg.Valid() && forall o <- rows :: o.probe in d.probes
    requires forall o <- rows :: o.error.None? && o.status == Some(200) ==> o.latency.Some?
    requires f in KeyFacts(cfg, d, rows, k)
    ensures f.ok ==> f.latency.Some?
  {
  }

  lemma LatencyAddsUp(cfg: Config, d: Data, qos: Table, keys: set<Key>)
    requires cfg.Valid() && Valid(d) && FreshRows(cfg, d, qos, keys) && LatencyOnEverySuccess(d)
    ensures RealSum(keys, WeightedOf(qos)) == Total(FactsOf(cfg, d, d.observations, keys), Latency) as real
    ensures Sum(keys, WeightOf(qos)) == Sum(keys, OkOf(qos))
  {
    var total := k => if k in keys then Total(KeyFacts(cfg, d, d.observations, k), Latency) else 0;
    forall k | k in keys
      ensures WeightedOf(qos)(k) == total(k) as real && WeightOf(qos)(k) == OkOf(qos)(k)
      ensures total(k) == BucketSum(cfg, d, d.observations, ValueOrZero(Latency), k)
    {
      forall f | f in KeyFacts(cfg, d, d.observations, k)
        ensures f.ok ==> f.latency.Some?
      {
        KeyFactsSucceedWithLatency(cfg, d, d.observations, k, f);
      }
      WeightedIsTotal(KeyFacts(cfg, d, d.observations, k));
    }
    SumAsReal(keys, total, WeightedOf(qos));
    SumSame(keys, WeightOf(qos), OkOf(qos));
    BucketsAddUp(cfg, d, d.observations, ValueOrZero(Latency), keys, total);
  }

  // ---------------------------------------------------------------------------
  // Maxima.

  predicate IsMax(m: Option<int>, values: set<int>) {
    if values == {} then m.None? else m.Some? && m.value in values && forall x <- values :: x <= m.value
  }

  function FactValues(group: seq<Fact>, value: Fact -> Option<int>): set<int> {
    set f | f in group && value(f).Some? :: value(f).value
  }

  lemma {:induction false} GreatestIsMax(group: seq<Fact>, value: Fact -> Option<int>)
    ensures IsMax(Greatest(group, value), FactValues(group, value))
  {
    if group != [] {
      var init, last := group[..|group| - 1], group[|group| - 1];
      GreatestIsMax(init, value);
      assert forall f :: f in group <==> f in init || f == last;
      assert FactValues(group, value)
          == FactValues(init, value) + (if value(last).Some? then {value(last).value} else {});
    }
  }

  lemma {:induction false} KeyFactsAreFacts(cfg: Config, d: Data, rows: seq<Observation>, keys: set<Key>, f: Fact)
    requires cfg.Valid() && forall o <- rows :: o.probe in d.probes
    ensures f in FactsOf(cfg, d, rows, keys) <==> f.key in keys && f in KeyFacts(cfg, d, rows, f.key)
  {
    if rows != [] {
      KeyFactsAreFacts(cfg, d, rows[..|rows| - 1], keys, f);
    }
  }

  lemma KeyOfKeyFacts(cfg: Config, d: Data, rows: seq<Observation>, k: Key, f: Fact)
    requires cfg.Valid() && forall o <- rows :: o.probe in d.probes
    requires f in KeyFacts(cfg, d, rows, k)
    ensures f.key == k
  {
  }

  lemma FactIsUnderAMaximum(cfg: Config, d: Data, keys: set<Key>, value: Fact -> Option<int>, column: Key -> Option<int>, x: int)
    requires cfg.Valid() && Valid(d)
    requires forall k | k in keys :: column(k) == Greatest(KeyFacts(cfg, d, d.observations, k), value)
    requires x in FactValues(FactsOf(cfg, d, d.observations, keys), value)
    ensures exists y :: y in Values(keys, column) && x <= y
  {
    var rows := d.observations;
    var f :| f in FactsOf(cfg, d, rows, keys) && value(f).Some? && value(f).value == x;
    KeyFactsAreFacts(cfg, d, rows, keys, f);
    GreatestIsMax(KeyFacts(cfg, d, rows, f.key), value);
    assert x in FactValues(KeyFacts(cfg, d, rows, f.key), value);
    assert column(f.key).value in Values(keys, column);
  }

  lemma MaximumIsAFact(cfg: Config, d: Data, keys: set<Key>, value: Fact -> Option<int>, column: Key -> Option<int>, x: int)
    requires cfg.Valid() && Valid(d)
    requires forall k | k in keys :: column(k) == Greatest(KeyFacts(cfg, d, d.observations, k), value)
    requires x in Values(keys, column)
    ensures x in FactValues(FactsOf(cfg, d, d.observations, keys), value)
  {
    var k :| k in keys && column(k).Some? && column(k).value == x;
    var group := KeyFacts(cfg, d, d.observations, k);
    GreatestIsMax(group, value);
    var f :| f in group && value(f).Some? && value(f).value == x;
    KeyOfKeyFacts(cfg, d, d.observations, k, f);
    KeyFactsAreFacts(cfg, d, d.observations, keys, f);
  }

  /** The greatest of the buckets' maxima is the greatest over all their facts. */
  lemma MaximaCombine(cfg: Config, d: Data, keys: set<Key>, value: Fact -> Option<int>, column: Key -> Option<int>)
    requires cfg.Valid() && Valid(d)
    requires forall k | k in keys :: column(k) == Greatest(KeyFacts(cfg, d, d.observations, k), value)
    ensures MaxOver(keys, column) == Greatest(FactsOf(cfg, d, d.observations, keys), value)
  {
    var facts := FactsOf(cfg, d, d.observations, keys);
    GreatestIsMax(facts, value);
    forall x | x in FactValues(facts, value)
      ensures exists y :: y in Values(keys, column) && x <= y
    {
      FactIsUnderAMaximum(cfg, d, keys, value, column, x);
    }
    forall x | x in Values(keys, column)
      ensures x in FactValues(facts, value)
    {
      MaximumIsAFact(cfg, d, keys, value, column, x);
    }
    MaxesMeet(Values(keys, column), FactValues(facts, value), MaxOver(keys, column), Greatest(facts, value));
  }

  lemma MaxesMeet(a: set<int>, b: set<int>, m: Option<int>, n: Option<int>)
    requires IsMax(m, a) && IsMax(n, b) && a <= b
    requires forall x | x in b :: exists y :: y in a && x <= y
    ensures m == n
  {
    if b != {} {
      var x := Pick(b);
      var y :| y in a && x <= y;
    }
  }

  // ---------------------------------------------------------------------------
  // The main result.

  lemma DayLatency(cfg: Config, d: Data, qos: Table, keys: set<Key>)
    requires cfg.Valid() && Valid(d) && FreshRows(cfg, d, qos, keys) && LatencyOnEverySuccess(d)
    ensures Average(FactsOf(cfg, d, d.observations, keys), Latency)
         == Mean(RealSum(keys, WeightedOf(qos)), Sum(keys, WeightOf(qos)))
  {
    var facts := FactsOf(cfg, d, d.observations, keys);
    CountsAddUp(cfg, d, qos, keys, Succeeded, OkOf(qos));
    LatencyAddsUp(cfg, d, qos, keys);
    forall f | f in facts
      ensures f.ok ==> f.latency.Some?
    {
      KeyFactsAreFacts(cfg, d, d.observations, keys, f);
      KeyFactsSucceedWithLatency(cfg, d, d.observations, f.key, f);
    }
    KnownLatencies(facts);
  }

  lemma DayCounts(cfg: Config, d: Data, qos: Table, keys: set<Key>)
    requires cfg.Valid() && Valid(d) && FreshRows(cfg, d, qos, keys)
    ensures var row := Aggregate(FactsOf(cfg, d, d.observations, keys));
            && Sum(keys, QueriesOf(qos)) == row.queries && Sum(keys, OkOf(qos)) == row.ok
            && Sum(keys, ComparableOf(qos)) == row.comparable && Sum(keys, DivergentOf(qos)) == row.divergent
  {
    QueriesAddUp(cfg, d, qos, keys, QueriesOf(qos));
    CountsAddUp(cfg, d, qos, keys, Succeeded, OkOf(qos));
    CountsAddUp(cfg, d, qos, keys, IsComparable, ComparableOf(qos));
    CountsAddUp(cfg, d, qos, keys, IsDivergent, DivergentOf(qos));
  }

  lemma DayMaxima(cfg: Config, d: Data, qos: Table, keys: set<Key>)
    requires cfg.Valid() && Valid(d) && FreshRows(cfg, d, qos, keys)
    ensures var row := Aggregate(FactsOf(cfg, d, d.observations, keys));
            MaxOver(keys, MaxLatencyOf(qos)) == row.maxLatency && MaxOver(keys, MaxBehindOf(qos)) == row.maxBehind
  {
    MaximaCombine(cfg, d, keys, Latency, MaxLatencyOf(qos));
    MaximaCombine(cfg, d, keys, BlocksBehind, MaxBehindOf(qos));
  }

  /** The day's rows of the configured series. */
  function SeriesRows(cfg: Config, qos: Table, ix: Address, deployment: DeploymentId, day: int): set<Key> {
    set k | k in DayRows(qos, ix, deployment, day) && k.width == cfg.width
  }

  predicate OneWidth(cfg: Config, qos: Table, ix: Address, deployment: DeploymentId, day: int) {
    forall k <- DayRows(qos, ix, deployment, day) :: k.width == cfg.width
  }

  lemma SeriesIsTheDay(cfg: Config, d: Data, qos: Table, ix: Address, deployment: DeploymentId, day: int)
    requires cfg.Valid() && Valid(d) && FreshSeries(cfg, d, qos) && DAY_SECS % cfg.width == 0
    ensures var keys := SeriesRows(cfg, qos, ix, deployment, day);
            && FreshRows(cfg, d, qos, keys)
            && FactsOf(cfg, d, d.observations, keys) == DayFacts(cfg, d, d.observations, ix, deployment, day)
  {
    DayFactsAreItsBuckets(cfg, d, d.observations, SeriesRows(cfg, qos, ix, deployment, day), ix, deployment, day);
  }

  /** With no other series that day, a width that divides a day, and a latency on every success, the day
      computed from bucket rows is the day computed from its observations. */
  lemma DailyIsExact(cfg: Config, d: Data, qos: Table, ix: Address, deployment: DeploymentId, day: int)
    requires cfg.Valid() && Valid(d) && FreshSeries(cfg, d, qos) && OneWidth(cfg, qos, ix, deployment, day)
    requires DAY_SECS % cfg.width == 0 && LatencyOnEverySuccess(d)
    ensures DailyPoint(qos, ix, deployment, day) == DirectPoint(DayFacts(cfg, d, d.observations, ix, deployment, day))
  {
    var keys := SeriesRows(cfg, qos, ix, deployment, day);
    assert keys == DayRows(qos, ix, deployment, day);
    SeriesIsTheDay(cfg, d, qos, ix, deployment, day);
    BucketsMakeThePoint(cfg, d, qos, keys);
  }

  lemma BucketsMakeThePoint(cfg: Config, d: Data, qos: Table, keys: set<Key>)
    requires cfg.Valid() && Valid(d) && FreshRows(cfg, d, qos, keys) && LatencyOnEverySuccess(d)
    ensures PointOver(qos, keys) == DirectPoint(FactsOf(cfg, d, d.observations, keys))
  {
    DayCounts(cfg, d, qos, keys);
    DayLatency(cfg, d, qos, keys);
    DayMaxima(cfg, d, qos, keys);
    RowIsPoint(Aggregate(FactsOf(cfg, d, d.observations, keys)),
               Sum(keys, QueriesOf(qos)), Sum(keys, OkOf(qos)),
               Mean(RealSum(keys, WeightedOf(qos)), Sum(keys, WeightOf(qos))),
               MaxOver(keys, MaxLatencyOf(qos)), MaxOver(keys, MaxBehindOf(qos)),
               Sum(keys, ComparableOf(qos)), Sum(keys, DivergentOf(qos)));
  }

  lemma RowIsPoint(row: Row, queries: int, ok: int, avg: Option<real>, maxLatency: Option<int>, maxBehind: Option<int>,
                   comparable: int, divergent: int)
    requires row.queries == queries && row.ok == ok && row.avgLatency == avg
    requires row.maxLatency == maxLatency && row.maxBehind == maxBehind
    requires row.comparable == comparable && row.divergent == divergent
    requires row.correctness == Rate(row.divergent, row.comparable)
    ensures RowPoint(row)
         == Point(queries, ok, Ratio(ok, queries), avg, maxLatency, maxBehind, comparable, divergent,
                  WrongRate(divergent, comparable))
  {
  }

  /** The success rate of a day is its successes over its queries, and None over none. */
  lemma SuccessRateMeans(qos: Table, ix: Address, deployment: DeploymentId, day: int)
    ensures var p := DailyPoint(qos, ix, deployment, day);
            if p.queries == 0 then p.successRate.None?
            else p.successRate.Some? && p.successRate.value * p.queries as real == p.ok as real
  {
    var p := DailyPoint(qos, ix, deployment, day);
    if p.queries != 0 { RatioTimes(p.ok, p.queries); }
  }

  /** The buckets that have an average latency. */
  function Timed(qos: Table, keys: set<Key>): set<Key> {
    set k | k in keys && Cell(qos, k).avgLatency.Some?
  }

  lemma SplitSum(keys: set<Key>, part: set<Key>, f: Key -> int)
    requires part <= keys && forall k | k in keys - part :: f(k) == 0
    ensures Sum(keys, f) == Sum(part, f)
  {
    SumOfDisjoint(part, keys - part, f);
    SumZero(keys - part, f);
    assert part + (keys - part) == keys;
  }

  lemma {:induction false} SplitRealSum(keys: set<Key>, part: set<Key>, f: Key -> real)
    requires part <= keys && forall k | k in keys - part :: f(k) == 0.0
    ensures RealSum(keys, f) == RealSum(part, f)
    decreases keys - part
  {
    var rest := keys - part;
    if rest != {} {
      var k := Pick(rest);
      SplitRealSum(keys, part + {k}, f);
      RealSumTake(part + {k}, f, k);
      assert part + {k} - {k} == part;
    } else {
      assert keys == part + rest == part;
    }
  }

  /** A bucket whose successes have no latency neither adds to the day's average nor dilutes it. */
  lemma UntimedDoNotDilute(qos: Table, keys: set<Key>)
    ensures PointOver(qos, keys).avgLatency == PointOver(qos, Timed(qos, keys)).avgLatency
  {
    SplitSum(keys, Timed(qos, keys), WeightOf(qos));
    SplitRealSum(keys, Timed(qos, keys), WeightedOf(qos));
  }

  /** And each of the others weighs as many as it has successes. */
  lemma AverageMeans(qos: Table, keys: set<Key>)
    ensures var p, weight := PointOver(qos, keys), Sum(Timed(qos, keys), OkOf(qos));
            if weight == 0 then p.avgLatency.None?
            else p.avgLatency.Some? && p.avgLatency.value * weight as real == RealSum(Timed(qos, keys), WeightedOf(qos))
  {
    UntimedDoNotDilute(qos, keys);
    SumSame(Timed(qos, keys), WeightOf(qos), OkOf(qos));
    assert Timed(qos, Timed(qos, keys)) == Timed(qos, keys);
    MeanTimes(RealSum(Timed(qos, keys), WeightedOf(qos)), Sum(Timed(qos, keys), OkOf(qos)));
  }

  lemma MeanTimes(weighted: real, weight: int)
    ensures if weight == 0 then Mean(weighted, weight).None?
            else Mean(weighted, weight).Some? && Mean(weighted, weight).value * weight as real == weighted
  {
  }

  lemma RatioTimes(a: int, b: int)
    requires b != 0
    ensures Ratio(a, b).Some? && Ratio(a, b).value * b as real == a as real
  {
  }

  // ---------------------------------------------------------------------------
  // Why one series: the query does not look at the bucket width.

  lemma {:induction false} SumOfDisjoint(a: set<Key>, b: set<Key>, f: Key -> int)
    requires a !! b
    ensures Sum(a + b, f) == Sum(a, f) + Sum(b, f)
    decreases a
  {
    if a == {} {
      assert a + b == b;
    } else {
      var x := Pick(a);
      SumTake(a + b, f, x);
      SumTake(a, f, x);
      SumOfDisjoint(a - {x}, b, f);
      assert a + b - {x} == (a - {x}) + b;
    }
  }

  lemma {:induction false} PositiveSum(s: set<Key>, f: Key -> int)
    requires forall k | k in s :: f(k) > 0
    ensures s == {} ==> Sum(s, f) == 0
    ensures s != {} ==> Sum(s, f) > 0
    decreases s
  {
    if s != {} {
      var x := Pick(s);
      SumTake(s, f, x);
      PositiveSum(s - {x}, f);
    }
  }

  /** Every row a rollup writes counts something. */
  lemma RollKeepsRowsCount(cfg: Config, d: Data, qos: Table, from: int, to: Option<int>, deployment: Option<DeploymentId>)
    requires cfg.Valid() && Valid(d) && RowsCount(qos)
    ensures RowsCount(RollRange(cfg, d, qos, from, to, deployment))
  {
    var rolled := RollRange(cfg, d, qos, from, to, deployment);
    forall k | k in rolled
      ensures rolled[k].queries > 0
    {
      RollRangeIsFresh(cfg, d, qos, from, to, deployment, k);
      assert Lookup(rolled, k).Some?;
    }
  }

  /** The day's queries are the series' own and those of every other row. */
  lemma DayQueries(cfg: Config, d: Data, qos: Table, ix: Address, deployment: DeploymentId, day: int)
    requires cfg.Valid() && Valid(d) && FreshSeries(cfg, d, qos) && DAY_SECS % cfg.width == 0
    ensures DailyPoint(qos, ix, deployment, day).queries
         == |DayFacts(cfg, d, d.observations, ix, deployment, day)|
            + Sum(DayRows(qos, ix, deployment, day) - SeriesRows(cfg, qos, ix, deployment, day), QueriesOf(qos))
  {
    var keys, series := DayRows(qos, ix, deployment, day), SeriesRows(cfg, qos, ix, deployment, day);
    assert keys == series + (keys - series);
    SumOfDisjoint(series, keys - series, QueriesOf(qos));
    SeriesIsTheDay(cfg, d, qos, ix, deployment, day);
    DayCounts(cfg, d, qos, series);
  }

  /** Over a table whose configured series is fresh, the daily feed counts the day's answers if and only if no other
      series has a row that day, and then, with a latency on every success, all its figures are the day's own. */
  lemma DailyIsExactIff(cfg: Config, d: Data, qos: Table, ix: Address, deployment: DeploymentId, day: int)
    requires cfg.Valid() && Valid(d) && FreshSeries(cfg, d, qos) && RowsCount(qos) && DAY_SECS % cfg.width == 0
    ensures var point, facts := DailyPoint(qos, ix, deployment, day), DayFacts(cfg, d, d.observations, ix, deployment, day);
            && (point.queries == |facts| <==> OneWidth(cfg, qos, ix, deployment, day))
            && (LatencyOnEverySuccess(d) ==> (point == DirectPoint(facts) <==> OneWidth(cfg, qos, ix, deployment, day)))
  {
    var facts := DayFacts(cfg, d, d.observations, ix, deployment, day);
    var others := DayRows(qos, ix, deployment, day) - SeriesRows(cfg, qos, ix, deployment, day);
    DayQueries(cfg, d, qos, ix, deployment, day);
    PositiveSum(others, QueriesOf(qos));
    assert others == {} <==> OneWidth(cfg, qos, ix, deployment, day) by {
      if k :| k in DayRows(qos, ix, deployment, day) && k.width != cfg.width { assert k in others; }
    }
    assert DirectPoint(facts).queries == |facts|;
    if LatencyOnEverySuccess(d) && OneWidth(cfg, qos, ix, deployment, day) {
      DailyIsExact(cfg, d, qos, ix, deployment, day);
    }
  }

  /** Over a table holding the same data at two widths, the day's queries are counted twice. */
  lemma TwoSeriesCountTwice(cfg: Config, cfg': Config, d: Data, qos: Table, qos': Table,
                            ix: Address, deployment: DeploymentId, day: int)
    requires cfg.Valid() && cfg'.Valid() && cfg.width != cfg'.width && Valid(d)
    requires OneFreshSeries(cfg, d, qos) && OneFreshSeries(cfg', d, qos')
    requires DAY_SECS % cfg.width == 0 && DAY_SECS % cfg'.width == 0
    ensures DailyPoint(qos + qos', ix, deployment, day).queries
         == 2 * |DayFacts(cfg, d, d.observations, ix, deployment, day)|
  {
    var both := qos + qos';
    var keys, keys' := DayRows(qos, ix, deployment, day), DayRows(qos', ix, deployment, day);
    assert DayRows(both, ix, deployment, day) == keys + keys';
    SumOfDisjoint(keys, keys', QueriesOf(both));
    SumSame(keys, QueriesOf(both), QueriesOf(qos));
    SumSame(keys', QueriesOf(both), QueriesOf(qos'));
    DayCounts(cfg, d, qos, keys);
    DayCounts(cfg', d, qos', keys');
    DayFactsAreItsBuckets(cfg, d, d.observations, keys, ix, deployment, day);
    DayFactsAreItsBuckets(cfg', d, d.observations, keys', ix, deployment, day);
    SameDaySize(cfg, cfg', d, d.observations, ix, deployment, day);
  }

  lemma {:induction false} SameDaySize(cfg: Config, cfg': Config, d: Data, rows: seq<Observation>,
                                       ix: Address, deployment: DeploymentId, day: int)
    requires cfg.Valid() && cfg'.Valid() && forall o <- rows :: o.probe in d.probes
    ensures |DayFacts(cfg, d, rows, ix, deployment, day)| == |DayFacts(cfg', d, rows, ix, deployment, day)|
  {
    if rows != [] {
      SameDaySize(cfg, cfg', d, rows[..|rows| - 1], ix, deployment, day);
    }
  }
}
