/** The rollup: bucket rows as a stored aggregation over the measurement tables. */
module Rollup {
  import opened Prelude
  import opened Tables
  import opened Judgement

  /** `Fact` is one row of the rollup's `obs` relation; `Key` is what it is grouped by. */
  datatype Key = Key(indexer: Address, deployment: DeploymentId, start: int, width: int)

  datatype Fact = Fact(
    key: Key,
    probe: ProbeId,
    ok: bool,
    latency: Option<int>,
    behind: Option<int>,
    comparable: bool,
    divergent: bool)

  datatype Row = Row(
    queries: nat,
    ok: nat,
    avgLatency: Option<real>,
    maxLatency: Option<int>,
    avgBehind: Option<real>,
    maxBehind: Option<int>,
    comparable: nat,
    divergent: nat,
    correctness: Option<real>)

  type Table = map<Key, Row>

  datatype Config = Config(width: int, lookback: int, chainheadOffset: int) {
    predicate Valid() { width > 0 }
  }

  /** The start of the bucket that holds time `t`. */
  function Bucket(t: int, width: int): int
    requires width > 0
  {
    t / width * width
  }

  // ---------------------------------------------------------------------------
  // From observations to facts.

  function Behind(cfg: Config, p: Probe, o: Observation): Option<int> {
    if o.metaBlock.Some? then Some(Max(0, p.blockNumber + cfg.chainheadOffset - o.metaBlock.value)) else None
  }

  function FactOf(cfg: Config, d: Data, o: Observation): Option<Fact>
    requires cfg.Valid() && o.probe in d.probes
  {
    var p := d.probes[o.probe];
    if Admitted(d, o) then
      Some(Fact(
        Key(Identity(d, o).value, p.deployment, Bucket(p.dispatchedAt, cfg.width), cfg.width),
        o.probe,
        o.error.None? && o.status == Some(200),
        o.latency,
        Behind(cfg, p, o),
        RollupComparable(d, o),
        RollupDivergent(d, o)))
    else None
  }

  /** Times in `[start, end)`, open-ended when `end` is None. */
  datatype Window = Window(start: int, end: Option<int>) {
    predicate Holds(t: int) {
      start <= t && (end.Some? ==> t < end.value)
    }
  }

  /** The requested times widened to whole buckets. */
  function WindowRange(cfg: Config, from: int, to: Option<int>): Window
    requires cfg.Valid()
  {
    Window(Bucket(from, cfg.width),
           if to.Some? then Some((to.value / cfg.width + 1) * cfg.width) else None)
  }

  /** Where the trailing window begins, before it is widened to whole buckets. */
  function TrailingFrom(cfg: Config, now: int): int {
    now - cfg.lookback
  }

  predicate Wanted(deployment: Option<DeploymentId>, id: DeploymentId) {
    deployment.Some? ==> deployment.value == id
  }

  /** The rollup's `obs` relation over observations of probes in a window, in insertion order. */
  function FactsIn(cfg: Config, d: Data, rows: seq<Observation>, w: Window, deployment: Option<DeploymentId>): seq<Fact>
    requires cfg.Valid() && forall o <- rows :: o.probe in d.probes
  {
    if rows == [] then []
    else
      FactsIn(cfg, d, rows[..|rows| - 1], w, deployment) + Selected(cfg, d, rows[|rows| - 1], w, deployment)
  }

  /** What one observation adds to the relation: nothing, or its fact. */
  function Selected(cfg: Config, d: Data, o: Observation, w: Window, deployment: Option<DeploymentId>): seq<Fact>
    requires cfg.Valid() && o.probe in d.probes
  {
    var p, fact := d.probes[o.probe], FactOf(cfg, d, o);
    if w.Holds(p.dispatchedAt) && Wanted(deployment, p.deployment) && fact.Some? then [fact.value] else []
  }

  // ---------------------------------------------------------------------------
  // Aggregates of one group. AVG and MAX skip NULLs and are NULL over nothing.

  function Latency(f: Fact): Option<int> {
    if f.ok then f.latency else None
  }

  function BlocksBehind(f: Fact): Option<int> { f.behind }

  predicate Succeeded(f: Fact) { f.ok }

  predicate IsComparable(f: Fact) { f.comparable }

  predicate IsDivergent(f: Fact) { f.divergent }

  function Count(group: seq<Fact>, p: Fact -> bool): nat {
    if group == [] then 0
    else Count(group[..|group| - 1], p) + (if p(group[|group| - 1]) then 1 else 0)
  }

  function HasValue(value: Fact -> Option<int>): Fact -> bool {
    f => value(f).Some?
  }

  function ValueOrZero(value: Fact -> Option<int>): Fact -> int {
    f => value(f).GetOr(0)
  }

  function Total(group: seq<Fact>, value: Fact -> Option<int>): int {
    SeqSum(group, ValueOrZero(value))
  }

  function Average(group: seq<Fact>, value: Fact -> Option<int>): Option<real> {
    var n := Count(group, HasValue(value));
    if n == 0 then None else Some(Total(group, value) as real / n as real)
  }

  function Greatest(group: seq<Fact>, value: Fact -> Option<int>): Option<int> {
    if group == [] then None
    else Larger(Greatest(group[..|group| - 1], value), value(group[|group| - 1]))
  }

  function Larger(a: Option<int>, b: Option<int>): Option<int> {
    if a.None? then b else if b.None? then a else Some(Max(a.value, b.value))
  }

  function Rate(divergent: nat, comparable: nat): Option<real> {
    if comparable > 0 then Some(1.0 - divergent as real / comparable as real) else None
  }

  function Aggregate(group: seq<Fact>): Row {
    var comparable, divergent := Count(group, IsComparable), Count(group, IsDivergent);
    Row(|group|, Count(group, Succeeded),
        Average(group, Latency), Greatest(group, Latency),
        Average(group, BlocksBehind), Greatest(group, BlocksBehind),
        comparable, divergent, Rate(divergent, comparable))
  }

  function KeyOf(f: Fact): Key { f.key }

  /** `SELECT .. GROUP BY indexer, deployment, bucket`. */
  function GroupRows(facts: seq<Fact>): Table {
    map k | k in (set f | f in facts :: KeyOf(f)) :: Aggregate(Group(facts, KeyOf, k))
  }

  // ---------------------------------------------------------------------------
  // One rollup statement.

  predicate Targeted(cfg: Config, w: Window, deployment: Option<DeploymentId>, k: Key) {
    k.width == cfg.width && w.Holds(k.start) && Wanted(deployment, k.deployment)
  }

  /** Rows in range that the aggregation would not write. */
  function Vanished(cfg: Config, qos: Table, agg: Table, w: Window, deployment: Option<DeploymentId>): set<Key> {
    set k | k in qos && Targeted(cfg, w, deployment, k) && k !in agg
  }

  /** What the one SQL statement does to the bucket table: rows in range that the aggregation would
      not write are deleted, the aggregation is upserted. */
  function RollRange(cfg: Config, d: Data, qos: Table, from: int, to: Option<int>, deployment: Option<DeploymentId>): Table
    requires cfg.Valid() && Valid(d)
  {
    var w := WindowRange(cfg, from, to);
    var agg := GroupRows(FactsIn(cfg, d, d.observations, w, deployment));
    (qos - Vanished(cfg, qos, agg, w, deployment)) + agg
  }

  // ---------------------------------------------------------------------------
  // The meaning of the table: for each key, the aggregate of all current data.

  function Lookup(qos: Table, k: Key): Option<Row> {
    if k in qos then Some(qos[k]) else None
  }

  /** Every fact with key `k`, whenever its probe was dispatched. */
  function KeyFacts(cfg: Config, d: Data, rows: seq<Observation>, k: Key): seq<Fact>
    requires cfg.Valid() && forall o <- rows :: o.probe in d.probes
  {
    if rows == [] then []
    else KeyFacts(cfg, d, rows[..|rows| - 1], k) + Contribution(cfg, d, rows[|rows| - 1], k)
  }

  /** What one observation adds to the bucket `k`: nothing, or its fact. */
  function Contribution(cfg: Config, d: Data, o: Observation, k: Key): seq<Fact>
    requires cfg.Valid() && o.probe in d.probes
  {
    var fact := FactOf(cfg, d, o);
    if fact.Some? && fact.value.key == k then [fact.value] else []
  }

  /** The row a from-scratch rollup of the current data gives bucket `k`. */
  function Fresh(cfg: Config, d: Data, k: Key): Option<Row>
    requires cfg.Valid() && Valid(d)
  {
    var facts := KeyFacts(cfg, d, d.observations, k);
    if facts == [] then None else Some(Aggregate(facts))
  }

  // ---------------------------------------------------------------------------
  // Whole buckets.

  lemma MultipleMonotone(a: int, b: int, width: int)
    requires a <= b && width > 0
    ensures a * width <= b * width
  {
  }

  lemma QuotientBounds(t: int, width: int)
    requires width > 0
    ensures t / width * width <= t < (t / width + 1) * width
  {
  }

  lemma MultipleBelow(a: int, t: int, width: int)
    requires width > 0
    ensures a * width <= t <==> a <= t / width
    ensures a * width <= t / width * width <==> a <= t / width
  {
    var q := t / width;
    QuotientBounds(t, width);
    if a <= q {
      MultipleMonotone(a, q, width);
    } else {
      MultipleMonotone(q + 1, a, width);
    }
  }

  /** A rolled range never cuts a bucket in two: a time is inside exactly when its bucket is. */
  lemma WindowHoldsWholeBuckets(cfg: Config, from: int, to: Option<int>, t: int)
    requires cfg.Valid()
    ensures WindowRange(cfg, from, to).Holds(t) <==> WindowRange(cfg, from, to).Holds(Bucket(t, cfg.width))
    ensures from <= t && (to.Some? ==> t <= to.value) ==> WindowRange(cfg, from, to).Holds(t)
  {
    var w := cfg.width;
    MultipleBelow(from / w, t, w);
    MultipleBelow(from / w, from, w);
    if to.Some? {
      MultipleBelow(to.value / w + 1, t, w);
      MultipleBelow(to.value / w + 1, to.value, w);
    }
  }

  lemma {:induction false} GroupJoin<T, B>(s: seq<T>, t: seq<T>, group: T -> B, b: B)
    ensures Group(s + t, group, b) == Group(s, group, b) + Group(t, group, b)
  {
    if t == [] {
      assert s + t == s;
    } else {
      assert (s + t)[..|s + t| - 1] == s + t[..|t| - 1];
      GroupJoin(s, t[..|t| - 1], group, b);
    }
  }

  lemma GroupOfSelected(cfg: Config, d: Data, o: Observation, from: int, to: Option<int>, deployment: Option<DeploymentId>, k: Key)
    requires cfg.Valid() && o.probe in d.probes
    ensures var w := WindowRange(cfg, from, to);
            Group(Selected(cfg, d, o, w, deployment), KeyOf, k)
            == if Targeted(cfg, w, deployment, k) then Contribution(cfg, d, o, k) else []
  {
    WindowHoldsWholeBuckets(cfg, from, to, d.probes[o.probe].dispatchedAt);
  }

  lemma {:induction false} GroupOfWindow(cfg: Config, d: Data, rows: seq<Observation>, from: int, to: Option<int>,
                                         deployment: Option<DeploymentId>, k: Key)
    requires cfg.Valid() && forall o <- rows :: o.probe in d.probes
    ensures var w := WindowRange(cfg, from, to);
            Group(FactsIn(cfg, d, rows, w, deployment), KeyOf, k)
            == if Targeted(cfg, w, deployment, k) then KeyFacts(cfg, d, rows, k) else []
  {
    if rows != [] {
      var init, o := rows[..|rows| - 1], rows[|rows| - 1];
      var w := WindowRange(cfg, from, to);
      GroupOfWindow(cfg, d, init, from, to, deployment, k);
      GroupOfSelected(cfg, d, o, from, to, deployment, k);
      GroupJoin(FactsIn(cfg, d, init, w, deployment), Selected(cfg, d, o, w, deployment), KeyOf, k);
    }
  }

  lemma {:induction false} GroupMember<T, B>(s: seq<T>, group: T -> B, b: B)
    ensures Group(s, group, b) != [] <==> exists x :: x in s && group(x) == b
  {
    if s != [] {
      GroupMember(s[..|s| - 1], group, b);
      assert forall x :: x in s <==> x in s[..|s| - 1] || x == s[|s| - 1];
    }
  }

  lemma {:induction false} CountPositive(group: seq<Fact>, p: Fact -> bool, f: Fact)
    requires f in group && p(f)
    ensures Count(group, p) > 0
  {
    var init := group[..|group| - 1];
    if f != group[|group| - 1] {
      assert f in init;
      CountPositive(init, p, f);
    }
  }

  lemma {:induction false} CountNone(group: seq<Fact>, p: Fact -> bool)
    requires forall f <- group :: !p(f)
    ensures Count(group, p) == 0
  {
    if group != [] {
      assert group[|group| - 1] in group && forall f <- group[..|group| - 1] :: f in group;
      CountNone(group[..|group| - 1], p);
    }
  }

  lemma {:induction false} FactIsAmongItsKeys(cfg: Config, d: Data, rows: seq<Observation>, o: Observation)
    requires cfg.Valid() && o in rows && forall q <- rows :: q.probe in d.probes
    requires FactOf(cfg, d, o).Some?
    ensures FactOf(cfg, d, o).value in KeyFacts(cfg, d, rows, FactOf(cfg, d, o).value.key)
  {
    if rows[|rows| - 1] != o {
      FactIsAmongItsKeys(cfg, d, rows[..|rows| - 1], o);
    }
  }

  lemma {:induction false} KeyFactsAreOfAnswers(cfg: Config, d: Data, rows: seq<Observation>, k: Key, f: Fact)
    requires cfg.Valid() && forall o <- rows :: o.probe in d.probes
    requires f in KeyFacts(cfg, d, rows, k)
    ensures f.key == k && exists o :: o in rows && FactOf(cfg, d, o) == Some(f)
  {
    var init, o := rows[..|rows| - 1], rows[|rows| - 1];
    assert o in rows && forall q <- init :: q in rows;
    if f in KeyFacts(cfg, d, init, k) { KeyFactsAreOfAnswers(cfg, d, init, k, f); }
  }

  lemma GroupedRow(facts: seq<Fact>, k: Key)
    ensures var group := Group(facts, KeyOf, k);
            Lookup(GroupRows(facts), k) == if group == [] then None else Some(Aggregate(group))
  {
    GroupMember(facts, KeyOf, k);
    assert k in GroupRows(facts) <==> exists f :: f in facts && KeyOf(f) == k;
  }

  lemma Upserted(qos: Table, stale: set<Key>, agg: Table, k: Key)
    ensures Lookup((qos - stale) + agg, k)
         == if k in agg then Lookup(agg, k) else if k in stale then None else Lookup(qos, k)
  {
  }

  /** One rollup statement makes the widened range exactly a from-scratch rollup, and leaves every
      row outside it, of another deployment or at another width, as it was. */
  lemma RollRangeIsFresh(cfg: Config, d: Data, qos: Table, from: int, to: Option<int>,
                         deployment: Option<DeploymentId>, k: Key)
    requires cfg.Valid() && Valid(d)
    ensures Lookup(RollRange(cfg, d, qos, from, to, deployment), k)
         == if Targeted(cfg, WindowRange(cfg, from, to), deployment, k) then Fresh(cfg, d, k) else Lookup(qos, k)
  {
    var w := WindowRange(cfg, from, to);
    var facts := FactsIn(cfg, d, d.observations, w, deployment);
    var agg := GroupRows(facts);
    GroupOfWindow(cfg, d, d.observations, from, to, deployment, k);
    GroupedRow(facts, k);
    Upserted(qos, Vanished(cfg, qos, agg, w, deployment), agg, k);
  }

  // ---------------------------------------------------------------------------
  // Consequences: rolling again changes nothing, and adjoining ranges join.

  lemma SameLookups(a: Table, b: Table)
    requires forall k :: Lookup(a, k) == Lookup(b, k)
    ensures a == b
  {
    forall k
      ensures k in a <==> k in b
      ensures k in a ==> a[k] == b[k]
    {
      assert Lookup(a, k) == Lookup(b, k);
    }
  }

  lemma RollRangeIdempotent(cfg: Config, d: Data, qos: Table, from: int, to: Option<int>, deployment: Option<DeploymentId>)
    requires cfg.Valid() && Valid(d)
    ensures var once := RollRange(cfg, d, qos, from, to, deployment);
            RollRange(cfg, d, once, from, to, deployment) == once
  {
    var once := RollRange(cfg, d, qos, from, to, deployment);
    var twice := RollRange(cfg, d, once, from, to, deployment);
    forall k
      ensures Lookup(twice, k) == Lookup(once, k)
    {
      RollRangeIsFresh(cfg, d, qos, from, to, deployment, k);
      RollRangeIsFresh(cfg, d, once, from, to, deployment, k);
    }
    SameLookups(twice, once);
  }

  lemma QuotientMonotone(a: int, b: int, width: int)
    requires a <= b && width > 0
    ensures a / width <= b / width
  {
    MultipleBelow(a / width, b, width);
    MultipleBelow(a / width, a, width);
  }

  lemma NextQuotient(a: int, width: int)
    requires width > 0
    ensures (a + 1) / width <= a / width + 1
  {
    var q := a / width;
    MultipleBelow(q + 1, a, width);
    MultipleBelow(q + 2, a + 1, width);
    assert (q + 2) * width == (q + 1) * width + width;
  }

  /** Two ranges that adjoin, widened to whole buckets, cover exactly the joined range widened. */
  lemma WindowsJoin(cfg: Config, from: int, mid: int, to: int, t: int)
    requires cfg.Valid() && from <= mid <= to
    ensures WindowRange(cfg, from, Some(to)).Holds(t)
       <==> WindowRange(cfg, from, Some(mid)).Holds(t) || WindowRange(cfg, mid + 1, Some(to)).Holds(t)
  {
    var w := cfg.width;
    QuotientMonotone(from, mid + 1, w);
    QuotientMonotone(mid, to, w);
    NextQuotient(mid, w);
    MultipleMonotone(from / w, (mid + 1) / w, w);
    MultipleMonotone((mid + 1) / w, mid / w + 1, w);
    MultipleMonotone(mid / w + 1, to / w + 1, w);
  }

  lemma RollRangesJoinAt(cfg: Config, d: Data, qos: Table, from: int, mid: int, to: int, k: Key)
    requires cfg.Valid() && Valid(d) && from <= mid <= to
    ensures Lookup(RollRange(cfg, d, RollRange(cfg, d, qos, from, Some(mid), None), mid + 1, Some(to), None), k)
         == Lookup(RollRange(cfg, d, qos, from, Some(to), None), k)
  {
    var first := RollRange(cfg, d, qos, from, Some(mid), None);
    RollRangeIsFresh(cfg, d, qos, from, Some(mid), None, k);
    RollRangeIsFresh(cfg, d, first, mid + 1, Some(to), None, k);
    RollRangeIsFresh(cfg, d, qos, from, Some(to), None, k);
    WindowsJoin(cfg, from, mid, to, k.start);
  }

  /** Rolling a range in two adjoining parts is rolling it whole. */
  lemma RollRangesJoin(cfg: Config, d: Data, qos: Table, from: int, mid: int, to: int)
    requires cfg.Valid() && Valid(d) && from <= mid <= to
    ensures RollRange(cfg, d, RollRange(cfg, d, qos, from, Some(mid), None), mid + 1, Some(to), None)
         == RollRange(cfg, d, qos, from, Some(to), None)
  {
    var parts := RollRange(cfg, d, RollRange(cfg, d, qos, from, Some(mid), None), mid + 1, Some(to), None);
    var whole := RollRange(cfg, d, qos, from, Some(to), None);
    forall k
      ensures Lookup(parts, k) == Lookup(whole, k)
    {
      RollRangesJoinAt(cfg, d, qos, from, mid, to, k);
    }
    SameLookups(parts, whole);
  }
}
