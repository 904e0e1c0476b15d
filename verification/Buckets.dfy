/** Adding bucket rows up again: sums over a set of buckets are sums over the facts in them. */
module Buckets {
  import opened Prelude
  import opened Tables
  import opened Rollup

  /** The facts whose bucket is one of `keys`, in insertion order. */
  function FactsOf(cfg: Config, d: Data, rows: seq<Observation>, keys: set<Key>): seq<Fact>
    requires cfg.Valid() && forall o <- rows :: o.probe in d.probes
  {
    if rows == [] then []
    else
      var fact := FactOf(cfg, d, rows[|rows| - 1]);
      FactsOf(cfg, d, rows[..|rows| - 1], keys)
      + (if fact.Some? && fact.value.key in keys then [fact.value] else [])
  }

  function BucketSum(cfg: Config, d: Data, rows: seq<Observation>, f: Fact -> int, k: Key): int
    requires cfg.Valid() && forall o <- rows :: o.probe in d.probes
  {
    SeqSum(KeyFacts(cfg, d, rows, k), f)
  }

  lemma BucketSumSnoc(cfg: Config, d: Data, rows: seq<Observation>, f: Fact -> int, k: Key)
    requires cfg.Valid() && rows != [] && forall o <- rows :: o.probe in d.probes
    ensures var fact := FactOf(cfg, d, rows[|rows| - 1]);
            BucketSum(cfg, d, rows, f, k)
            == BucketSum(cfg, d, rows[..|rows| - 1], f, k)
               + (if fact.Some? && fact.value.key == k then f(fact.value) else 0)
  {
    var before := KeyFacts(cfg, d, rows[..|rows| - 1], k);
    var fact := FactOf(cfg, d, rows[|rows| - 1]);
    if fact.Some? && fact.value.key == k {
      SeqSumSnoc(before, fact.value, f);
    } else {
      assert KeyFacts(cfg, d, rows, k) == before;
    }
  }

  /** Adding to one column entry adds to the sum, if the entry is summed. */
  lemma SumBump(keys: set<Key>, column: Key -> int, before: Key -> int, fact: Option<Fact>, f: Fact -> int)
    requires forall k :: before(k) == column(k) - (if fact.Some? && fact.value.key == k then f(fact.value) else 0)
    ensures Sum(keys, column) == Sum(keys, before) + (if fact.Some? && fact.value.key in keys then f(fact.value) else 0)
  {
  }

  lemma FactsSnoc(cfg: Config, d: Data, rows: seq<Observation>, keys: set<Key>, f: Fact -> int)
    requires cfg.Valid() && rows != [] && forall o <- rows :: o.probe in d.probes
    ensures var fact := FactOf(cfg, d, rows[|rows| - 1]);
      SeqSum(FactsOf(cfg, d, rows, keys), f)
      == SeqSum(FactsOf(cfg, d, rows[..|rows| - 1], keys), f)
         + (if fact.Some? && fact.value.key in keys then f(fact.value) else 0)
  {
    var before, fact := FactsOf(cfg, d, rows[..|rows| - 1], keys), FactOf(cfg, d, rows[|rows| - 1]);
    if fact.Some? && fact.value.key in keys {
      SeqSumSnoc(before, fact.value, f);
    } else {
      assert FactsOf(cfg, d, rows, keys) == before;
    }
  }

  /** Any column that adds up within buckets adds up across them. */
  lemma {:induction false} BucketsAddUp(cfg: Config, d: Data, rows: seq<Observation>, f: Fact -> int,
                                        keys: set<Key>, column: Key -> int)
    requires cfg.Valid() && forall o <- rows :: o.probe in d.probes
    requires forall k | k in keys :: column(k) == BucketSum(cfg, d, rows, f, k)
    ensures Sum(keys, column) == SeqSum(FactsOf(cfg, d, rows, keys), f)
  {
    if rows == [] {
      SumZero(keys, column);
    } else {
      var init, fact := rows[..|rows| - 1], FactOf(cfg, d, rows[|rows| - 1]);
      var before := (k: Key) => column(k) - (if fact.Some? && fact.value.key == k then f(fact.value) else 0);
      forall k | k in keys
        ensures before(k) == BucketSum(cfg, d, init, f, k)
      {
        BucketSumSnoc(cfg, d, rows, f, k);
      }
      BucketsAddUp(cfg, d, init, f, keys, before);
      SumBump(keys, column, before, fact, f);
      FactsSnoc(cfg, d, rows, keys, f);
    }
  }

  // ---------------------------------------------------------------------------
  // The columns of a fresh row as sums.

  function One(f: Fact): int { 1 }

  function Counted(p: Fact -> bool, f: Fact): int { if p(f) then 1 else 0 }

  lemma {:induction false} CountIsSum(group: seq<Fact>, p: Fact -> bool, f: Fact -> int)
    requires forall x :: f(x) == Counted(p, x)
    ensures SeqSum(group, f) == Count(group, p)
  {
    if group != [] {
      CountIsSum(group[..|group| - 1], p, f);
    }
  }

  lemma {:induction false} LengthIsSum(group: seq<Fact>)
    ensures SeqSum(group, One) == |group|
  {
    if group != [] {
      LengthIsSum(group[..|group| - 1]);
    }
  }

  predicate FreshRows(cfg: Config, d: Data, qos: Table, keys: set<Key>)
    requires cfg.Valid() && Valid(d)
  {
    forall k <- keys :: k in qos && Fresh(cfg, d, k) == Some(qos[k])
  }

  /** Counts of fresh rows over any set of buckets are counts of the facts in them. */
  lemma CountsAddUp(cfg: Config, d: Data, qos: Table, keys: set<Key>, p: Fact -> bool, column: Key -> int)
    requires cfg.Valid() && Valid(d) && FreshRows(cfg, d, qos, keys)
    requires forall k | k in keys :: column(k) == Count(KeyFacts(cfg, d, d.observations, k), p)
    ensures Sum(keys, column) == Count(FactsOf(cfg, d, d.observations, keys), p)
  {
    var f := x => Counted(p, x);
    forall k | k in keys
      ensures column(k) == BucketSum(cfg, d, d.observations, f, k)
    {
      CountIsSum(KeyFacts(cfg, d, d.observations, k), p, f);
    }
    BucketsAddUp(cfg, d, d.observations, f, keys, column);
    CountIsSum(FactsOf(cfg, d, d.observations, keys), p, f);
  }

  lemma QueriesAddUp(cfg: Config, d: Data, qos: Table, keys: set<Key>, column: Key -> int)
    requires cfg.Valid() && Valid(d) && FreshRows(cfg, d, qos, keys)
    requires forall k | k in keys :: column(k) == qos[k].queries
    ensures Sum(keys, column) == |FactsOf(cfg, d, d.observations, keys)|
  {
    forall k | k in keys
      ensures column(k) == BucketSum(cfg, d, d.observations, One, k)
    {
      LengthIsSum(KeyFacts(cfg, d, d.observations, k));
    }
    BucketsAddUp(cfg, d, d.observations, One, keys, column);
    LengthIsSum(FactsOf(cfg, d, d.observations, keys));
  }

  lemma {:induction false} FactsOfAreFacts(cfg: Config, d: Data, rows: seq<Observation>, keys: set<Key>, f: Fact)
    requires cfg.Valid() && forall o <- rows :: o.probe in d.probes
    ensures f in FactsOf(cfg, d, rows, keys) <==> f.key in keys && exists o :: o in rows && FactOf(cfg, d, o) == Some(f)
  {
    if rows != [] {
      FactsOfAreFacts(cfg, d, rows[..|rows| - 1], keys, f);
      assert forall o :: o in rows <==> o in rows[..|rows| - 1] || o == rows[|rows| - 1];
    }
  }
}
