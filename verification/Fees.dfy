/** Ingesting the settlement log a page at a time, resuming from the highest block stored. */
module Fees {
  import opened Prelude

  /** Rows per pass; what is proved holds for any positive page size. */
  const PAGE: nat := 5000

  datatype Key = Key(block: int, index: int)

  datatype Settlement = Settlement(key: Key, indexer: string, deployment: string, tokens: string)

  type Ledger = map<Key, Settlement>

  predicate Before(a: Key, b: Key) {
    a.block < b.block || (a.block == b.block && a.index < b.index)
  }

  /** The log as the chain orders it; block zero holds no settlement. */
  predicate Ordered(log: seq<Settlement>) {
    && (forall i, j | 0 <= i < j < |log| :: Before(log[i].key, log[j].key))
    && (forall i | 0 <= i < |log| :: log[i].key.block > 0)
  }

  /** The log only grows, a whole number of blocks at a time. */
  predicate Grows(log: seq<Settlement>, later: seq<Settlement>) {
    && log <= later
    && forall i, j | 0 <= i < |log| <= j < |later| :: later[i].key.block < later[j].key.block
  }

  /** One pass: the log as it stands, whether the resume point can be read, whether the query is answered,
      and whether the transaction commits. */
  datatype Pass = Pass(log: seq<Settlement>, readable: bool, answers: bool, commits: bool)

  function Blocks(ledger: Ledger): set<int> {
    set k | k in ledger :: k.block
  }

  function MaxBlock(ledger: Ledger): int {
    if Blocks(ledger) == {} then 0 else Last(Blocks(ledger))
  }

  function Newer(log: seq<Settlement>, since: int): seq<Settlement> {
    if log == [] then []
    else (if log[0].key.block > since then [log[0]] else []) + Newer(log[1..], since)
  }

  function QueryFees(log: seq<Settlement>, since: int, limit: nat): (fees: seq<Settlement>)
    ensures |fees| <= limit
  {
    var newer := Newer(log, since);
    if |newer| <= limit then newer else newer[..limit]
  }

  /** Inserting a row whose key is taken does nothing. */
  function InsertAll(ledger: Ledger, fees: seq<Settlement>): Ledger {
    if fees == [] then ledger
    else
      var before, f := InsertAll(ledger, fees[..|fees| - 1]), fees[|fees| - 1];
      if f.key in before then before else before[f.key := f]
  }

  function Since(ledger: Ledger, pass: Pass): int {
    if pass.readable then MaxBlock(ledger) else 0
  }

  function Fetched(page: nat, ledger: Ledger, pass: Pass): seq<Settlement> {
    if pass.answers then QueryFees(pass.log, Since(ledger, pass), page) else []
  }

  function Ingested(page: nat, ledger: Ledger, pass: Pass): Ledger {
    if pass.commits then InsertAll(ledger, Fetched(page, ledger, pass)) else ledger
  }

  function Run(page: nat, ledger: Ledger, passes: seq<Pass>): Ledger {
    if passes == [] then ledger
    else Ingested(page, Run(page, ledger, passes[..|passes| - 1]), passes[|passes| - 1])
  }

  // ---------------------------------------------------------------------------
  // The loops.

  /** Rows a pass reports written, or None when the query or the transaction failed. */
  function Written(page: nat, ledger: Ledger, pass: Pass): Option<nat> {
    var fees := Fetched(page, ledger, pass);
    if pass.answers && (fees == [] || pass.commits) then Some(|fees|) else None
  }

  /** The `i`th pass wrote a whole page, so there may be more behind it. */
  predicate FullAt(page: nat, ledger: Ledger, passes: seq<Pass>, i: nat)
    requires i < |passes|
  {
    Written(page, Run(page, ledger, passes[..i]), passes[i]) == Some(page)
  }

  predicate FullUntil(page: nat, ledger: Ledger, passes: seq<Pass>, n: int)
    requires n <= |passes|
  {
    forall i | 0 <= i < n :: FullAt(page, ledger, passes, i)
  }

  lemma RunOneMore(page: nat, ledger: Ledger, passes: seq<Pass>, n: nat)
    requires n < |passes|
    ensures Run(page, ledger, passes[..n + 1]) == Ingested(page, Run(page, ledger, passes[..n]), passes[n])
  {
    assert passes[..n + 1][..n] == passes[..n];
  }

  class Ingest {
    const page: nat
    var stored: Ledger

    constructor (page: nat)
      ensures this.page == page && stored == map[]
    {
      this.page := page;
      stored := map[];
    }

    method IngestOnce(pass: Pass) returns (written: Option<nat>)
      modifies `stored
      ensures stored == Ingested(page, old(stored), pass)
      ensures written == Written(page, old(stored), pass)
    {
      var since := Since(stored, pass);
      if !pass.answers { return None; }
      var fees := QueryFees(pass.log, since, page);
      if fees == [] { return Some(0); }
      var tx := stored;
      for i := 0 to |fees|
        invariant tx == InsertAll(stored, fees[..i])
      {
        var f := fees[i];
        assert fees[..i + 1][..i] == fees[..i];
        if f.key !in tx { tx := tx[f.key := f]; }
      }
      assert fees[..|fees|] == fees;
      if !pass.commits { return None; }
      stored := tx;
      written := Some(|fees|);
    }

    /** Drain the backlog: pages are fetched until one is short or fails, or the process dies, which is when
        `passes` runs out. */
    method Drain(passes: seq<Pass>) returns (used: nat)
      modifies `stored
      ensures used <= |passes| && stored == Run(page, old(stored), passes[..used])
      ensures FullUntil(page, old(stored), passes, used - 1)
      ensures 0 < used < |passes| ==> !FullAt(page, old(stored), passes, used - 1)
    {
      ghost var before := stored;
      used := 0;
      var more := true;
      while more && used < |passes|
        invariant used <= |passes| && stored == Run(page, before, passes[..used])
        invariant FullUntil(page, before, passes, used - 1)
        invariant used > 0 ==> more == FullAt(page, before, passes, used - 1)
        decreases |passes| - used
      {
        RunOneMore(page, before, passes, used);
        var written := IngestOnce(passes[used]);
        more := written.Some? && written.value >= page;
        used := used + 1;
      }
    }
  }
}
