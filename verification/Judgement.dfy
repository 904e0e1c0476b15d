/** Whose an answer is, and whether it was wrong: the three SQL texts that decide it, written out
    separately as the source does, and the proof that they decide the same thing. */
module Judgement {
  import opened Prelude
  import opened Tables

  // ---------------------------------------------------------------------------
  // Identity, common to all three.

  function Mapped(d: Data, address: Address): Option<Address> {
    if address in d.attribution then d.attribution[address] else None
  }

  /** `COALESCE(am.indexer_address, o.indexer_address)`, None for a row the WHERE clause drops: an
      answer that resolves to no indexer and was not paid for. */
  function Identity(d: Data, o: Observation): Option<Address> {
    var mapped := Mapped(d, o.address);
    if mapped.Some? then mapped else if o.mode == Paid then Some(o.address) else None
  }

  /** A refusal of our payment, a fact about our escrow and not about the indexer. */
  predicate IsPaymentError(error: Option<string>) {
    error.Some? && "payment_" <= error.value
  }

  predicate Admitted(d: Data, o: Observation) {
    Identity(d, o).Some? && !IsPaymentError(o.error)
  }

  /** `COUNT(*) FILTER (WHERE response_hash IS NOT NULL)` for one probe. */
  function Responders(observations: seq<Observation>, probe: ProbeId): nat {
    if observations == [] then 0
    else
      var o := observations[|observations| - 1];
      Responders(observations[..|observations| - 1], probe)
      + (if o.probe == probe && o.hash.Some? then 1 else 0)
  }

  function LargestHash(d: Data, probe: ProbeId): Option<Hash> {
    if probe in d.divergence then Some(d.divergence[probe].hash) else None
  }

  function LargestSizeTwice(d: Data, probe: ProbeId): Option<int> {
    if probe in d.divergence then Some(d.divergence[probe].size * 2) else None
  }

  function MoreThanHalf(d: Data, probe: ProbeId): Truth {
    Greater(LargestSizeTwice(d, probe), Some(Responders(d.observations, probe)))
  }

  // ---------------------------------------------------------------------------
  // The rollup's columns (qos.rs).

  predicate ClearMajority(d: Data, probe: ProbeId) {
    Coalesce(MoreThanHalf(d, probe), false)
  }

  predicate Flagged(d: Data, o: Observation)
    requires o.probe in d.probes
  {
    d.probes[o.probe].deployment in d.nondeterministic
  }

  predicate RollupComparable(d: Data, o: Observation)
    requires o.probe in d.probes
  {
    o.hash.Some? && ClearMajority(d, o.probe) && !Flagged(d, o)
  }

  predicate RollupDivergent(d: Data, o: Observation)
    requires o.probe in d.probes
  {
    Coalesce(And(Some(RollupComparable(d, o)), NotEqual(o.hash, LargestHash(d, o.probe))), false)
  }

  // ---------------------------------------------------------------------------
  // The scorer's filter (scorer.rs).

  predicate ScorerFault(d: Data, o: Observation)
    requires o.probe in d.probes
  {
    && o.probe in d.divergence
    && o.hash.Some?
    && Coalesce(And(NotEqual(o.hash, LargestHash(d, o.probe)), MoreThanHalf(d, o.probe)), false)
    && d.probes[o.probe].deployment !in d.nondeterministic
  }

  // ---------------------------------------------------------------------------
  // The shared definition (judged.rs).

  predicate JudgedFault(d: Data, o: Observation, excuse: bool)
    requires o.probe in d.probes
  {
    var wrong := And(NotEqual(o.hash, LargestHash(d, o.probe)), MoreThanHalf(d, o.probe));
    Coalesce(if excuse then And(wrong, Some(!Flagged(d, o))) else wrong, false)
  }

  /** The three texts name the same answers. */
  lemma ThreeJudgesAgree(d: Data, o: Observation)
    requires o.probe in d.probes
    ensures RollupDivergent(d, o) == ScorerFault(d, o) == JudgedFault(d, o, true)
    ensures JudgedFault(d, o, true) == (JudgedFault(d, o, false) && !Flagged(d, o))
  {
  }
}
