/** The measurement tables: what a probe round stores and what later passes add to it. */
module Tables {
  import opened Prelude

  type Address = string
  type DeploymentId = string
  type ProbeId = int

  /** A lowercase hex SHA-256 of a canonical response: never empty. */
  type Hash = s: string | s != "" witness "0"

  datatype Dispatch = Paid | Gateway | Direct

  datatype Probe = Probe(deployment: DeploymentId, dispatchedAt: int, blockNumber: int)

  /** One answer as the executor returns it. `address` is the indexer itself when the probe was paid,
      and otherwise whatever key the gateway's attestation recovered to. */
  datatype Answer = Answer(
    address: Address,
    hash: Option<Hash>,
    latency: Option<int>,
    metaBlock: Option<int>,
    status: Option<int>,
    error: Option<string>,
    stake: real,
    mode: Dispatch)

  /** A stored answer; a probe holds at most one per address. */
  datatype Observation = Observation(
    probe: ProbeId,
    address: Address,
    hash: Option<Hash>,
    latency: Option<int>,
    metaBlock: Option<int>,
    status: Option<int>,
    error: Option<string>,
    mode: Dispatch)

  function Observed(probe: ProbeId, a: Answer): Observation {
    Observation(probe, a.address, a.hash, a.latency, a.metaBlock, a.status, a.error, a.mode)
  }

  /** The cluster row of a corroborated probe. */
  datatype Divergence = Divergence(hash: Hash, size: nat)

  datatype Data = Data(
    probes: map<ProbeId, Probe>,
    observations: seq<Observation>,
    attribution: map<Address, Option<Address>>,
    divergence: map<ProbeId, Divergence>,
    nondeterministic: set<DeploymentId>)

  /** Foreign keys: every observation and every cluster row belongs to a stored probe. */
  predicate Valid(d: Data) {
    && (forall o <- d.observations :: o.probe in d.probes)
    && (forall p <- d.divergence :: p in d.probes)
  }
}
