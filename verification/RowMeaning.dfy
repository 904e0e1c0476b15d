/** What every column of a bucket row says about the stored answers, told without the rollup's own vocabulary. */
module RowMeaning {
  import opened Prelude
  import opened Tables
  import opened Judgement
  import opened Rollup

  // ---------------------------------------------------------------------------
  // Which answers a bucket counts.

  /** A refusal of our payment. */
  predicate Refused(o: Observation) {
    o.error.Some? && |o.error.value| >= 8 && o.error.value[..8] == "payment_"
  }

  /** The indexer an answer is put down to: the owner its key resolves to, or else, when it was paid for, its
      sender. */
  predicate Owns(d: Data, o: Observation, ix: Address) {
    if o.address in d.attribution && d.attribution[o.address].Some? then d.attribution[o.address].value == ix
    else o.mode == Paid && o.address == ix
  }

  predicate InTime(k: Key, t: int)
    requires k.width > 0
  {
    k.start % k.width == 0 && k.start <= t < k.start + k.width
  }

  predicate Counts(cfg: Config, d: Data, o: Observation, k: Key)
    requires cfg.Valid() && o.probe in d.probes
  {
    && k.width == cfg.width && InTime(k, d.probes[o.probe].dispatchedAt)
    && d.probes[o.probe].deployment == k.deployment && Owns(d, o, k.indexer) && !Refused(o)
  }

  /** The answers bucket `k` counts, in order. */
  function Answers(cfg: Config, d: Data, rows: seq<Observation>, k: Key): seq<Observation>
    requires cfg.Valid() && forall o <- rows :: o.probe in d.probes
  {
    if rows == [] then []
    else Answers(cfg, d, rows[..|rows| - 1], k) + (if Counts(cfg, d, rows[|rows| - 1], k) then [rows[|rows| - 1]] else [])
  }

  lemma RefusedIsPaymentError(o: Observation)
    ensures Refused(o) <==> IsPaymentError(o.error)
  {
  }

  lemma OwnsIsIdentity(d: Data, o: Observation, ix: Address)
    ensures Owns(d, o, ix) <==> Identity(d, o) == Some(ix)
  {
  }

  lemma BucketIsInTime(start: int, t: int, width: int)
    requires width > 0
    ensures Bucket(t, width) == start <==> start % width == 0 && start <= t < start + width
  {
    var q := start / width;
    QuotientBounds(t, width);
    if start % width == 0 {
      assert start == q * width;
      MultipleBelow(q, t, width);
      MultipleBelow(q + 1, t, width);
      Widen(q, width);
    }
    MultipleIsWhole(t / width, width);
    Widen(t / width, width);
  }

  lemma Widen(q: int, width: int)
    ensures (q + 1) * width == q * width + width
  {
  }

  lemma MultipleIsWhole(q: int, width: int)
    requires width > 0
    ensures q * width % width == 0
  {
    QuotientBounds(q * width, width);
    var n := q * width / width;
    MultipleBelow(q, q * width, width);
    if n > q {
      MultipleMonotone(q + 1, n, width);
      Widen(q, width);
    }
    assert n == q;
  }

  lemma CountsIsFact(cfg: Config, d: Data, o: Observation, k: Key)
    requires cfg.Valid() && o.probe in d.probes
    ensures Counts(cfg, d, o, k) <==> FactOf(cfg, d, o).Some? && FactOf(cfg, d, o).value.key == k
  {
    BucketIsInTime(k.start, d.probes[o.probe].dispatchedAt, cfg.width);
    RefusedIsPaymentError(o);
    OwnsIsIdentity(d, o, k.indexer);
  }

  /** The facts of a bucket are those of the answers it counts, one for one. */
  ghost predicate OneForOne(cfg: Config, d: Data, answers: seq<Observation>, facts: seq<Fact>)
    requires cfg.Valid() && forall o <- answers :: o.probe in d.probes
  {
    |facts| == |answers| && forall i | 0 <= i < |facts| :: Some(facts[i]) == FactOf(cfg, d, answers[i])
  }

  lemma {:induction false} FactsOfAnswers(cfg: Config, d: Data, rows: seq<Observation>, k: Key)
    requires cfg.Valid() && forall o <- rows :: o.probe in d.probes
    ensures forall o <- Answers(cfg, d, rows, k) :: o in rows && Counts(cfg, d, o, k)
    ensures OneForOne(cfg, d, Answers(cfg, d, rows, k), KeyFacts(cfg, d, rows, k))
  {
    if rows != [] {
      var init, o := rows[..|rows| - 1], rows[|rows| - 1];
      assert o in rows && forall q <- init :: q in rows;
      FactsOfAnswers(cfg, d, init, k);
      CountsIsFact(cfg, d, o, k);
    }
  }

  lemma {:induction false} AnswersAreCounted(cfg: Config, d: Data, rows: seq<Observation>, k: Key, o: Observation)
    requires cfg.Valid() && forall q <- rows :: q.probe in d.probes
    requires o in rows && Counts(cfg, d, o, k)
    ensures o in Answers(cfg, d, rows, k)
  {
    if o != rows[|rows| - 1] { AnswersAreCounted(cfg, d, rows[..|rows| - 1], k, o); }
  }

  // ---------------------------------------------------------------------------
  // Counts and sums over answers.

  function Tally(rows: seq<Observation>, p: Observation -> bool): nat {
    if rows == [] then 0 else Tally(rows[..|rows| - 1], p) + (if p(rows[|rows| - 1]) then 1 else 0)
  }

  /** The sum of what is there to sum. */
  function Sum(rows: seq<Observation>, value: Observation -> Option<int>): int {
    if rows == [] then 0 else Sum(rows[..|rows| - 1], value) + value(rows[|rows| - 1]).GetOr(0)
  }

  lemma {:induction false} CountIsTally(facts: seq<Fact>, p: Fact -> bool, rows: seq<Observation>, q: Observation -> bool)
    requires |facts| == |rows| && forall i | 0 <= i < |facts| :: p(facts[i]) == q(rows[i])
    ensures Count(facts, p) == Tally(rows, q)
  {
    if facts != [] { CountIsTally(facts[..|facts| - 1], p, rows[..|rows| - 1], q); }
  }

  lemma {:induction false} TotalIsSum(facts: seq<Fact>, value: Fact -> Option<int>,
                                      rows: seq<Observation>, worth: Observation -> Option<int>)
    requires |facts| == |rows| && forall i | 0 <= i < |facts| :: value(facts[i]) == worth(rows[i])
    ensures Total(facts, value) == Sum(rows, worth)
  {
    if facts != [] { TotalIsSum(facts[..|facts| - 1], value, rows[..|rows| - 1], worth); }
  }

  function Present(worth: Observation -> Option<int>): Observation -> bool {
    (o: Observation) => worth(o).Some?
  }

  /** `avg` is the mean of what is there to average, and None over nothing. */
  predicate IsMean(avg: Option<real>, rows: seq<Observation>, worth: Observation -> Option<int>) {
    var n := Tally(rows, Present(worth));
    if n == 0 then avg.None? else avg.Some? && avg.value * n as real == Sum(rows, worth) as real
  }

  /** `most` is the greatest of what is there, and None when there is nothing. */
  predicate IsGreatest(most: Option<int>, rows: seq<Observation>, worth: Observation -> Option<int>) {
    && (most.None? ==> forall o <- rows :: worth(o).None?)
    && (most.Some? ==> (exists o <- rows :: worth(o) == most) && forall o <- rows :: worth(o).Some? ==> worth(o).value <= most.value)
  }

  lemma AverageIsMean(facts: seq<Fact>, value: Fact -> Option<int>, rows: seq<Observation>, worth: Observation -> Option<int>)
    requires |facts| == |rows| && forall i | 0 <= i < |facts| :: value(facts[i]) == worth(rows[i])
    ensures IsMean(Average(facts, value), rows, worth)
  {
    TotalIsSum(facts, value, rows, worth);
    CountIsTally(facts, HasValue(value), rows, Present(worth));
    var n := Count(facts, HasValue(value));
    if n > 0 { QuotientTimes(Total(facts, value) as real, n as real); }
  }

  lemma QuotientTimes(x: real, n: real)
    requires n > 0.0
    ensures x / n * n == x
  {
  }

  lemma {:induction false} GreatestIsGreatest(facts: seq<Fact>, value: Fact -> Option<int>,
                                              rows: seq<Observation>, worth: Observation -> Option<int>)
    requires |facts| == |rows| && forall i | 0 <= i < |facts| :: value(facts[i]) == worth(rows[i])
    ensures IsGreatest(Greatest(facts, value), rows, worth)
  {
    if facts != [] {
      var init, last := rows[..|rows| - 1], rows[|rows| - 1];
      GreatestIsGreatest(facts[..|facts| - 1], value, init, worth);
      assert last in rows && forall o :: o in rows <==> o in init || o == last;
    }
  }

  // ---------------------------------------------------------------------------
  // Queries, successes and latency.

  /** The answer was an HTTP 200 without an error. */
  predicate Worked(o: Observation) {
    o.error.None? && o.status == Some(200)
  }

  function WorkedIn(o: Observation): Option<int> {
    if Worked(o) then o.latency else None
  }

  /** A bucket has a row exactly when it counts an answer, and the row counts them. */
  lemma QueriesMean(cfg: Config, d: Data, k: Key)
    requires cfg.Valid() && Valid(d)
    ensures var row, answers := Fresh(cfg, d, k), Answers(cfg, d, d.observations, k);
            && (row.Some? <==> exists o :: o in d.observations && Counts(cfg, d, o, k))
            && (row.Some? ==> row.value.queries == |answers| && row.value.ok == Tally(answers, Worked))
  {
    var answers, facts := Answers(cfg, d, d.observations, k), KeyFacts(cfg, d, d.observations, k);
    FactsOfAnswers(cfg, d, d.observations, k);
    CountIsTally(facts, Succeeded, answers, Worked);
    if facts != [] { assert answers[0] in answers; }
    if o :| o in d.observations && Counts(cfg, d, o, k) { AnswersAreCounted(cfg, d, d.observations, k, o); }
  }

  /** The latency columns are over the answers that worked, and skip those without a latency. */
  lemma LatencyMeans(cfg: Config, d: Data, k: Key)
    requires cfg.Valid() && Valid(d) && Fresh(cfg, d, k).Some?
    ensures var row, answers := Fresh(cfg, d, k).value, Answers(cfg, d, d.observations, k);
            IsMean(row.avgLatency, answers, WorkedIn) && IsGreatest(row.maxLatency, answers, WorkedIn)
  {
    var answers, facts := Answers(cfg, d, d.observations, k), KeyFacts(cfg, d, d.observations, k);
    FactsOfAnswers(cfg, d, d.observations, k);
    AverageIsMean(facts, Latency, answers, WorkedIn);
    GreatestIsGreatest(facts, Latency, answers, WorkedIn);
  }

  // ---------------------------------------------------------------------------
  // Blocks behind.

  /** The chain head when the answer's probe was created. */
  function Head(cfg: Config, d: Data, o: Observation): int
    requires o.probe in d.probes
  {
    d.probes[o.probe].blockNumber + cfg.chainheadOffset
  }

  /** A counted answer that says which block it was at. */
  predicate Reports(cfg: Config, d: Data, o: Observation, k: Key)
    requires cfg.Valid() && Valid(d)
  {
    o in d.observations && Counts(cfg, d, o, k) && o.metaBlock.Some?
  }

  /** How far behind a reporting answer is, one ahead of the head not at all. */
  function LagOf(cfg: Config, d: Data, o: Observation): nat
    requires o.probe in d.probes && o.metaBlock.Some?
  {
    if o.metaBlock.value < Head(cfg, d, o) then Head(cfg, d, o) - o.metaBlock.value else 0
  }

  function Lag(cfg: Config, d: Data): Observation -> Option<int> {
    (o: Observation) => if o.metaBlock.None? || o.probe !in d.probes then None else Some(LagOf(cfg, d, o))
  }

  lemma BehindColumns(cfg: Config, d: Data, k: Key)
    requires cfg.Valid() && Valid(d) && Fresh(cfg, d, k).Some?
    ensures var row, answers := Fresh(cfg, d, k).value, Answers(cfg, d, d.observations, k);
            IsMean(row.avgBehind, answers, Lag(cfg, d)) && IsGreatest(row.maxBehind, answers, Lag(cfg, d))
  {
    var answers, facts := Answers(cfg, d, d.observations, k), KeyFacts(cfg, d, d.observations, k);
    FactsOfAnswers(cfg, d, d.observations, k);
    forall i | 0 <= i < |facts|
      ensures BlocksBehind(facts[i]) == Lag(cfg, d)(answers[i])
    {
      assert answers[i] in answers;
    }
    AverageIsMean(facts, BlocksBehind, answers, Lag(cfg, d));
    GreatestIsGreatest(facts, BlocksBehind, answers, Lag(cfg, d));
  }

  lemma AnswerIffCounted(cfg: Config, d: Data, k: Key, o: Observation)
    requires cfg.Valid() && Valid(d)
    ensures o in Answers(cfg, d, d.observations, k) <==> o in d.observations && Counts(cfg, d, o, k)
  {
    FactsOfAnswers(cfg, d, d.observations, k);
    if o in d.observations && Counts(cfg, d, o, k) { AnswersAreCounted(cfg, d, d.observations, k, o); }
  }

  ghost predicate GreatestLag(cfg: Config, d: Data, k: Key, most: Option<int>)
    requires cfg.Valid() && Valid(d)
  {
    && (most.None? ==> forall o :: !Reports(cfg, d, o, k))
    && (most.Some? ==> (exists o :: Reports(cfg, d, o, k) && LagOf(cfg, d, o) == most.value)
                       && forall o | Reports(cfg, d, o, k) :: LagOf(cfg, d, o) <= most.value)
  }

  lemma MaxBehindIsGreatest(cfg: Config, d: Data, k: Key)
    requires cfg.Valid() && Valid(d) && Fresh(cfg, d, k).Some?
    ensures GreatestLag(cfg, d, k, Fresh(cfg, d, k).value.maxBehind)
  {
    BehindColumns(cfg, d, k);
    var answers := Answers(cfg, d, d.observations, k);
    forall o
      ensures Reports(cfg, d, o, k) ==> o in answers && Lag(cfg, d)(o) == Some(LagOf(cfg, d, o))
      ensures o in answers && Lag(cfg, d)(o).Some? ==> Reports(cfg, d, o, k)
    {
      AnswerIffCounted(cfg, d, k, o);
    }
  }

  lemma ZeroLag(cfg: Config, d: Data, k: Key, most: Option<int>)
    requires cfg.Valid() && Valid(d) && GreatestLag(cfg, d, k, most)
    ensures most == Some(0) <==>
              (exists o :: Reports(cfg, d, o, k)) && forall o | Reports(cfg, d, o, k) :: o.metaBlock.value >= Head(cfg, d, o)
  {
  }

  lemma PositiveLag(cfg: Config, d: Data, k: Key, most: Option<int>, n: int)
    requires cfg.Valid() && Valid(d) && GreatestLag(cfg, d, k, most) && n > 0
    ensures most == Some(n) <==>
              && (exists o :: Reports(cfg, d, o, k) && o.metaBlock.value + n == Head(cfg, d, o))
              && forall o | Reports(cfg, d, o, k) :: Head(cfg, d, o) - o.metaBlock.value <= n
  {
  }

  /** The greatest lag in a row: none when no counted answer reports a block, zero when every one that does is at
      the head or past it, and otherwise the distance of the one furthest behind. */
  lemma MaxBehindMeans(cfg: Config, d: Data, k: Key)
    requires cfg.Valid() && Valid(d) && Fresh(cfg, d, k).Some?
    ensures var most := Fresh(cfg, d, k).value.maxBehind;
            && (most.None? <==> forall o :: !Reports(cfg, d, o, k))
            && (most == Some(0) <==>
                  (exists o :: Reports(cfg, d, o, k)) && forall o | Reports(cfg, d, o, k) :: o.metaBlock.value >= Head(cfg, d, o))
            && forall n: int | n > 0 :: most == Some(n) <==>
                  && (exists o :: Reports(cfg, d, o, k) && o.metaBlock.value + n == Head(cfg, d, o))
                  && forall o | Reports(cfg, d, o, k) :: Head(cfg, d, o) - o.metaBlock.value <= n
  {
    var most := Fresh(cfg, d, k).value.maxBehind;
    MaxBehindIsGreatest(cfg, d, k);
    ZeroLag(cfg, d, k, most);
    forall n: int | n > 0
      ensures most == Some(n) <==>
                && (exists o :: Reports(cfg, d, o, k) && o.metaBlock.value + n == Head(cfg, d, o))
                && forall o | Reports(cfg, d, o, k) :: Head(cfg, d, o) - o.metaBlock.value <= n
    {
      PositiveLag(cfg, d, k, most, n);
    }
  }

  // ---------------------------------------------------------------------------
  // Judgement.

  predicate HasHash(o: Observation) { o.hash.Some? }

  function Respond(id: ProbeId): Observation -> bool {
    (o: Observation) => o.probe == id && o.hash.Some?
  }

  /** More than half of a probe's stored responses carry the hash on record for it. */
  predicate Settled(d: Data, id: ProbeId) {
    id in d.divergence && 2 * d.divergence[id].size > Tally(d.observations, Respond(id))
  }

  function Compared(d: Data): Observation -> bool {
    (o: Observation) => o.hash.Some? && Settled(d, o.probe) && (o.probe in d.probes ==> d.probes[o.probe].deployment !in d.nondeterministic)
  }

  function Wrong(d: Data): Observation -> bool {
    (o: Observation) => Compared(d)(o) && o.probe in d.divergence && o.hash != Some(d.divergence[o.probe].hash)
  }

  lemma {:induction false} RespondersAreTallied(rows: seq<Observation>, id: ProbeId)
    ensures Responders(rows, id) == Tally(rows, Respond(id))
  {
    if rows != [] { RespondersAreTallied(rows[..|rows| - 1], id); }
  }

  lemma JudgedAsTold(cfg: Config, d: Data, o: Observation)
    requires cfg.Valid() && o.probe in d.probes && FactOf(cfg, d, o).Some?
    ensures FactOf(cfg, d, o).value.comparable == Compared(d)(o)
    ensures FactOf(cfg, d, o).value.divergent == Wrong(d)(o)
  {
    RespondersAreTallied(d.observations, o.probe);
  }

  /** `share` is `part` over `whole`, and None over nothing. */
  predicate IsShare(share: Option<real>, part: int, whole: int) {
    if whole == 0 then share.None? else share.Some? && share.value * whole as real == part as real
  }

  lemma JudgedColumns(cfg: Config, d: Data, k: Key)
    requires cfg.Valid() && Valid(d) && Fresh(cfg, d, k).Some?
    ensures var row, answers := Fresh(cfg, d, k).value, Answers(cfg, d, d.observations, k);
            && row.comparable == Tally(answers, Compared(d)) && row.divergent == Tally(answers, Wrong(d))
            && row.correctness == Rate(row.divergent, row.comparable)
  {
    var answers, facts := Answers(cfg, d, d.observations, k), KeyFacts(cfg, d, d.observations, k);
    FactsOfAnswers(cfg, d, d.observations, k);
    forall i | 0 <= i < |facts|
      ensures IsComparable(facts[i]) == Compared(d)(answers[i]) && IsDivergent(facts[i]) == Wrong(d)(answers[i])
    {
      assert answers[i] in answers;
      JudgedAsTold(cfg, d, answers[i]);
    }
    CountIsTally(facts, IsComparable, answers, Compared(d));
    CountIsTally(facts, IsDivergent, answers, Wrong(d));
  }

  /** What is compared is the responses on unflagged deployments to probes with a clear majority; wrong are those
      of another hash than the majority's; and correctness is the share that is not wrong. */
  lemma JudgementMeans(cfg: Config, d: Data, k: Key)
    requires cfg.Valid() && Valid(d) && Fresh(cfg, d, k).Some?
    ensures var row, answers := Fresh(cfg, d, k).value, Answers(cfg, d, d.observations, k);
            && row.comparable == Tally(answers, Compared(d)) && row.divergent == Tally(answers, Wrong(d))
            && row.divergent <= row.comparable && IsShare(row.correctness, row.comparable - row.divergent, row.comparable)
  {
    JudgedColumns(cfg, d, k);
    FewerWrong(d, Answers(cfg, d, d.observations, k));
    RateIsShare(Fresh(cfg, d, k).value.divergent, Fresh(cfg, d, k).value.comparable);
  }

  lemma {:induction false} FewerWrong(d: Data, rows: seq<Observation>)
    ensures Tally(rows, Wrong(d)) <= Tally(rows, Compared(d))
  {
    if rows != [] { FewerWrong(d, rows[..|rows| - 1]); }
  }

  lemma RateIsShare(divergent: nat, comparable: nat)
    ensures IsShare(Rate(divergent, comparable), comparable - divergent, comparable)
  {
    if comparable > 0 { QuotientTimes(divergent as real, comparable as real); }
  }
}
