# Foghorn, modelled and proved

Foghorn probes indexers, stores their answers, and derives from them a QoS feed, grades and public
accusations. This project models the parts of it that decide something and proves what they decide.
`dafny verify dfyconfig.toml` checks all of it. Modules named `…Meaning` say of every figure what it tells of the
measurements, in terms of their own, so that no definition is only ever compared with itself.

**The rollup as a maintained view** (`Tables`, `Rollup`, `Requests`, `RollupProtocol`, `RollupRuns`,
`RollupAborts`, `RollupExamples`, `RowMeaning`, `Database`, `Refinement`). The bucket table is a cache of an aggregation over probes, answers, key attributions and flags. `Rollup.Fresh` is what a
from-scratch aggregation gives a bucket; one rollup statement makes its widened range exactly that.
`RollupProtocol` is the system as steps, one SQL statement each: the probe scheduler, the resolver, the detector,
a drain loop that may crash between any two statements, a detector run that may be cut short, and a re-roll beside
it. In every reachable state, as long as no detector run was cut short where that loses something, a bucket that
differs from `Fresh` is covered by a live request the loop is not about to delete, or is owed one by the running
detector, or was written by a probe since it was last rolled; on a schedule that keeps to the lookback the last means
it is in the next trailing window. `RollupAborts` drops the proviso: in every state of every run, wherever detectors
were cut short, a bucket without a roll to come is stale exactly when it holds an answer that can be judged and its
deployment's flag has changed since it was last rolled. `RollupRuns` has the schedules and what becomes of a bucket no
schedule reaches; `RollupExamples` has two runs that lose one. `Database.Store` holds the same tables as fields and the
loops that update them; `Refinement` shows a pass of it to be an undisturbed run of the steps, and a full re-roll of it to
mend every reachable state.

**What a fault means** (`Dispatch`, `Judgement`, `Majority`, `Rounds`, `Detector`,
`DetectorMeaning`, `Grades`). Deduplication,
clustering, the storage gate and the three separately written SQL judgements come to one sentence: an answer is a
fault exactly when its round is stored in full and some other hash is held by strictly more than half of the probe's
deduplicated answers. It holds in every state of every run of the steps, whatever else comes between a round's
statements and wherever they stop.

**Adding up** (`Buckets`, `Daily`, `Grades`). When sums over bucket rows are what the observations themselves give.

**Swarms** (`Sybil`, `Swarm`, `LinkMeaning`). Union-find with path halving over an array computes exactly the connected components;
the swarms and their confidence do not depend on the order of the roster.

**Canonical JSON** (`Text`, `Canonical`, `CanonicalProofs`, `StripProofs`). Two values print alike exactly when they
are equal up to key order. The order is by code point, where section 3.2.3 of RFC 8785 sorts by UTF-16 code units,
and numbers are not normalised as its section 3.2.2.3 asks; nothing is claimed beyond what the code does.

**Alerting** (`Hysteresis`, `Alerter`, `Alerts`, `Subscriptions`). The debounce is "the last value held for K cycles";
the digest is posted at every unbroken cycle until a post of the committed roster is recorded; the subscription
differ loses nothing to failed posts, and repeats one that got through unrecorded.

**Scores** (`Score`, `ScoreProofs`, `ScoreMeaning`), **ids and payloads** (`Hex`, `Base58`, `Deployment`, `ServiceUrl`), **fees**
(`Fees`, `FeesProofs`). Range and monotonicity of the grade; CIDv0 ids; the ABI decoder; paged ingest.

Times are integers, `f64` is `real`, hashes are opaque non-empty strings, a float ratio over zero is what its clamp
makes of it. The network, the clock, the webhook and the database's failures are parameters.

## Where the code and what is said of it differ

- A late-arriving observation is said to converge to the same rows. On a schedule whose store delay and time between
  rollups are together at most the lookback every stale bucket always has a request or lies in the window the next
  pass rolls, and on no laxer schedule does every run keep to that (`RollupRuns.ScheduleReachesIff`). A bucket out of
  reach stays stale through any number of passes, detector runs and new probes (`RollupExamples.LateBucketIsLost`,
  `RollupRuns.ForsakenUntilTouched`), until its own probes, keys or flag change or a re-roll reaches it.
- A detector run that dies between writing a flag and enqueueing for it loses invalidations
  (`RollupExamples.AbortedDetectorLosesBuckets`), and another run on the same evidence finds nothing to do. It loses
  none exactly when every bucket of a deployment it owes for that holds a judgeable answer (an admitted answer with a
  hash, to a probe with a clear majority) has a roll to come or was rolled since the flag changed
  (`RollupAborts.AbortHarmlessIff`). Where nothing is queued or newly written and the rows are fresh under the flags
  it read, that is: when no deployment it owes for has a judgeable answer
  (`RollupAborts.AbortHarmlessIffNothingJudgeable`), as when no flag has changed
  (`RollupProtocol.NothingOwedIsHarmless`). Whatever the detector finds has one, so there a run that has flagged a new
  deployment and not yet enqueued for it always loses a bucket (`RollupAborts.AbortAfterFindingLoses`).
- The daily feed does not look at the bucket width. It is the day's own exactly when no other series has a row that
  day (`Daily.DailyIsExactIff`, `Daily.TwoSeriesCountTwice`).
- Bucket divergent counts exceed the scorer's faults exactly when one indexer is faulted twice on a probe
  (`Grades.FeedAndGradesAgree`), as two of its attestation keys can be (`Grades.TwoKeysAreTwoDivergents`).
- Crowding is called suggestive rather than proof, but reaches the threshold of a public verdict by itself
  (`Swarm.CrowdingAloneIsAVerdict`, and `Swarm.CrowdIsAVerdict` for a swarm with no other signal).
- A re-run of the fee ingest is said to be harmless and to pick up the rest. It does, exactly as long as no full page
  ends inside a block whose next settlement is not yet stored (`FeesProofs.CompleteIffNeverCuts`,
  `FeesProofs.CrowdedBlockIsNeverComplete`).
- A second look at a snapshot is silent exactly when `Alerts.Settles` holds: an allocation id listed twice, the worse
  tone first, alerts at every look (`Alerts.ListedTwiceAlwaysAlerts`).
- An alert is said to be raised once per step of urgency. One whose post got through but whose row was then not saved
  is raised again, without end while saves fail (`Subscriptions.UnrecordedPostsRepeat`); delivered alerts rise
  strictly exactly when none that went unrecorded is told again at the same tone (`Subscriptions.PoiAlertsRise`).

## Model

| member | source | states |
|---|---|---|
| Rollup.WindowHoldsWholeBuckets | crates/foghorn-probe/src/qos.rs:130-135 | a rolled range never cuts a bucket in two, and holds every time asked for |
| Rollup.RollRangeIsFresh | crates/foghorn-probe/src/qos.rs:119-363 | one rollup makes every bucket in its widened range, for its deployment and width, the from-scratch aggregation, and leaves every other row as it was |
| RowMeaning.QueriesMean | crates/foghorn-probe/src/qos.rs:149-233 | a bucket has a row if and only if it counts an answer: one of its time and deployment, put down to its indexer, that is no refusal of payment; the row counts them, and as ok those with status 200 and no error |
| RowMeaning.LatencyMeans | crates/foghorn-probe/src/qos.rs:233-236 | the latency columns are the mean and the greatest over the counted answers that worked, skipping those without one |
| RowMeaning.BehindColumns | crates/foghorn-probe/src/qos.rs:182-193 | the lag columns are the mean and the greatest distance from the chain head of the counted answers that report a block |
| RowMeaning.MaxBehindMeans | crates/foghorn-probe/src/qos.rs:182-250 | none when no counted answer reports a block, zero if and only if all that do are at the head or past it, and otherwise the distance of the one furthest behind |
| RowMeaning.JudgementMeans | crates/foghorn-probe/src/qos.rs:244-265 | comparable are the responses on unflagged deployments to probes more than half of whose responses carry the recorded hash, divergent those of another hash, and correctness the share that is not |
| Rollup.RollRangeIdempotent | crates/foghorn-probe/src/qos.rs:79-80 | rolling the same range again changes nothing |
| Rollup.RollRangesJoin | crates/foghorn-probe/src/qos.rs:92-96 | two adjoining rolls, at any bucket width, are one roll of the whole |
| Requests.AttributionIsCovered | crates/foghorn-probe/src/resolver.rs:151-183 | every bucket an attribution changes is covered by a request the same statement enqueues |
| Requests.AttributionAsksForNews | crates/foghorn-probe/src/resolver.rs:151-183 | nothing is enqueued unless the owner is news, and then only over deployments and times the key has answered |
| Requests.RequestIsTight | crates/foghorn-probe/src/qos.rs:100-115 | a request covers no bucket before its first dispatch, after its last, or of another deployment |
| Requests.UnresolvedChangesNothing | crates/foghorn-probe/src/resolver.rs:130-142 | recording that a key resolves to nobody changes no bucket |
| Requests.FlagChangeIsCovered | crates/foghorn-probe/src/scorer.rs:357-361 | a flag change alters only buckets of deployments whose flag changed, and only where there are probes |
| Requests.FlagChangeAltersIff | crates/foghorn-probe/src/qos.rs:177-260 | a flag change alters a bucket if and only if its deployment's flag changed and it holds an admitted answer with a hash to a probe with a clear majority |
| Requests.DeploymentRequestCovers | crates/foghorn-probe/src/qos.rs:100-115 | a deployment's request covers the bucket of every probe of it |
| Requests.NewAnswerStaysInPlace | crates/foghorn-probe/src/scheduler.rs:394-417 | a stored answer changes only its own probe's bucket time and deployment, though it can change other indexers' rows there |
| Requests.NewClusterStaysInPlace | crates/foghorn-probe/src/scheduler.rs:429-445 | a cluster row changes only buckets of its own probe's time and deployment |
| RollupProtocol.NextKeepsInv | crates/foghorn-probe/src/qos.rs:57-75 | every step, the drain loop's crash included, keeps: a stale bucket is pending; cutting a detector run short keeps it if and only if that is harmless |
| RollupProtocol.EveryReachableStateIsPendingOrFresh | crates/foghorn-probe/src/qos.rs:61-73 | in every state of every interleaving no invalidation is lost, as long as no detector run was cut short where that loses one |
| RollupAborts.StaleIffOutdated | crates/foghorn-probe/src/scorer.rs:311-361 | in every state of every run, wherever detectors were cut short, a bucket without a roll to come is stale if and only if it holds a judgeable answer and its deployment's flag changed since it was last rolled |
| RollupAborts.ReachableIsInvIff | crates/foghorn-probe/src/qos.rs:61-73 | in every reachable state no invalidation has been lost if and only if every such bucket has a roll to come or is owed one |
| RollupAborts.AbortHarmlessIff | crates/foghorn-probe/src/scorer.rs:311-361 | in every reachable state a detector run can be cut short without losing an invalidation if and only if every such bucket it owes for has a roll to come |
| RollupAborts.AbortHarmlessIffNothingJudgeable | crates/foghorn-probe/src/scorer.rs:311-361 | from a settled state it can if and only if no deployment it owes for has a judgeable answer |
| RollupAborts.RotatingIsJudgeable | crates/foghorn-probe/src/scorer.rs:281-310 | every deployment the detector's query finds has a judgeable answer |
| RollupAborts.AbortAfterFindingLoses | crates/foghorn-probe/src/scorer.rs:311-361 | so from a settled state cutting a run short that owes for a deployment the evidence finds always leaves a stale bucket with no roll to come |
| RollupRuns.ScheduleIsTimely | crates/foghorn-probe/src/qos.rs:10-59 | rows written within a delay of dispatch and a rollup every so often, the two together at most the lookback, keep every written bucket in the trailing window until it is rolled |
| RollupRuns.ScheduleReachesIff | crates/foghorn-probe/src/qos.rs:10-59 | every run on a schedule that cuts no detector short has each stale bucket covered, owed or in the next window in every state if and only if delay and gap are together at most the lookback |
| RollupRuns.ScheduledStaleIsReached | crates/foghorn-probe/src/qos.rs:57-73 | on schedule a stale bucket always has a request, live or owed, or is in the next trailing window |
| RollupRuns.RowStaysUntilRolled | crates/foghorn-probe/src/qos.rs:119-127 | over any run a bucket keeps its row until a rollup targets it |
| RollupRuns.ForsakenUntilTouched | crates/foghorn-probe/src/qos.rs:57-75 | a stale bucket behind the trailing window with no request stays stale over any run until its probes are written to, its keys or flag change, or a re-roll reaches it |
| RollupRuns.RunsArePlaced | crates/foghorn-probe/src/qos.rs:119-363 | in every reachable state every row has a probe in its bucket, and no probe is from the future |
| RollupProtocol.UndisturbedPassIsExact | crates/foghorn-probe/src/qos.rs:57-75 | a pass nothing interrupts leaves the table exactly fresh and the queue empty |
| RollupExamples.LateBucketIsLost | crates/foghorn-probe/src/qos.rs:10-59 | a run, off schedule, ends at rest with an empty queue and a bucket that no pass to come will mend, though a re-roll does |
| RollupExamples.AbortedDetectorLosesBuckets | crates/foghorn-probe/src/scorer.rs:275-362 | a run whose detector flags a deployment on evidence its query finds, cut short before enqueueing, loses the invariant and a bucket, and a further detector run changes nothing |
| RollupExamples.DisputedRotates | crates/foghorn-probe/src/scorer.rs:281-310 | three probes, with another of three indexers outvoted on each, are evidence the detector's query finds |
| Database.Store.StoreResults | crates/foghorn-probe/src/scheduler.rs:364-448 | a round's rows are stored once each, with a cluster row only when corroborated |
| Database.Store.RecordAttribution | crates/foghorn-probe/src/resolver.rs:151-183 | the key has its new owner, and one request per deployment is appended exactly when that is news |
| Database.Store.RecordUnresolved | crates/foghorn-probe/src/resolver.rs:130-142 | a key that has an owner keeps it |
| Database.Store.RequestDeploymentReroll | crates/foghorn-probe/src/qos.rs:100-115 | one request spanning all of a deployment's probes, or none when it has none |
| Database.Store.DetectNondeterministic | crates/foghorn-probe/src/scorer.rs:275-362 | afterwards exactly the rotating deployments are flagged, and each changed one has its request |
| Database.FlagsAreRequested | crates/foghorn-probe/src/scorer.rs:311-361 | every bucket the detector's flags change is covered by a request it enqueues |
| Database.OnlyChangesAreRequested | crates/foghorn-probe/src/scorer.rs:357-361 | it enqueues for no deployment whose flag stays as it was |
| Database.Store.RollRange | crates/foghorn-probe/src/qos.rs:119-363 | the table after one rollup statement, bucket by bucket |
| Database.Store.FetchRequests | crates/foghorn-probe/src/qos.rs:61-66 | the queued ids, all of them, ascending |
| Database.Store.RollupOnce | crates/foghorn-probe/src/qos.rs:57-75 | after a pass every bucket in the trailing window or under a request is fresh, every other is untouched, and the queue is empty |
| Database.Store.RerollAll | crates/foghorn-probe/src/qos.rs:79-98 | the day-by-day loop equals one rollup from the first probe's day through today |
| Database.RerollAllIsFreshInItsRange | crates/foghorn-probe/src/qos.rs:79-98 | on any table, every bucket from the first probe's day through today is fresh afterwards and every other row is as it was |
| Refinement.RerollIsExactIff | crates/foghorn-probe/src/qos.rs:77-98 | a full re-roll leaves exactly the rows a fresh rollup would write if and only if no row lay outside its range |
| Refinement.RerollMendsAnyReachableState | crates/foghorn-probe/src/qos.rs:77-98 | in every reachable state, lost invalidations included, it leaves exactly those rows |
| Refinement.RerolledIdempotent | crates/foghorn-probe/src/qos.rs:77-79 | re-rolling everything again changes nothing |
| Refinement.PassFreshensIff | crates/foghorn-probe/src/qos.rs:57-75 | from any state an undisturbed pass leaves a bucket fresh if and only if it was fresh, is in the trailing window, or has a request |
| Refinement.PassIsUndisturbedRun | crates/foghorn-probe/src/qos.rs:57-75 | the table the in-place pass promises is where the same statements, taken one step at a time with nothing between, end up |
| Refinement.RecordAttributionIsStep | crates/foghorn-probe/src/resolver.rs:151-183 | what the method promises of the tables is where the protocol's step leads |
| Refinement.DetectIsSteps | crates/foghorn-probe/src/scorer.rs:311-361 | writing the flags and dropping the others leaves exactly those found and owes for every one that changed |
| Dispatch.DedupByAddress | crates/foghorn-probe/src/scheduler.rs:330-350 | one answer per address: a response if there is any, a refusal of payment only if there is nothing else, and the first of its like |
| Dispatch.ComputeClusters | crates/foghorn-probe/src/cluster.rs:22-117 | counts and maxima of the clusters, whatever order the map yields and however ties break |
| Judgement.ThreeJudgesAgree | crates/foghorn-core/src/judged.rs:27-48 | the rollup's, the scorer's and the shared judgement name the same answers, NULLs included |
| Majority.GateHidesNoFault | crates/foghorn-probe/src/scheduler.rs:429-429 | whenever an answer is outvoted, the recorded cluster is the one that outvotes it |
| Majority.StoreLeavesRoundStored | crates/foghorn-probe/src/scheduler.rs:364-448 | storing a round leaves its probe, answers and cluster row in the tables, and every other round as it was |
| Majority.StoreKeepsRows | crates/foghorn-probe/src/scheduler.rs:364-448 | storing a round changes and repeats no row: what was stored stays, and no probe gets a second answer from an address |
| Majority.StoredAsAnswered | crates/foghorn-probe/src/scheduler.rs:394-417 | what is stored of an answer is what was answered |
| Majority.FaultOverAll | crates/foghorn-probe/src/scheduler.rs:330-448 | over everything that came back, an answer is a fault if and only if another hash is the first response of more than half of the responding addresses |
| Majority.ClusterRowMeans | crates/foghorn-probe/src/scheduler.rs:419-445 | a cluster row is stored if and only if two addresses agree, with a hash no other outnumbers and its size |
| Majority.HeaviestMeans | crates/foghorn-probe/src/cluster.rs:60-117 | the heaviest cluster is one no other outweighs in stake |
| Majority.FaultIsStrictMajority | crates/foghorn-core/src/judged.rs:27-48 | end to end, an answer of a stored round is a fault if and only if another hash has a strict majority of the deduplicated answers |
| Rounds.RoundAlongRun | crates/foghorn-probe/src/scheduler.rs:364-448 | in every state of every run what is stored of a probe is what its own statements have stored so far, whatever came between |
| Rounds.FaultInRunIsStrictMajority | crates/foghorn-core/src/judged.rs:27-48 | in every state of every run an answer is a fault if and only if its round is complete and another hash has a strict majority; a half-stored round faults nobody |
| Majority.FaultsAreAMinority | crates/foghorn-core/src/judged.rs:1-6 | a round's faults are none, or fewer than half of its answers |
| DetectorMeaning.FlaggedIffRotating | crates/foghorn-probe/src/scorer.rs:275-310 | a deployment is flagged if and only if it has three disputed probes, a fifth of those answered, two indexers in the minority, and none behind more than three fifths of the wrong answers |
| DetectorMeaning.CountsIffNotRotating | crates/foghorn-core/src/judged.rs:27-48 | after the detector a wrong answer counts, in the feed and the grade, if and only if wrong answers do not rotate on its deployment |
| DetectorMeaning.OffenderIsNotExcused | crates/foghorn-probe/src/scorer.rs:281-310 | an indexer behind more than three fifths of a deployment's wrong answers keeps it unflagged, and every wrong answer on it counts |
| Detector.TimesAddUp | crates/foghorn-probe/src/scorer.rs:281-293 | the sum of per-indexer minority counts is the number of minority positions |
| Detector.FlagIgnoresItself | crates/foghorn-core/src/judged.rs:8-12 | what is flagged now does not affect what is flagged next |
| Detector.ExcusedDetectorWouldFlap | crates/foghorn-core/src/judged.rs:8-12 | had it excused, a flagged deployment would always be unflagged by the next run |
| Buckets.BucketsAddUp | crates/foghorn-probe/src/qos.rs:208-265 | a column that is a sum within each bucket is a sum across them |
| Grades.ScorerFaultsAreJudgedFaults | crates/foghorn-probe/src/scorer.rs:206-219 | the scorer's distinct faulted probes are those of the shared judgement |
| Grades.FeedAndGradesAgree | crates/foghorn-probe/src/scorer.rs:194-235 | bucket query counts add up to the scorer's total, divergent counts to at least its faults, and exactly when no probe is faulted twice under one indexer |
| Grades.TwoKeysAreTwoDivergents | crates/foghorn-probe/src/scorer.rs:194-235 | two keys of one indexer outvoted on one probe are two divergent answers to the feed and one fault to the scorer |
| Grades.WindowIsSameProbes | crates/foghorn-probe/src/qos.rs:130-135 | over a bucket-aligned range of a fresh table the feed and the scorer see the same answers |
| Daily.DailyIsExact | crates/foghorn-api/src/qos.rs:123-224 | a day computed from bucket rows is the day computed from its observations, when no other series has a row that day |
| Daily.SuccessRateMeans | crates/foghorn-api/src/qos.rs:166-168 | successes over queries, and none over none |
| Daily.AverageMeans | crates/foghorn-api/src/qos.rs:170-174 | the average latency weighs each bucket that has one by its successes |
| Daily.UntimedDoNotDilute | crates/foghorn-api/src/qos.rs:170-174 | a bucket whose successes have no latency does not change it |
| Daily.DailyIsExactIff | crates/foghorn-api/src/qos.rs:123-224 | the day's queries, and with a latency on every success all its figures, are those of its observations if and only if no other series has a row that day |
| Daily.RollKeepsRowsCount | crates/foghorn-probe/src/qos.rs:208-265 | every row a rollup writes counts at least one query |
| Daily.MaximaCombine | crates/foghorn-api/src/qos.rs:170-176 | the maximum of bucket maxima is the maximum over their facts |
| Daily.TwoSeriesCountTwice | crates/foghorn-api/src/qos.rs:128-155 | over two bucket widths of the same data the day's queries are doubled |
| Sybil.Find | crates/foghorn-probe/src/sybil.rs:127-134 | path halving terminates, returns the root, and changes no node's root |
| Sybil.LinkAll | crates/foghorn-probe/src/sybil.rs:123-162 | after the double loop two candidates share a root exactly when a chain of links joins them |
| Sybil.Cluster | crates/foghorn-probe/src/sybil.rs:123-177 | the result is exactly the connected components of at least three, each once, pairwise disjoint |
| LinkMeaning.CoefficientMeans | crates/foghorn-probe/src/sybil.rs:179-186 | the overlap of two footprints is what they share over the smaller, zero when that is empty |
| LinkMeaning.NestedIffFull | crates/foghorn-probe/src/sybil.rs:179-186 | it is one if and only if the smaller footprint lies inside the other |
| LinkMeaning.LinkedIff | crates/foghorn-probe/src/sybil.rs:136-155 | two candidates are linked if and only if they registered within a fortnight and have stakes within a quarter or are both whales, or share four fifths of the smaller of two footprints of five or more |
| LinkMeaning.NestedShareSwarms | crates/foghorn-probe/src/sybil.rs:123-177 | a candidate with five allocations or more, all of them another's, is in any swarm that other is in |
| LinkMeaning.ReportedIffThree | crates/foghorn-probe/src/sybil.rs:164-177 | a component is reported if and only if it has three members |
| LinkMeaning.ConfidenceMeans | crates/foghorn-probe/src/sybil.rs:249-293 | the confidence adds to 0.4 for registration within a day or three, stakes within 3, 10 or 25 percent, all being whales and the mean overlap, pair by pair, and stops at one |
| Swarm.FoundIgnoresOrder | crates/foghorn-probe/src/sybil.rs:123-315 | any reordering of the roster stores the same set of swarms |
| Swarm.SameRosterSameSwarms | crates/foghorn-probe/src/sybil.rs:123-315 | two rosters that list the same candidates give the same set of stored swarms: ids, members and confidences |
| Swarm.MeanOverlap | crates/foghorn-probe/src/sybil.rs:190-204 | the mean of the pairwise overlaps |
| Swarm.BuildCluster | crates/foghorn-probe/src/sybil.rs:249-315 | the stored swarm: sorted members, the text its id hashes, and the points of its signals, capped at one |
| Swarm.ClusterIgnoresOrder | crates/foghorn-probe/src/sybil.rs:249-315 | id, members and confidence are the same for every order of the members |
| Swarm.ConfidenceIsProportion | crates/foghorn-probe/src/sybil.rs:270-293 | the confidence is a proportion, as the grade's penalty needs it to be |
| Swarm.VerdictIffCorroborated | crates/foghorn-probe/src/sybil.rs:270-293 | a swarm reaches a public verdict if and only if its signals' points add up to 0.2 |
| Swarm.CrowdIsAVerdict | crates/foghorn-probe/src/sybil.rs:265-293 | three candidates linked by crowding only, with no point from any other signal, reach it |
| Swarm.CrowdingAloneIsAVerdict | crates/foghorn-probe/src/sybil.rs:265-293 | an overlap at the threshold reaches a public verdict whatever the other signals |
| Text.LessIsByCodePoint | crates/foghorn-core/src/normalize.rs:40-42 | one string is before another if and only if, where they part, it has ended or has the lesser code point |
| Text.UnescapeEscape | crates/foghorn-core/src/normalize.rs:35-35 | reading an escape back as JSON gives the character it was written for |
| Text.EscapesDecode | crates/foghorn-core/src/normalize.rs:35-35 | escapes are a prefix code |
| Text.SortSorts | crates/foghorn-core/src/normalize.rs:40-42 | sorting members by key keeps them all and puts them in strict order |
| CanonicalProofs.PrintsEqualIffSame | crates/foghorn-core/src/normalize.rs:26-57 | two values print to the same text if and only if they are equal up to key order |
| StripProofs.StrippedPrintsEqualIffSameAnswer | crates/foghorn-core/src/normalize.rs:8-23 | two responses compare equal if and only if they agree on everything but extensions, headers and `data._meta` |
| Hysteresis.CommittedIsLastHeld | crates/foghorn-probe/src/alerter.rs:261-283 | for every history and threshold the committed state is the last value held that many cycles in a row |
| Hysteresis.StreakIsTheCandidatesRun | crates/foghorn-probe/src/alerter.rs:265-283 | the counter is zero exactly when candidate equals stable, and counts the candidate's run |
| Hysteresis.MovesIffRunCompletes | crates/foghorn-probe/src/alerter.rs:271-279 | the committed state moves exactly when another value completes its run |
| Hysteresis.BlinkIsForgotten | crates/foghorn-probe/src/alerter.rs:227-231 | a disturbance shorter than the threshold leaves the state as if it had not been |
| Alerter.EntryIsMachine | crates/foghorn-probe/src/alerter.rs:237-304 | for every run of rosters, broken-off cycles included, each row is that indexer's own machine; deleting blank rows loses nothing |
| Alerter.FingerprintsEqualIffSameRoster | crates/foghorn-probe/src/alerter.rs:300-307 | fingerprints are equal if and only if the committed rosters are |
| Alerter.FingerprintMovesIffRunCompletes | crates/foghorn-probe/src/alerter.rs:233-236 | the fingerprint moves if and only if some indexer completes a run of a new state |
| Alerter.Alerter.DebouncedFingerprint | crates/foghorn-probe/src/alerter.rs:237-308 | a cycle advances every known or seen indexer, in any order, and yields the committed roster's fingerprint unless the database fails |
| Alerter.Alerter.RunCycle | crates/foghorn-probe/src/alerter.rs:71-124 | it posts exactly when the fingerprint changed or a day has passed, remembers the post only once delivered and recorded, and keeps the state what the cycles so far make of it |
| Alerter.PostsIffNewsSinceLastRecorded | crates/foghorn-probe/src/alerter.rs:71-124 | over any run an unbroken cycle posts if and only if the committed roster is not the one the last recorded post told of, or that is over a day old or unreadable |
| Alerter.PostsUntilFirstRecorded | crates/foghorn-probe/src/alerter.rs:81-91 | until a post is recorded every unbroken cycle posts |
| Alerts.Evaluate | crates/foghorn-core/src/alerts.rs:77-210 | exactly the events called for are raised, each subject once: a tone worse than remembered, a denial flag, signal, cut or eligibility that differs; and the state to store is what the next look compares with |
| Alerts.NextTwice | crates/foghorn-core/src/alerts.rs:77-210 | the stored state is a fixed point of looking again at the same snapshot |
| Alerts.SecondLookIsSilentIffSettled | crates/foghorn-core/src/alerts.rs:77-210 | looking again is silent if and only if no id is listed with a worse tone before its last and the signal threshold is positive |
| Alerts.ListedTwiceAlwaysAlerts | crates/foghorn-core/src/alerts.rs:88-112 | an id listed twice, the worse tone first, alerts at every look |
| Alerts.DistinctIdsSettle | crates/foghorn-core/src/alerts.rs:88-112 | distinct ids and a positive threshold are enough for a silent second look |
| Subscriptions.BaselineIsLastRecorded | crates/foghorn-probe/src/subscriptions.rs:88-112 | over any run with any failures the stored signal baseline is the level at the first stored look or the last signal alert that was delivered and recorded |
| Subscriptions.AlertsIffMovedSinceLastRecorded | crates/foghorn-core/src/alerts.rs:133-164 | a look raises a signal alert if and only if the level has moved by the threshold since that baseline |
| Subscriptions.PoiAlertsRise | crates/foghorn-core/src/alerts.rs:89-112 | while an allocation stays listed the alerts about it that get through never fall in urgency, and strictly rise, being then at most two, if and only if none that went unrecorded is told again at the same tone |
| Subscriptions.RecordedPoiAlertsRise | crates/foghorn-probe/src/subscriptions.rs:88-112 | they do when the row is saved after every look that told of it |
| Subscriptions.UnrecordedPostsRepeat | crates/foghorn-probe/src/subscriptions.rs:88-91 | a post whose save fails is repeated at every later look |
| Subscriptions.GivenUpIffRefusedInARow | crates/foghorn-probe/src/subscriptions.rs:88-143 | a subscription is disabled if and only if ninety-six of its posts in a row were refused, with none delivered in between |
| Subscriptions.HeardIs | crates/foghorn-core/src/alerts.rs:265-297 | a webhook is told of an event if and only if it was found and its request got through |
| Subscriptions.FirstLookIsSilent | crates/foghorn-core/src/alerts.rs:75-76 | a first look reports nothing and is stored unless the database fails |
| Subscriptions.Subscribers.RunCycle | crates/foghorn-probe/src/subscriptions.rs:39-119 | a cycle takes every enabled row it reaches through exactly one look and leaves the others, and tells each webhook what its look tells, the one whose save then failed included |
| Score.Judge | crates/foghorn-core/src/score.rs:242-364 | the outcome is the judgement the lemmas below are about |
| Score.DeriveVerdicts | crates/foghorn-core/src/score.rs:495-606 | the verdicts, in order, are those whose condition holds |
| ScoreMeaning.CorrectnessMeans | crates/foghorn-core/src/score.rs:109-116 | none without an answered probe, else a hundred without faults, zero with all of them, and in proportion |
| ScoreMeaning.AvailabilityMeans | crates/foghorn-core/src/score.rs:121-163 | the mean of how the probes went and how the deployments fare, of whichever are known |
| ScoreMeaning.FreshnessMeans | crates/foghorn-core/src/score.rs:165-181 | a hundred at the head, zero at four times the lag that counts as behind, and in proportion |
| ScoreMeaning.CoverageMeans | crates/foghorn-core/src/score.rs:183-188 | fifty at the threshold, a hundred at twice the threshold, zero without an allocation, and in proportion |
| ScoreMeaning.MoreAllocationsNeverHurt | crates/foghorn-core/src/score.rs:183-364 | more allocations never lower the composite |
| ScoreMeaning.RatedMeans | crates/foghorn-core/src/score.rs:210-219 | an indexer is rated if and only if it is active and something of its service was measured |
| ScoreMeaning.MeanIsWeighted | crates/foghorn-core/src/score.rs:294-311 | before penalties the composite weighs the sub-scores there are, each by its own weight |
| ScoreMeaning.SybilFactorMeans | crates/foghorn-core/src/score.rs:304-314 | the swarm penalty is in proportion to a confidence of 0.6 or more |
| ScoreMeaning.ServingFactorMeans | crates/foghorn-core/src/score.rs:136-141 | the serving penalty is in proportion to the share of broken deployments or half their number against the reference, whichever is more |
| ScoreMeaning.CompositeMeans | crates/foghorn-core/src/score.rs:294-335 | the composite is the weighted mean times what the two penalties leave |
| ScoreMeaning.CompositeByDefault | crates/foghorn-core/src/config.rs:98-141 | by default the weights are four, three, two and one tenths and the penalties six and seven tenths |
| ScoreMeaning.GradeMeans | crates/foghorn-core/src/score.rs:93-106 | by default A from 90, B from 75, C from 60, D from 40, and NR if and only if unrated |
| ScoreMeaning.VerdictMeans | crates/foghorn-core/src/score.rs:443-606 | each verdict is reported if and only if its counts and rates are reached, told without division |
| ScoreMeaning.VerdictsByDefault | crates/foghorn-core/src/config.rs:98-141 | the same with the default figures |
| ScoreProofs.MeanBetweenExtremes | crates/foghorn-core/src/score.rs:294-311 | before penalties the composite is between the least and greatest present sub-score as soon as one has positive weight |
| ScoreProofs.CompositeInRange | crates/foghorn-core/src/score.rs:294-335 | the composite is between 0 and 100 |
| ScoreProofs.BroadFailureCaps | crates/foghorn-core/src/score.rs:136-141 | failing on the reference number of deployments costs at least half the serving penalty, whatever else holds |
| ScoreProofs.TwentyBrokenIsAtMostC | crates/foghorn-core/src/config.rs:92-143 | by default twenty broken deployments cap the composite at 65 and the grade at C |
| ScoreProofs.VerdictIffHolds | crates/foghorn-core/src/score.rs:239-287 | a verdict is reported exactly when its condition holds, and of an unrated indexer only structural ones |
| ScoreProofs.WorseNeverHelps | crates/foghorn-core/src/score.rs:242-364 | more faults, errors, recent errors, lag, broken deployments or swarm confidence, or a lower success rate, never raise the composite, improve the grade or remove a verdict |
| ScoreProofs.FirstMeasurementCanHelp | crates/foghorn-core/src/score.rs:171-181 | a first lag measurement can raise the composite, which is why the law above keeps what is present |
| Base58.EncodeMeans | crates/foghorn-core/src/deployment.rs:37-40 | any bytes encode to one `1` per leading zero byte and no more, and then the text of their number |
| Base58.LeadingDigits | crates/foghorn-core/src/deployment.rs:37-40 | the leading digits of a number depend only on the range it lies in |
| Deployment.TrimMeans | crates/foghorn-core/src/deployment.rs:26-26 | trimming takes all white space off both ends and nothing else |
| Deployment.RecognisedMeans | crates/foghorn-core/src/deployment.rs:26-36 | a bytes32 id is 64 hex digits of either case, with or without `0x` |
| Deployment.NormalisedForm | crates/foghorn-core/src/deployment.rs:25-41 | every bytes32 id becomes 46 base-58 characters beginning with Qm; anything else is only trimmed |
| Deployment.NormaliseIsIdempotent | crates/foghorn-core/src/deployment.rs:25-41 | normalising twice is normalising once, on every string |
| Deployment.DigestSurvives | crates/foghorn-core/src/deployment.rs:3-5 | the digest can be read back from the normalised id |
| Deployment.NormaliseTellsIdsApart | crates/foghorn-core/src/deployment.rs:25-41 | two bytes32 ids normalise alike if and only if they differ only in white space, prefix and hex case |
| ServiceUrl.WordIsHolds | crates/foghorn-probe/src/nest.rs:286-296 | the wrapping end and the guard on high bytes never change a word's reading on anything that fits in memory |
| ServiceUrl.DecodesIffDesignated | crates/foghorn-probe/src/nest.rs:282-304 | on every byte string the decoder returns exactly what the offset and length words designate, or nothing |
| ServiceUrl.UrlRoundTrip | crates/foghorn-probe/src/nest.rs:274-281 | decoding an encoded tuple gives back its first string, whatever the other members |
| ServiceUrl.ServiceUrlRoundTrip | crates/foghorn-probe/src/nest.rs:282-304 | the same from hex text, with or without its prefix, to trimmed text |
| Fees.Ingest.IngestOnce | crates/foghorn-probe/src/fees.rs:56-96 | a page after the resume point is stored all or nothing, taken keys left alone |
| Fees.Ingest.Drain | crates/foghorn-probe/src/fees.rs:34-47 | pages are taken until one is short or fails |
| FeesProofs.PassReadsOn | crates/foghorn-probe/src/fees.rs:57-63 | a pass fetches the first page of the settlements in blocks after the highest stored, or from the beginning when that cannot be read |
| FeesProofs.TakenKeysStay | crates/foghorn-probe/src/fees.rs:64-96 | a pass never changes a stored row |
| FeesProofs.RunIsFaithful | crates/foghorn-probe/src/fees.rs:57-58 | in every run stored rows are a duplicate-free part of the log |
| FeesProofs.WholeIffNeverCuts | crates/foghorn-probe/src/nest.rs:252-261 | everything up to the resume point is stored until a full page ends inside a block whose next settlement is not yet stored; then something is missing for good |
| FeesProofs.CompleteIffNeverCuts | crates/foghorn-probe/src/fees.rs:28-33 | once a short page is seen the stored rows are the whole log if and only if no full page on the way ended inside a block whose next settlement was not yet stored |
| FeesProofs.CrowdedBlockIsNeverComplete | crates/foghorn-probe/src/nest.rs:252-261 | a block one settlement larger than a page is never stored whole |

## Left out

- RollupRuns.RunsArePlaced: no step deletes a probe; the retention job that migrations/001_initial.sql mentions is outside the repository, and `Refinement.RerollIsExactIff` says what a re-roll leaves after it.
- RollupProtocol.NextKeepsInv: a clock does not run backwards, and a probe is stored no earlier than its dispatch.
- RollupProtocol.UndisturbedPassIsExact: speaks of the configured bucket width; rows at other widths are another series that nothing rolls.
- Rollup.RollRangeIsFresh: `indexer_url`, `chain_id`, `gateway_id`, `computed_at`, the standard deviation and the percentiles are not columns of the model.
- Daily.DailyIsExact: leaves out the mean of `avg_indexer_blocks_behind`, which is unweighted and not a recombination, and the filters, ordering and paging of the query.
- Grades.FeedAndGradesAgree: the scorer's lowercasing of addresses and its error and answered counts are not modelled.
- Dispatch.ComputeClusters: the JSON patch between the two largest clusters is not modelled.
- Canonical.StripVolatile: removes keys from a list of members rather than from a map in place; the value is owned, so nothing else can see the difference.
- CanonicalProofs.PrintsEqualIffSame: numbers are opaque tokens; how a parsed number becomes text, and SHA-256, are not modelled.
- Hysteresis.CommittedIsLastHeld: grouping the attention items into a roster, and the text of the message, are not modelled.
- Alerts.Evaluate: message texts are not modelled, nor is the text form in which states are stored.
- Subscriptions.PoiAlertsRise: creation epochs of a listed allocation are taken not to change; on Discord, alerts past the fifth of a kind ("and N more") count as told.
- Score.Judge: the `reasons` texts, verdict evidence and attention items are not modelled; reals stand for floats, so rounding is not.
- LinkMeaning.ConfidenceMeans: stakes, which are amounts of a token, are taken not to be negative.
- Swarm.BuildCluster: the id is the text that is hashed; the signals JSON is not modelled.
- ServiceUrl.DecodeServiceUrl: the lossy UTF-8 conversion is a parameter.
- Fees.Ingest.IngestOnce: the columns that take no part in ordering or keys are reduced to three, and their normalisation is not modelled.
- HTTP, JSON-RPC, IPFS, the gateway and payment clients, and posting to webhooks: a post or a query succeeds or fails.
- The GraphQL layer and routes, which serialise what is modelled here.
- Signature recovery and hashing: only equality of hashes matters to the judgement.
- Webhook address checks, configuration loading, migrations, probe retention, autodiscovery and the oracle and score watches.
