/** When two candidates are linked, in whole numbers; what confidence a swarm gets, pair by pair. */
module LinkMeaning {
  import opened Prelude
  import opened Sybil
  import opened Swarm

  // ---------------------------------------------------------------------------
  // Footprints.

  function Smaller(a: set<string>, b: set<string>): nat {
    if |a| < |b| then |a| else |b|
  }

  lemma IntersectionFits(a: set<string>, b: set<string>)
    ensures |a * b| <= |a| && |a * b| <= |b|
  {
    assert a == (a * b) + (a - b) && b == (a * b) + (b - a);
  }

  /** The overlap of two footprints is what they share over the smaller of them, and nothing when that is empty. */
  lemma CoefficientMeans(a: set<string>, b: set<string>)
    ensures OverlapCoefficient(a, b) * Smaller(a, b) as real == |a * b| as real
    ensures a == {} || b == {} ==> OverlapCoefficient(a, b) == 0.0
    ensures 0.0 <= OverlapCoefficient(a, b) <= 1.0
  {
    IntersectionFits(a, b);
    var n := Smaller(a, b);
    if n > 0 { Share(|a * b|, n); }
  }

  lemma Share(part: nat, whole: nat)
    requires whole > 0 && part <= whole
    ensures part as real / whole as real * whole as real == part as real
    ensures 0.0 <= part as real / whole as real <= 1.0
  {
  }

  /** A footprint inside another overlaps it fully, however much larger the other is; and nothing else does. */
  lemma NestedIffFull(a: set<string>, b: set<string>)
    requires a != {} && |a| <= |b|
    ensures OverlapCoefficient(a, b) == 1.0 <==> a <= b
  {
    CoefficientMeans(a, b);
    IntersectionFits(a, b);
    if a <= b { assert a * b == a; }
    if |a * b| == |a| {
      assert a == (a * b) + (a - b);
      assert a - b == {};
    }
  }

  lemma FourFifths(a: set<string>, b: set<string>)
    requires a != {} && b != {}
    ensures OverlapCoefficient(a, b) >= CROWD_OVERLAP <==> 5 * |a * b| >= 4 * Smaller(a, b)
  {
    CoefficientMeans(a, b);
    Compare(OverlapCoefficient(a, b), Smaller(a, b));
  }

  lemma Compare(q: real, n: nat)
    requires n > 0
    ensures q >= 0.8 <==> 5.0 * (q * n as real) >= (4 * n) as real
  {
    if q >= 0.8 { Grow(0.8, q, n as real); } else { Shrink(q, 0.8, n as real); }
  }

  lemma Grow(x: real, y: real, n: real)
    requires x <= y && n > 0.0
    ensures x * n <= y * n
  {
  }

  lemma Shrink(x: real, y: real, n: real)
    requires x < y && n > 0.0
    ensures x * n < y * n
  {
  }

  // ---------------------------------------------------------------------------
  // Links.

  /** Registered within a fortnight of each other. */
  predicate CloseInTime(a: Candidate, b: Candidate) {
    -1209600 <= a.createdAt - b.createdAt <= 1209600
  }

  /** The smaller stake is at least three quarters of the larger, which is not nothing. (Two negative stakes would pass,
      and there are none.) */
  predicate CloseInStake(a: Candidate, b: Candidate) {
    || (a.stake < 0.0 && b.stake < 0.0)
    || ((a.stake > 0.0 || b.stake > 0.0) && 4.0 * a.stake >= 3.0 * b.stake && 4.0 * b.stake >= 3.0 * a.stake)
  }

  predicate BothWhales(a: Candidate, b: Candidate) {
    a.stake >= 50000000.0 && b.stake >= 50000000.0
  }

  /** Both hold five allocations or more, and share four fifths of the smaller footprint. */
  predicate Crowding(a: Candidate, b: Candidate) {
    && |a.allocations| >= 5 && |b.allocations| >= 5
    && 5 * |a.allocations * b.allocations| >= 4 * Smaller(a.allocations, b.allocations)
  }

  lemma SimilarIffClose(a: Candidate, b: Candidate)
    ensures SimilarStake(a, b) <==> CloseInStake(a, b)
  {
    var max := RealMax(a.stake, b.stake);
    if max > 0.0 { Quarter(RealAbs(a.stake - b.stake), max); }
    if max < 0.0 { NegativeQuotient(RealAbs(a.stake - b.stake), max); }
  }

  lemma NegativeQuotient(x: real, n: real)
    requires n < 0.0 && x >= 0.0
    ensures x / n <= 0.0
  {
  }

  lemma Quarter(x: real, n: real)
    requires n > 0.0
    ensures x / n <= 0.25 <==> 4.0 * x <= n
  {
    var q := x / n;
    assert q * n == x;
    if q <= 0.25 { Grow(q, 0.25, n); } else { Shrink(0.25, q, n); }
  }

  /** Two candidates are linked exactly when they registered within a fortnight and have close stakes or are both whales,
      or crowd the same deployments. */
  lemma LinkedIff(a: Candidate, b: Candidate)
    ensures Linked(a, b) <==> (CloseInTime(a, b) && (CloseInStake(a, b) || BothWhales(a, b))) || Crowding(a, b)
  {
    SimilarIffClose(a, b);
    if |a.allocations| >= 5 && |b.allocations| >= 5 { FourFifths(a.allocations, b.allocations); }
  }

  // ---------------------------------------------------------------------------
  // Components.

  lemma LinkedAreAdjacent(c: seq<Candidate>, x: nat, y: nat)
    requires x < |c| && y < |c| && x != y && Linked(c[x], c[y])
    ensures Adjacent(AllLinks(c), x, y)
  {
    LinkedIsSymmetric(c[x], c[y]);
  }

  /** Linked candidates are in the same component. */
  lemma LinkedShareComponent(c: seq<Candidate>, x: nat, y: nat, s: set<nat>)
    requires x < |c| && y < |c| && Linked(c[x], c[y]) && Component(c, s)
    ensures x in s <==> y in s
  {
    if x != y {
      LinkedAreAdjacent(c, x, y);
      LinkedIsSymmetric(c[x], c[y]);
      LinkedAreAdjacent(c, y, x);
      var z: nat :| z < |c| && z in s && forall w: nat :: w in s <==> w < |c| && Joined(AllLinks(c), z, w);
      JoinedByLink(AllLinks(c), x, y);
      JoinedByLink(AllLinks(c), y, x);
      if x in s { JoinedTrans(AllLinks(c), z, x, y); }
      if y in s { JoinedTrans(AllLinks(c), z, y, x); }
    }
  }

  /** A candidate with five allocations or more, all of them held by another too, is in any swarm that other is in,
      whatever their registration times and stakes. */
  lemma NestedShareComponent(c: seq<Candidate>, x: nat, y: nat, s: set<nat>)
    requires x < |c| && y < |c| && |c[x].allocations| >= 5 && c[x].allocations <= c[y].allocations && Component(c, s)
    ensures x in s <==> y in s
  {
    var a, b := c[x].allocations, c[y].allocations;
    assert a * b == a && b == a + (b - a);
    FourFifths(a, b);
    LinkedShareComponent(c, x, y, s);
  }

  /** So the swarms found put them together or leave both out. */
  lemma NestedShareSwarms(c: seq<Candidate>, out: seq<seq<nat>>, x: nat, y: nat, g: seq<nat>)
    requires AreSwarms(c, out) && g in out
    requires x < |c| && y < |c| && |c[x].allocations| >= 5 && c[x].allocations <= c[y].allocations
    ensures x in g <==> y in g
  {
    NestedShareComponent(c, x, y, SetOf(g));
    assert (x in g <==> x in SetOf(g)) && (y in g <==> y in SetOf(g));
  }

  /** A component is reported exactly when it has three members or more. */
  lemma ReportedIffThree(c: seq<Candidate>, out: seq<seq<nat>>, s: set<nat>)
    requires AreSwarms(c, out) && Component(c, s)
    ensures (exists g :: g in out && SetOf(g) == s) <==> |s| >= 3
  {
  }

  // ---------------------------------------------------------------------------
  // Confidence.

  /** Every two members registered within so many seconds. */
  predicate Within(members: seq<Candidate>, secs: int) {
    forall a <- members, b <- members :: a.createdAt - b.createdAt <= secs
  }

  /** Every member's stake is at least a share of every other's. */
  predicate AtLeastShare(members: seq<Candidate>, share: real) {
    forall a <- members, b <- members :: a.stake >= share * b.stake
  }

  predicate AllWhales(members: seq<Candidate>) {
    forall m <- members :: m.stake >= 50000000.0
  }

  lemma WithinIff(members: seq<Candidate>, days: int)
    requires members != []
    ensures SpreadDays(members) <= days as real <==> Within(members, days * 86400)
  {
    assert members[0].createdAt in Created(members);
    var first, last := Least(Created(members)), Last(Created(members));
    var a :| a in members && a.createdAt == last;
    var b :| b in members && b.createdAt == first;
    forall m | m in members
      ensures first <= m.createdAt <= last
    {
      assert m.createdAt in Created(members);
    }
  }

  lemma ShareOfMost(members: seq<Candidate>, share: real, least: real, most: real)
    requires share >= 0.0
    requires exists m <- members :: m.stake == least
    requires exists m <- members :: m.stake == most
    requires forall m <- members :: least <= m.stake <= most
    ensures AtLeastShare(members, share) <==> least >= share * most
  {
    var a :| a in members && a.stake == least;
    var b :| b in members && b.stake == most;
    if least >= share * most {
      forall x, y | x in members && y in members
        ensures x.stake >= share * y.stake
      {
        ShareOf(share, x.stake, y.stake, least, most);
      }
    }
  }

  lemma ShareOf(share: real, x: real, y: real, least: real, most: real)
    requires share >= 0.0 && least <= x && y <= most && least >= share * most
    ensures x >= share * y
  {
    Weigh(share, y, most);
  }

  lemma NothingAtStake(members: seq<Candidate>, share: real)
    requires forall m <- members :: m.stake == 0.0
    ensures AtLeastShare(members, share)
  {
    assert share * 0.0 == 0.0;
  }

  lemma ShareIff(members: seq<Candidate>, spread: real, share: real)
    requires members != [] && spread >= 0.0 && share >= 0.0 && spread + share == 1.0 && forall m <- members :: m.stake >= 0.0
    ensures RelativeSpread(StakeMin(members), StakeMax(members)) <= spread <==> AtLeastShare(members, share)
  {
    var least, most := StakeMin(members), StakeMax(members);
    SpreadOver(least, most, spread, share);
    if most > 0.0 {
      ShareOfMost(members, share, least, most);
    } else {
      NothingAtStake(members, share);
    }
  }

  lemma Weigh(k: real, x: real, y: real)
    requires k >= 0.0 && x <= y
    ensures k * x <= k * y
  {
  }

  lemma SpreadOver(least: real, most: real, spread: real, share: real)
    requires spread >= 0.0 && spread + share == 1.0
    ensures most > 0.0 ==> (RelativeSpread(least, most) <= spread <==> least >= share * most)
    ensures most <= 0.0 ==> RelativeSpread(least, most) <= spread
  {
    if most > 0.0 {
      var q := (most - least) / most;
      assert q * most == most - least;
      if q <= spread { Grow(q, spread, most); } else { Shrink(spread, q, most); }
      assert (spread + share) * most == spread * most + share * most;
    }
  }

  lemma WhalesIff(members: seq<Candidate>)
    requires members != []
    ensures StakeMin(members) >= HIGH_STAKE_GRT <==> AllWhales(members)
  {
  }

  /** Every two of `n` members once. */
  lemma {:induction false} PairsAre(n: nat)
    ensures Pairs(n) == n * (n - 1) / 2
  {
    if n > 0 {
      PairsAre(n - 1);
      assert n * (n - 1) == (n - 1) * (n - 2) + 2 * (n - 1);
    }
  }

  /** `mean` is `sum` over `count`, and nothing over nothing. */
  predicate Averages(mean: real, sum: real, count: nat) {
    if count == 0 then mean == 0.0 else mean * count as real == sum
  }

  lemma MeanAverages(sum: real, pairs: nat)
    ensures Averages(Mean(sum, pairs), sum, pairs)
  {
  }

  /** The points for each signal. */
  function AgeFor(members: seq<Candidate>): real {
    if Within(members, 86400) then 0.25 else if Within(members, 259200) then 0.1 else 0.0
  }

  function StakeFor(members: seq<Candidate>): real {
    if AtLeastShare(members, 0.97) then 0.2 else if AtLeastShare(members, 0.9) then 0.1
    else if AtLeastShare(members, 0.75) then 0.05 else 0.0
  }

  function WhaleFor(members: seq<Candidate>): real {
    if AllWhales(members) then 0.15 else 0.0
  }

  function CrowdFor(mean: real): real {
    if mean >= 0.8 then 0.2 else if mean >= 0.5 then 0.1 else 0.0
  }

  lemma AgeMeans(members: seq<Candidate>)
    requires members != []
    ensures AgePoints(SpreadDays(members)) == AgeFor(members)
  {
    WithinIff(members, 1);
    WithinIff(members, 3);
  }

  lemma StakeMeans(members: seq<Candidate>)
    requires members != [] && forall m <- members :: m.stake >= 0.0
    ensures StakePoints(RelativeSpread(StakeMin(members), StakeMax(members))) == StakeFor(members)
  {
    ShareIff(members, 0.03, 0.97);
    ShareIff(members, 0.1, 0.9);
    ShareIff(members, 0.25, 0.75);
  }

  lemma CorroborationMeans(members: seq<Candidate>, mean: real)
    requires members != [] && (forall m <- members :: m.stake >= 0.0) && mean == Mean(PairSum(members), Pairs(|members|))
    ensures Corroboration(members) == AgeFor(members) + StakeFor(members) + WhaleFor(members) + CrowdFor(mean)
  {
    AgeMeans(members);
    StakeMeans(members);
    WhalesIff(members);
    assert CrowdPoints(mean) == CrowdFor(mean);
  }

  /** A swarm's confidence: 0.4, more for having registered within a day or three, for stakes within 3, 10 or 25 percent,
      for all being whales and for the overlap averaged over every two members, and never more than one. */
  lemma ConfidenceMeans(members: seq<Candidate>) returns (mean: real)
    requires members != [] && forall m <- members :: m.stake >= 0.0
    ensures Averages(mean, PairSum(members), Pairs(|members|))
    ensures var points := 0.4 + AgeFor(members) + StakeFor(members) + WhaleFor(members) + CrowdFor(mean);
            Confidence(members) == (if points < 1.0 then points else 1.0)
  {
    mean := Mean(PairSum(members), Pairs(|members|));
    MeanAverages(PairSum(members), Pairs(|members|));
    CorroborationMeans(members, mean);
  }
}
