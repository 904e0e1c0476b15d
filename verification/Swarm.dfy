/** How confident a swarm finding is, and that neither it nor the swarm's id depends on the order its
    members come in. */
module Swarm {
  import opened Prelude
  import opened Text
  import opened Sybil
  import Score
  import ScoreProofs

  // ---------------------------------------------------------------------------
  // Mean pairwise overlap.

  function Overlap(a: Candidate, b: Candidate): real {
    OverlapCoefficient(a.allocations, b.allocations)
  }

  function RowSum(a: Candidate, rest: seq<Candidate>): real {
    if rest == [] then 0.0 else Overlap(a, rest[0]) + RowSum(a, rest[1..])
  }

  function PairSum(members: seq<Candidate>): real {
    if members == [] then 0.0 else RowSum(members[0], members[1..]) + PairSum(members[1..])
  }

  function Pairs(n: nat): nat {
    if n == 0 then 0 else n - 1 + Pairs(n - 1)
  }

  function Mean(sum: real, pairs: nat): real {
    if pairs == 0 then 0.0 else sum / pairs as real
  }

  method MeanOverlap(members: seq<Candidate>) returns (mean: real)
    ensures mean == Mean(PairSum(members), Pairs(|members|))
  {
    var sum, pairs := 0.0, 0;
    for i := 0 to |members|
      invariant sum + PairSum(members[i..]) == PairSum(members)
      invariant pairs + Pairs(|members| - i) == Pairs(|members|)
    {
      ghost var rowStart, pairStart := sum, pairs;
      assert members[i..][0] == members[i] && members[i..][1..] == members[i + 1..];
      for j := i + 1 to |members|
        invariant sum + RowSum(members[i], members[j..]) == rowStart + RowSum(members[i], members[i + 1..])
        invariant pairs == pairStart + (j - i - 1)
      {
        assert members[j..][0] == members[j] && members[j..][1..] == members[j + 1..];
        sum := sum + OverlapCoefficient(members[i].allocations, members[j].allocations);
        pairs := pairs + 1;
      }
      assert members[|members|..] == [];
    }
    assert members[|members|..] == [];
    mean := if pairs == 0 then 0.0 else sum / pairs as real;
  }

  lemma OverlapIsSymmetric(a: Candidate, b: Candidate)
    ensures Overlap(a, b) == Overlap(b, a)
  {
    assert a.allocations * b.allocations == b.allocations * a.allocations;
  }

  lemma {:induction false} RowInsert(a: Candidate, u: seq<Candidate>, x: Candidate, v: seq<Candidate>)
    ensures RowSum(a, u + [x] + v) == Overlap(a, x) + RowSum(a, u + v)
  {
    if u == [] {
      assert ([x] + v)[1..] == v && u + [x] + v == [x] + v && u + v == v;
    } else {
      RowInsert(a, u[1..], x, v);
      assert (u + [x] + v)[1..] == u[1..] + [x] + v && (u + v)[1..] == u[1..] + v;
    }
  }

  lemma {:induction false} PairInsert(u: seq<Candidate>, x: Candidate, v: seq<Candidate>)
    ensures PairSum(u + [x] + v) == RowSum(x, u + v) + PairSum(u + v)
  {
    if u == [] {
      assert ([x] + v)[1..] == v && u + [x] + v == [x] + v && u + v == v;
    } else {
      var y, rest := u[0], u[1..];
      PairInsert(rest, x, v);
      RowInsert(y, rest, x, v);
      OverlapIsSymmetric(x, y);
      assert (u + [x] + v)[1..] == rest + [x] + v && (u + v)[1..] == rest + v;
    }
  }

  lemma WithoutFirst(s: seq<Candidate>)
    requires s != []
    ensures multiset(s[1..]) == multiset(s) - multiset{s[0]}
  {
    assert s == [s[0]] + s[1..];
  }

  lemma WithoutMiddle(u: seq<Candidate>, x: Candidate, v: seq<Candidate>)
    ensures multiset(u + v) == multiset(u + [x] + v) - multiset{x}
  {
  }

  /** Taking one element out of a rearranged list leaves a rearrangement of the rest. */
  lemma TakeOut(s: seq<Candidate>, t: seq<Candidate>) returns (u: seq<Candidate>, v: seq<Candidate>)
    requires s != [] && multiset(s) == multiset(t)
    ensures t == u + [s[0]] + v && multiset(s[1..]) == multiset(u + v)
  {
    assert s[0] in multiset(t);
    var i :| 0 <= i < |t| && t[i] == s[0];
    u, v := t[..i], t[i + 1..];
    assert t == u + [s[0]] + v;
    WithoutFirst(s);
    WithoutMiddle(u, s[0], v);
  }

  lemma {:induction false} RowSame(a: Candidate, s: seq<Candidate>, t: seq<Candidate>)
    requires multiset(s) == multiset(t)
    ensures RowSum(a, s) == RowSum(a, t)
    decreases |s|
  {
    assert |s| == |multiset(s)| == |t|;
    if s != [] {
      var u, v := TakeOut(s, t);
      RowInsert(a, u, s[0], v);
      RowSame(a, s[1..], u + v);
    }
  }

  lemma {:induction false} PairSame(s: seq<Candidate>, t: seq<Candidate>)
    requires multiset(s) == multiset(t)
    ensures PairSum(s) == PairSum(t) && |s| == |t|
    decreases |s|
  {
    assert |s| == |multiset(s)| == |t|;
    if s != [] {
      var u, v := TakeOut(s, t);
      PairInsert(u, s[0], v);
      PairSame(s[1..], u + v);
      RowSame(s[0], s[1..], u + v);
    }
  }

  // ---------------------------------------------------------------------------
  // Confidence.

  function Created(members: seq<Candidate>): set<int> {
    set m | m in members :: m.createdAt
  }

  function SpreadDays(members: seq<Candidate>): real
    requires members != []
  {
    assert members[0].createdAt in Created(members);
    (Last(Created(members)) - Least(Created(members))) as real / 86400.0
  }

  function StakeMin(members: seq<Candidate>): (least: real)
    requires members != []
    ensures (exists m <- members :: m.stake == least) && forall m <- members :: least <= m.stake
  {
    var rest := members[1..];
    assert members == [members[0]] + rest;
    if rest == [] then members[0].stake
    else
      var r := StakeMin(rest);
      if members[0].stake < r then members[0].stake else r
  }

  function StakeMax(members: seq<Candidate>): (most: real)
    ensures (most == 0.0 || exists m <- members :: m.stake == most) && most >= 0.0 && forall m <- members :: m.stake <= most
  {
    if members == [] then 0.0
    else
      assert members == [members[0]] + members[1..];
      var r := StakeMax(members[1..]);
      if members[0].stake > r then members[0].stake else r
  }

  function RelativeSpread(least: real, most: real): real {
    if most > 0.0 then (most - least) / most else 0.0
  }

  /** What each corroborating signal adds. */
  function AgePoints(days: real): real {
    if days <= 1.0 then 0.25 else if days <= 3.0 then 0.1 else 0.0
  }

  function StakePoints(spread: real): real {
    if spread <= 0.03 then 0.2 else if spread <= 0.10 then 0.1 else if spread <= 0.25 then 0.05 else 0.0
  }

  function WhalePoints(least: real): real {
    if least >= HIGH_STAKE_GRT then 0.15 else 0.0
  }

  function CrowdPoints(overlap: real): real {
    if overlap >= CROWD_OVERLAP then 0.2 else if overlap >= 0.5 then 0.1 else 0.0
  }

  function Points(days: real, spread: real, least: real, overlap: real): real {
    AgePoints(days) + StakePoints(spread) + WhalePoints(least) + CrowdPoints(overlap)
  }

  /** What the four signals add up to. */
  function Corroboration(members: seq<Candidate>): real
    requires members != []
  {
    var least, most := StakeMin(members), StakeMax(members);
    Points(SpreadDays(members), RelativeSpread(least, most), least, Mean(PairSum(members), Pairs(|members|)))
  }

  function Capped(points: real): real {
    if points < 1.0 then points else 1.0
  }

  function Confidence(members: seq<Candidate>): real
    requires members != []
  {
    Capped(0.4 + Corroboration(members))
  }

  function AddressOf(m: Candidate): string { m.address }

  /** A swarm as it is stored. Its id is a hash of `identity`. */
  datatype SybilCluster = SybilCluster(identity: string, confidence: real, members: seq<string>)

  function Addresses(members: seq<Candidate>): seq<string> {
    seq(|members|, i requires 0 <= i < |members| => members[i].address)
  }

  function Built(members: seq<Candidate>): SybilCluster
    requires members != []
  {
    var addresses := Sort(Addresses(members), Itself);
    SybilCluster(JoinTexts(addresses), Confidence(members), addresses)
  }

  method BuildCluster(members: seq<Candidate>) returns (cluster: SybilCluster)
    requires members != []
    ensures cluster == Built(members)
  {
    var addresses := Sort(Addresses(members), Itself);
    var days := SpreadDays(members);
    var least, most := StakeMin(members), StakeMax(members);
    var spread := RelativeSpread(least, most);
    var overlap := MeanOverlap(members);
    var confidence := 0.4;
    if days <= 1.0 { confidence := confidence + 0.25; } else if days <= 3.0 { confidence := confidence + 0.1; }
    assert confidence == 0.4 + AgePoints(days);
    if spread <= 0.03 {
      confidence := confidence + 0.2;
    } else if spread <= 0.10 {
      confidence := confidence + 0.1;
    } else if spread <= 0.25 {
      confidence := confidence + 0.05;
    }
    if least >= HIGH_STAKE_GRT { confidence := confidence + 0.15; }
    if overlap >= CROWD_OVERLAP { confidence := confidence + 0.2; } else if overlap >= 0.5 { confidence := confidence + 0.1; }
    confidence := if confidence < 1.0 then confidence else 1.0;
    cluster := SybilCluster(JoinTexts(addresses), confidence, addresses);
  }

  lemma SameMembers(s: seq<Candidate>, t: seq<Candidate>)
    requires multiset(s) == multiset(t)
    ensures forall m :: m in s <==> m in t
  {
    forall m
      ensures m in s <==> m in t
    {
      assert m in s <==> m in multiset(s);
      assert m in t <==> m in multiset(t);
    }
  }

  lemma StakesIgnoreOrder(s: seq<Candidate>, t: seq<Candidate>)
    requires s != [] && t != [] && forall m :: m in s <==> m in t
    ensures StakeMin(s) == StakeMin(t) && StakeMax(s) == StakeMax(t)
  {
  }

  lemma SpreadIgnoresOrder(s: seq<Candidate>, t: seq<Candidate>)
    requires s != [] && t != [] && forall m :: m in s <==> m in t
    ensures SpreadDays(s) == SpreadDays(t)
  {
    assert s[0].createdAt in Created(s) && Created(s) == Created(t);
  }

  lemma ConfidenceIgnoresOrder(s: seq<Candidate>, t: seq<Candidate>)
    requires s != [] && t != [] && multiset(s) == multiset(t)
    ensures Confidence(s) == Confidence(t)
  {
    SameMembers(s, t);
    PairSame(s, t);
    SpreadIgnoresOrder(s, t);
    StakesIgnoreOrder(s, t);
    assert Corroboration(s) == Corroboration(t);
  }

  predicate DistinctAddresses(members: seq<Candidate>) {
    DistinctKeys(members, AddressOf)
  }

  lemma AddressesDistinct(members: seq<Candidate>)
    requires DistinctAddresses(members)
    ensures DistinctKeys(Addresses(members), Itself)
    ensures forall a :: a in Addresses(members) <==> exists m :: m in members && m.address == a
  {
    forall i, j | 0 <= i < j < |members|
      ensures Itself(Addresses(members)[i]) != Itself(Addresses(members)[j])
    {
      assert AddressOf(members[i]) != AddressOf(members[j]);
    }
    forall a
      ensures a in Addresses(members) <==> exists m :: m in members && m.address == a
    {
      if m :| m in members && m.address == a {
        var i :| 0 <= i < |members| && members[i] == m;
        assert Addresses(members)[i] == a;
      }
    }
  }

  /** The stored swarm, id and confidence included, is a function of who its members are. */
  lemma ClusterIgnoresOrder(s: seq<Candidate>, t: seq<Candidate>)
    requires s != [] && t != [] && multiset(s) == multiset(t) && DistinctAddresses(s) && DistinctAddresses(t)
    ensures Built(s) == Built(t)
  {
    ConfidenceIgnoresOrder(s, t);
    SameMembers(s, t);
    AddressesDistinct(s);
    AddressesDistinct(t);
    SortSorts(Addresses(s), Itself);
    SortSorts(Addresses(t), Itself);
    SortedUnique(Sort(Addresses(s), Itself), Sort(Addresses(t), Itself), Itself);
  }

  // ---------------------------------------------------------------------------
  // Everything that is stored, over a roster in any order.

  predicate InRoster(c: seq<Candidate>, g: seq<nat>) {
    g != [] && forall x <- g :: x < |c|
  }

  function Members(c: seq<Candidate>, g: seq<nat>): seq<Candidate>
    requires InRoster(c, g)
  {
    seq(|g|, i requires 0 <= i < |g| => assert g[i] in g; c[g[i]])
  }

  /** The stored swarms for the member lists found over a roster. */
  function Found(c: seq<Candidate>, out: seq<seq<nat>>): set<SybilCluster>
    requires forall g <- out :: InRoster(c, g)
  {
    set g | g in out :: Built(Members(c, g))
  }

  lemma SwarmsAreInRoster(c: seq<Candidate>, out: seq<seq<nat>>)
    requires AreSwarms(c, out)
    ensures forall g <- out :: InRoster(c, g)
  {
    forall g | g in out
      ensures InRoster(c, g)
    {
      assert Component(c, SetOf(g)) && forall x <- g :: x in SetOf(g);
    }
  }

  lemma {:induction false} SizeAtMost(g: seq<nat>)
    ensures |SetOf(g)| <= |g|
  {
    if g != [] {
      SizeAtMost(g[1..]);
      assert g == [g[0]] + g[1..];
      assert SetOf(g) == {g[0]} + SetOf(g[1..]);
    }
  }

  lemma RepeatShrinks(g: seq<nat>, i: nat, j: nat)
    requires i < j < |g| && g[i] == g[j]
    ensures |SetOf(g)| < |g|
  {
    var rest := g[..j] + g[j + 1..];
    assert g == g[..j] + [g[j]] + g[j + 1..] && rest[i] == g[j];
    assert SetOf(g) == SetOf(rest);
    SizeAtMost(rest);
  }

  lemma MembersDistinct(c: seq<Candidate>, g: seq<nat>)
    requires InRoster(c, g) && |SetOf(g)| == |g| && DistinctAddresses(c)
    ensures DistinctAddresses(Members(c, g))
  {
    forall i, j | 0 <= i < j < |g|
      ensures AddressOf(Members(c, g)[i]) != AddressOf(Members(c, g)[j])
    {
      if g[i] == g[j] { RepeatShrinks(g, i, j); }
      assert g[i] in g && g[j] in g;
      var x, y := if g[i] < g[j] then g[i] else g[j], if g[i] < g[j] then g[j] else g[i];
      assert AddressOf(c[x]) != AddressOf(c[y]);
    }
  }

  lemma {:induction false} OccursOnce(s: seq<Candidate>, m: Candidate)
    requires DistinctAddresses(s)
    ensures multiset(s)[m] == if m in s then 1 else 0
  {
    if s != [] {
      var init, last := s[..|s| - 1], s[|s| - 1];
      assert s == init + [last];
      OccursOnce(init, m);
    }
  }

  lemma SameSetSameBag(s: seq<Candidate>, t: seq<Candidate>)
    requires DistinctAddresses(s) && DistinctAddresses(t) && forall m :: m in s <==> m in t
    ensures multiset(s) == multiset(t)
  {
    forall m
      ensures multiset(s)[m] == multiset(t)[m]
    {
      OccursOnce(s, m);
      OccursOnce(t, m);
    }
  }

  lemma DistinctPermuted(c: seq<Candidate>, p: seq<nat>)
    requires IsPermutation(p, |c|) && DistinctAddresses(c)
    ensures DistinctAddresses(Permuted(c, p))
  {
    forall i, j | 0 <= i < j < |c|
      ensures AddressOf(Permuted(c, p)[i]) != AddressOf(Permuted(c, p)[j])
    {
      assert p[i] < p[j] || p[j] < p[i];
    }
  }

  lemma SamePeople(c: seq<Candidate>, p: seq<nat>, g: seq<nat>, h: seq<nat>, m: Candidate)
    requires IsPermutation(p, |c|) && InRoster(Permuted(c, p), g) && InRoster(c, h)
    requires SetOf(h) == Image(p, SetOf(g))
    ensures m in Members(Permuted(c, p), g) <==> m in Members(c, h)
  {
    if m in Members(Permuted(c, p), g) {
      var i :| 0 <= i < |g| && Members(Permuted(c, p), g)[i] == m;
      assert g[i] in SetOf(g) && p[g[i]] in SetOf(h);
      var j :| 0 <= j < |h| && h[j] == p[g[i]];
      assert Members(c, h)[j] == m;
    }
    if m in Members(c, h) {
      var j :| 0 <= j < |h| && Members(c, h)[j] == m;
      assert h[j] in SetOf(h);
      var x :| x in SetOf(g) && p[x] == h[j];
      var i :| 0 <= i < |g| && g[i] == x;
      assert Members(Permuted(c, p), g)[i] == m;
    }
  }

  lemma FoundAgain(c: seq<Candidate>, p: seq<nat>, q: seq<nat>, out: seq<seq<nat>>, out': seq<seq<nat>>, g: seq<nat>)
    requires Inverses(p, q, |c|) && DistinctAddresses(c)
    requires AreSwarms(c, out) && AreSwarms(Permuted(c, p), out') && g in out'
    ensures InRoster(Permuted(c, p), g)
    ensures exists h :: h in out && InRoster(c, h) && Built(Members(c, h)) == Built(Members(Permuted(c, p), g))
  {
    SwarmsIgnoreOrder(c, p, q, out, out', g);
    SwarmsAreInRoster(c, out);
    SwarmsAreInRoster(Permuted(c, p), out');
    var h :| h in out && SetOf(h) == Image(p, SetOf(g)) && |h| == |g|;
    DistinctPermuted(c, p);
    var s, t := Members(c, h), Members(Permuted(c, p), g);
    MembersDistinct(c, h);
    MembersDistinct(Permuted(c, p), g);
    forall m
      ensures m in s <==> m in t
    {
      SamePeople(c, p, g, h, m);
    }
    SameSetSameBag(s, t);
    ClusterIgnoresOrder(s, t);
  }

  lemma FoundWithin(c: seq<Candidate>, p: seq<nat>, q: seq<nat>, out: seq<seq<nat>>, c': seq<Candidate>, out': seq<seq<nat>>)
    requires Inverses(p, q, |c|) && DistinctAddresses(c) && c' == Permuted(c, p)
    requires AreSwarms(c, out) && AreSwarms(c', out')
    ensures (forall g <- out :: InRoster(c, g)) && (forall g <- out' :: InRoster(c', g))
    ensures Found(c', out') <= Found(c, out)
  {
    SwarmsAreInRoster(c, out);
    SwarmsAreInRoster(c', out');
    forall g | g in out'
      ensures Built(Members(c', g)) in Found(c, out)
    {
      FoundAgain(c, p, q, out, out', g);
    }
  }

  /** What is stored, ids, members and confidences together, is the same set for every order of the roster. */
  lemma FoundIgnoresOrder(c: seq<Candidate>, p: seq<nat>, q: seq<nat>, out: seq<seq<nat>>, out': seq<seq<nat>>)
    requires Inverses(p, q, |c|) && DistinctAddresses(c)
    requires AreSwarms(c, out) && AreSwarms(Permuted(c, p), out')
    ensures (forall g <- out :: InRoster(c, g)) && (forall g <- out' :: InRoster(Permuted(c, p), g))
    ensures Found(Permuted(c, p), out') == Found(c, out)
  {
    var c' := Permuted(c, p);
    FoundWithin(c, p, q, out, c', out');
    assert Permuted(c', q) == c;
    DistinctPermuted(c, p);
    FoundWithin(c', q, p, out', c, out);
  }

  function IndexIn(c: seq<Candidate>, m: Candidate): (i: nat)
    requires m in c
    ensures i < |c| && c[i] == m
  {
    if c[0] == m then 0 else
      assert c == [c[0]] + c[1..];
      1 + IndexIn(c[1..], m)
  }

  function Places(c: seq<Candidate>, c': seq<Candidate>): (p: seq<nat>)
    requires forall m <- c' :: m in c
    ensures |p| == |c'|
  {
    seq(|c'|, i requires 0 <= i < |c'| => IndexIn(c, c'[i]))
  }

  lemma OnlyPlace(c: seq<Candidate>, i: nat)
    requires DistinctAddresses(c) && i < |c|
    ensures IndexIn(c, c[i]) == i
  {
    var j := IndexIn(c, c[i]);
    assert AddressOf(c[j]) == AddressOf(c[i]);
  }

  lemma PlacesPermute(c: seq<Candidate>, c': seq<Candidate>)
    requires |c| == |c'| && DistinctAddresses(c') && forall m <- c' :: m in c
    ensures IsPermutation(Places(c, c'), |c|) && Permuted(c, Places(c, c')) == c'
  {
    forall i, j | 0 <= i < j < |c|
      ensures Places(c, c')[i] != Places(c, c')[j]
    {
      assert AddressOf(c'[i]) != AddressOf(c'[j]);
    }
  }

  lemma PlacesInvert(c: seq<Candidate>, c': seq<Candidate>)
    requires multiset(c) == multiset(c') && DistinctAddresses(c) && DistinctAddresses(c')
    ensures (forall m :: m in c <==> m in c') && |c| == |c'|
    ensures Inverses(Places(c, c'), Places(c', c), |c|)
  {
    SameMembers(c, c');
    assert |c| == |multiset(c)| == |c'|;
    PlacesPermute(c, c');
    PlacesPermute(c', c);
    var p, q := Places(c, c'), Places(c', c);
    forall i | 0 <= i < |c|
      ensures q[p[i]] == i && p[q[i]] == i
    {
      OnlyPlace(c, i);
      OnlyPlace(c', i);
    }
  }

  /** So two rosters that list the same candidates store the same swarms. */
  lemma SameRosterSameSwarms(c: seq<Candidate>, c': seq<Candidate>, out: seq<seq<nat>>, out': seq<seq<nat>>)
    requires multiset(c) == multiset(c') && DistinctAddresses(c) && DistinctAddresses(c')
    requires AreSwarms(c, out) && AreSwarms(c', out')
    ensures (forall g <- out :: InRoster(c, g)) && (forall g <- out' :: InRoster(c', g))
    ensures Found(c', out') == Found(c, out)
  {
    PlacesInvert(c, c');
    PlacesPermute(c, c');
    FoundIgnoresOrder(c, Places(c, c'), Places(c', c), out, out');
  }

  // ---------------------------------------------------------------------------
  // What the grade makes of it.

  /** What the grade assumes of the confidence it is given: it is a proportion. */
  lemma ConfidenceIsProportion(members: seq<Candidate>, i: Score.Inputs)
    requires members != [] && i.sybilConfidence == Some(Confidence(members))
    ensures ScoreProofs.Confident(i) && Confidence(members) >= 0.4
  {
  }

  lemma PointsAddUp(days: real, spread: real, least: real, overlap: real)
    ensures Points(days, spread, least, overlap) >= CrowdPoints(overlap) >= 0.0
  {
  }

  /** A swarm reaches a public verdict exactly when its signals add up to 0.2. */
  lemma VerdictIffCorroborated(members: seq<Candidate>, i: Score.Inputs)
    requires members != [] && i.sybilConfidence == Some(Confidence(members))
    ensures Score.Swarming(i) <==> Corroboration(members) >= 0.2
  {
  }

  /** Crowding the same deployments is enough for it, whatever the other signals. */
  lemma CrowdingAloneIsAVerdict(members: seq<Candidate>, i: Score.Inputs)
    requires members != [] && i.sybilConfidence == Some(Confidence(members))
    requires Mean(PairSum(members), Pairs(|members|)) >= CROWD_OVERLAP
    ensures Score.Swarming(i)
  {
    var least, most := StakeMin(members), StakeMax(members);
    PointsAddUp(SpreadDays(members), RelativeSpread(least, most), least, Mean(PairSum(members), Pairs(|members|)));
    VerdictIffCorroborated(members, i);
  }

  const SHARED: set<string> := {"v", "w", "x", "y", "z"}

  /** Three operators registered months apart with stakes a tenfold apart, on the same five deployments. */
  const CROWD: seq<Candidate> :=
    [Candidate("a", 0, 100.0, SHARED), Candidate("b", 5000000, 1000.0, SHARED), Candidate("c", 10000000, 10000.0, SHARED)]

  lemma CrowdOverlaps(a: Candidate, b: Candidate)
    requires a.allocations == b.allocations == SHARED
    ensures |SHARED| == 5 && Overlap(a, b) == 1.0
  {
    assert SHARED * SHARED == SHARED;
  }

  lemma CrowdPairs(a: Candidate, b: Candidate, c: Candidate)
    requires a.allocations == b.allocations == c.allocations == SHARED
    ensures Mean(PairSum([a, b, c]), Pairs(3)) == 1.0
  {
    CrowdOverlaps(a, b);
    CrowdOverlaps(a, c);
    CrowdOverlaps(b, c);
    assert [a, b, c][1..] == [b, c] && [b, c][1..] == [c] && [c][1..] == [];
    assert RowSum(a, [b, c]) == Overlap(a, b) + RowSum(a, [c]);
    assert RowSum(a, [c]) == 1.0 && RowSum(b, [c]) == 1.0;
    assert PairSum([c]) == RowSum(c, []) + PairSum([]);
    assert PairSum([b, c]) == 1.0;
    assert Pairs(1) == 0 && Pairs(2) == 1;
  }

  lemma CrowdStakes()
    ensures StakeMin(CROWD) == 100.0 && StakeMax(CROWD) == 10000.0
  {
    assert CROWD[0] in CROWD && CROWD[2] in CROWD;
  }

  lemma CrowdAges()
    ensures SpreadDays(CROWD) > 3.0
  {
    assert CROWD[0] in CROWD && CROWD[2] in CROWD;
    assert 0 in Created(CROWD) && 10000000 in Created(CROWD);
  }

  lemma CrowdIsLinked(x: nat, y: nat)
    requires x < 3 && y < 3 && x != y
    ensures Linked(CROWD[x], CROWD[y])
    ensures !(Abs(CROWD[x].createdAt - CROWD[y].createdAt) <= CREATED_WINDOW_SECS)
  {
    CrowdOverlaps(CROWD[x], CROWD[y]);
  }

  lemma CrowdJoined(x: nat, y: nat)
    requires x < 3 && y < 3
    ensures Joined(AllLinks(CROWD), x, y)
  {
    if x == y {
      JoinedRefl(AllLinks(CROWD), x);
    } else {
      CrowdIsLinked(x, y);
      CrowdIsLinked(y, x);
      JoinedByLink(AllLinks(CROWD), x, y);
    }
  }

  /** Nothing else need hold: these three are a component held together by crowding only, no other signal adds a
      point, and the verdict is reached. */
  lemma CrowdIsAVerdict(i: Score.Inputs)
    requires i.sybilConfidence == Some(Confidence(CROWD))
    ensures Component(CROWD, {0, 1, 2})
    ensures AgePoints(SpreadDays(CROWD)) == StakePoints(RelativeSpread(StakeMin(CROWD), StakeMax(CROWD))) == 0.0
    ensures WhalePoints(StakeMin(CROWD)) == 0.0
    ensures Confidence(CROWD) == 0.6 && Score.Swarming(i)
  {
    CrowdPairs(CROWD[0], CROWD[1], CROWD[2]);
    CrowdStakes();
    CrowdAges();
    forall y: nat
      ensures y in {0, 1, 2} <==> y < |CROWD| && Joined(AllLinks(CROWD), 0, y)
    {
      if y < 3 { CrowdJoined(0, y); }
    }
    VerdictIffCorroborated(CROWD, i);
  }
}
