/** Operator-swarm detection: union-find with path halving over the "same operator" relation, proved to
    compute exactly the connected components. */
module Sybil {
  import opened Prelude

  datatype Candidate = Candidate(address: string, createdAt: int, stake: real, allocations: set<string>)

  const CREATED_WINDOW_SECS: int := 14 * 86400
  const STAKE_REL_TOL: real := 0.25
  const HIGH_STAKE_GRT: real := 50000000.0
  const MIN_MEMBERS: nat := 3
  const CROWD_OVERLAP: real := 0.8
  const CROWD_MIN_ALLOCS: nat := 5

  // ---------------------------------------------------------------------------
  // The link relation.

  function Abs(x: int): int { if x < 0 then -x else x }

  /** |A n B| / min(|A|, |B|), and 0 when either is empty. */
  function OverlapCoefficient(a: set<string>, b: set<string>): real {
    var min := if |a| < |b| then |a| else |b|;
    if min == 0 then 0.0 else |a * b| as real / min as real
  }

  /** Relative stake difference within tolerance. Over two zero stakes the quotient is not a number, and
      over a zero maximum infinite: neither is within tolerance. */
  predicate SimilarStake(a: Candidate, b: Candidate) {
    var max := RealMax(a.stake, b.stake);
    max != 0.0 && RealAbs(a.stake - b.stake) / max <= STAKE_REL_TOL
  }

  predicate Linked(a: Candidate, b: Candidate) {
    var closeTime := Abs(a.createdAt - b.createdAt) <= CREATED_WINDOW_SECS;
    var bothWhales := a.stake >= HIGH_STAKE_GRT && b.stake >= HIGH_STAKE_GRT;
    var crowd := |a.allocations| >= CROWD_MIN_ALLOCS && |b.allocations| >= CROWD_MIN_ALLOCS
                 && OverlapCoefficient(a.allocations, b.allocations) >= CROWD_OVERLAP;
    (closeTime && (SimilarStake(a, b) || bothWhales)) || crowd
  }

  lemma LinkedIsSymmetric(a: Candidate, b: Candidate)
    ensures Linked(a, b) == Linked(b, a)
  {
    assert a.allocations * b.allocations == b.allocations * a.allocations;
    assert RealMax(a.stake, b.stake) == RealMax(b.stake, a.stake);
    assert RealAbs(a.stake - b.stake) == RealAbs(b.stake - a.stake);
  }

  // ---------------------------------------------------------------------------
  // Being joined by a chain of links.

  type Links = set<(nat, nat)>

  predicate Adjacent(links: Links, x: nat, y: nat) {
    (x, y) in links || (y, x) in links
  }

  predicate Chain(links: Links, path: seq<nat>) {
    path != [] && forall i | 0 <= i < |path| - 1 :: Adjacent(links, path[i], path[i + 1])
  }

  ghost predicate Joined(links: Links, x: nat, y: nat) {
    exists path :: Chain(links, path) && path[0] == x && path[|path| - 1] == y
  }

  lemma JoinedRefl(links: Links, x: nat)
    ensures Joined(links, x, x)
  {
    assert Chain(links, [x]);
  }

  lemma JoinedByLink(links: Links, x: nat, y: nat)
    requires Adjacent(links, x, y)
    ensures Joined(links, x, y)
  {
    assert Chain(links, [x, y]);
  }

  function Reverse(path: seq<nat>): seq<nat> {
    seq(|path|, i requires 0 <= i < |path| => path[|path| - 1 - i])
  }

  lemma JoinedSym(links: Links, x: nat, y: nat)
    requires Joined(links, x, y)
    ensures Joined(links, y, x)
  {
    var path :| Chain(links, path) && path[0] == x && path[|path| - 1] == y;
    var back := Reverse(path);
    forall i | 0 <= i < |back| - 1
      ensures Adjacent(links, back[i], back[i + 1])
    {
      assert Adjacent(links, path[|path| - 2 - i], path[|path| - 2 - i + 1]);
    }
    assert Chain(links, back);
  }

  lemma JoinedTrans(links: Links, x: nat, y: nat, z: nat)
    requires Joined(links, x, y) && Joined(links, y, z)
    ensures Joined(links, x, z)
  {
    var p :| Chain(links, p) && p[0] == x && p[|p| - 1] == y;
    var q :| Chain(links, q) && q[0] == y && q[|q| - 1] == z;
    var whole := p + q[1..];
    forall i | 0 <= i < |whole| - 1
      ensures Adjacent(links, whole[i], whole[i + 1])
    {
      if i < |p| - 1 {
        assert Adjacent(links, p[i], p[i + 1]);
      } else {
        assert Adjacent(links, q[i - |p| + 1], q[i - |p| + 2]);
      }
    }
    assert Chain(links, whole);
  }

  lemma JoinedMore(links: Links, more: Links, x: nat, y: nat)
    requires links <= more && Joined(links, x, y)
    ensures Joined(more, x, y)
  {
  }

  // ---------------------------------------------------------------------------
  // The forest. `rep` is the root of every node and `level` rises along every parent link, which is
  // what makes `find` terminate; both are ghost.

  predicate Forest(p: seq<nat>, rep: seq<nat>, level: seq<nat>, bound: nat) {
    && |rep| == |level| == |p|
    && (forall x | 0 <= x < |p| :: p[x] < |p| && rep[x] < |p| && level[x] <= bound)
    && (forall x | 0 <= x < |p| && p[x] != x :: level[x] < level[p[x]])
    && (forall x | 0 <= x < |p| :: rep[p[x]] == rep[x])
    && (forall x | 0 <= x < |p| && p[x] == x :: rep[x] == x)
    && (forall x | 0 <= x < |p| :: p[rep[x]] == rep[x])
  }

  /** Path halving: every other node on the way is re-pointed at its grandparent. No root changes. */
  method Find(parent: array<nat>, x0: nat, ghost rep: seq<nat>, ghost level: seq<nat>, ghost bound: nat) returns (x: nat)
    requires x0 < parent.Length && Forest(parent[..], rep, level, bound)
    modifies parent
    ensures Forest(parent[..], rep, level, bound)
    ensures x == rep[x0] && x < parent.Length && parent[x] == x
  {
    x := x0;
    while parent[x] != x
      invariant x < parent.Length && Forest(parent[..], rep, level, bound) && rep[x] == rep[x0]
      decreases bound - level[x]
    {
      ghost var was := parent[..];
      var p := parent[x];
      assert was[p] == parent[p];
      parent[x] := parent[p];
      assert parent[..] == was[x := was[was[x]]];
      HalvingKeepsForest(was, rep, level, bound, x);
      assert level[x] < level[was[x]] <= level[was[was[x]]];
      x := parent[x];
    }
    assert parent[..][x] == x;
  }

  lemma HalvingKeepsForest(p: seq<nat>, rep: seq<nat>, level: seq<nat>, bound: nat, x: nat)
    requires Forest(p, rep, level, bound) && x < |p| && p[x] != x
    ensures Forest(p[x := p[p[x]]], rep, level, bound)
    ensures rep[p[p[x]]] == rep[x] && level[p[x]] <= level[p[p[x]]]
  {
  }

  // ---------------------------------------------------------------------------
  // Union.

  function Merge(rep: seq<nat>, from: nat, into: nat): seq<nat> {
    seq(|rep|, x requires 0 <= x < |rep| => if rep[x] == from then into else rep[x])
  }

  lemma UnionKeepsForest(p: seq<nat>, rep: seq<nat>, level: seq<nat>, bound: nat, ra: nat, rb: nat)
    requires Forest(p, rep, level, bound) && ra < |p| && rb < |p| && ra != rb && p[ra] == ra && p[rb] == rb
    ensures Forest(p[ra := rb], Merge(rep, ra, rb), level[rb := level[ra] + level[rb] + 1], 2 * bound + 1)
  {
    var q, rep', level' := p[ra := rb], Merge(rep, ra, rb), level[rb := level[ra] + level[rb] + 1];
    assert rep[ra] == ra && rep[rb] == rb;
    forall x | 0 <= x < |q|
      ensures q[x] < |q| && rep'[x] < |q| && level'[x] <= 2 * bound + 1
      ensures q[x] != x ==> level'[x] < level'[q[x]]
      ensures rep'[q[x]] == rep'[x]
      ensures q[x] == x ==> rep'[x] == x
      ensures q[rep'[x]] == rep'[x]
    {
      assert p[x] < |p| && rep[x] < |p| && rep[p[x]] == rep[x] && p[rep[x]] == rep[x];
    }
  }

  /** Two nodes have one root exactly when the links so far join them. */
  ghost predicate Components(links: Links, rep: seq<nat>) {
    forall x, y | 0 <= x < |rep| && 0 <= y < |rep| :: rep[x] == rep[y] <==> Joined(links, x, y)
  }

  predicate LinksInside(links: Links, n: nat) {
    forall l <- links :: l.0 < n && l.1 < n
  }

  lemma {:induction false} ChainKeepsRoot(links: Links, rep: seq<nat>, path: seq<nat>)
    requires Chain(links, path) && path[0] < |rep| && LinksInside(links, |rep|)
    requires forall l <- links :: rep[l.0] == rep[l.1]
    ensures path[|path| - 1] < |rep| && rep[path[0]] == rep[path[|path| - 1]]
  {
    if |path| > 1 {
      assert Adjacent(links, path[0], path[1]);
      forall i | 0 <= i < |path[1..]| - 1
        ensures Adjacent(links, path[1..][i], path[1..][i + 1])
      {
        assert Adjacent(links, path[i + 1], path[i + 2]);
      }
      ChainKeepsRoot(links, rep, path[1..]);
    }
  }

  lemma LinkedNodesShareRoots(links: Links, rep: seq<nat>, x: nat, y: nat)
    requires LinksInside(links, |rep|) && x < |rep| && y < |rep| && Joined(links, x, y)
    requires forall l <- links :: rep[l.0] == rep[l.1]
    ensures rep[x] == rep[y]
  {
    var path :| Chain(links, path) && path[0] == x && path[|path| - 1] == y;
    ChainKeepsRoot(links, rep, path);
  }

  lemma ComponentsLinkRoots(links: Links, rep: seq<nat>)
    requires Components(links, rep) && LinksInside(links, |rep|)
    ensures forall l <- links :: rep[l.0] == rep[l.1]
  {
    forall l | l in links
      ensures rep[l.0] == rep[l.1]
    {
      assert Adjacent(links, l.0, l.1);
      JoinedByLink(links, l.0, l.1);
    }
  }

  lemma SameRootStaysJoined(links: Links, rep: seq<nat>, i: nat, j: nat)
    requires Components(links, rep) && LinksInside(links, |rep|) && i < |rep| && j < |rep| && rep[i] == rep[j]
    ensures Components(links + {(i, j)}, rep)
  {
    var more := links + {(i, j)};
    ComponentsLinkRoots(links, rep);
    forall x, y | 0 <= x < |rep| && 0 <= y < |rep|
      ensures rep[x] == rep[y] <==> Joined(more, x, y)
    {
      if rep[x] == rep[y] { JoinedMore(links, more, x, y); }
      if Joined(more, x, y) { LinkedNodesShareRoots(more, rep, x, y); }
    }
  }

  lemma MergeBridges(links: Links, rep: seq<nat>, i: nat, j: nat, x: nat, y: nat)
    requires Components(links, rep) && i < |rep| && j < |rep| && x < |rep| && y < |rep|
    requires rep[x] == rep[i] && rep[y] == rep[j]
    ensures Joined(links + {(i, j)}, x, y) && Joined(links + {(i, j)}, y, x)
  {
    var more := links + {(i, j)};
    JoinedMore(links, more, x, i);
    JoinedByLink(more, i, j);
    JoinedMore(links, more, j, y);
    JoinedTrans(more, x, i, j);
    JoinedTrans(more, x, j, y);
    JoinedSym(more, x, y);
  }

  lemma UnionJoins(links: Links, rep: seq<nat>, i: nat, j: nat)
    requires Components(links, rep) && LinksInside(links, |rep|) && i < |rep| && j < |rep| && rep[i] != rep[j]
    ensures Components(links + {(i, j)}, Merge(rep, rep[i], rep[j]))
  {
    var more, rep' := links + {(i, j)}, Merge(rep, rep[i], rep[j]);
    ComponentsLinkRoots(links, rep);
    assert forall l <- more :: rep'[l.0] == rep'[l.1];
    forall x, y | 0 <= x < |rep| && 0 <= y < |rep|
      ensures rep'[x] == rep'[y] <==> Joined(more, x, y)
    {
      if rep'[x] == rep'[y] {
        if rep[x] == rep[y] { JoinedMore(links, more, x, y); }
        else if rep[x] == rep[i] { MergeBridges(links, rep, i, j, x, y); }
        else { MergeBridges(links, rep, i, j, y, x); }
      }
      if Joined(more, x, y) { LinkedNodesShareRoots(more, rep', x, y); }
    }
  }

  // ---------------------------------------------------------------------------
  // The double loop.

  type Relation = (Candidate, Candidate) -> bool

  /** The links of the pairs visited before (i, j). */
  ghost function LinksBefore(c: seq<Candidate>, link: Relation, i: nat, j: nat): Links {
    set a: nat, b: nat | a < b < |c| && (a < i || (a == i && b < j)) && link(c[a], c[b]) :: (a, b)
  }

  ghost function AllLinks(c: seq<Candidate>): Links {
    LinksBefore(c, Linked, |c|, 0)
  }

  lemma NextPair(c: seq<Candidate>, link: Relation, i: nat, j: nat)
    requires i < j < |c|
    ensures LinksInside(LinksBefore(c, link, i, j), |c|)
    ensures LinksBefore(c, link, i, j + 1) == LinksBefore(c, link, i, j) + (if link(c[i], c[j]) then {(i, j)} else {})
  {
  }

  lemma NextRow(c: seq<Candidate>, link: Relation, i: nat)
    requires i < |c|
    ensures LinksBefore(c, link, i + 1, i + 2) == LinksBefore(c, link, i, |c|)
  {
  }

  /** A forest whose trees are the components of `links`. */
  ghost predicate UnionFind(p: seq<nat>, rep: seq<nat>, level: seq<nat>, bound: nat, links: Links) {
    Forest(p, rep, level, bound) && Components(links, rep)
  }

  /** Join the trees of two linked nodes. */
  method Union(parent: array<nat>, i: nat, j: nat, ghost links: Links, ghost rep: seq<nat>, ghost level: seq<nat>, ghost bound: nat)
    returns (ghost rep': seq<nat>, ghost level': seq<nat>, ghost bound': nat)
    requires i < parent.Length && j < parent.Length && LinksInside(links, parent.Length)
    requires UnionFind(parent[..], rep, level, bound, links)
    modifies parent
    ensures UnionFind(parent[..], rep', level', bound', links + {(i, j)})
  {
    var ra := Find(parent, i, rep, level, bound);
    var rb := Find(parent, j, rep, level, bound);
    rep', level', bound' := rep, level, bound;
    if ra != rb {
      ghost var was := parent[..];
      UnionKeepsForest(was, rep, level, bound, ra, rb);
      UnionJoins(links, rep, i, j);
      parent[ra] := rb;
      assert parent[..] == was[ra := rb];
      rep', level', bound' := Merge(rep, ra, rb), level[rb := level[ra] + level[rb] + 1], 2 * bound + 1;
    } else {
      SameRootStaysJoined(links, rep, i, j);
    }
  }

  /** One row of the double loop. */
  method LinkRow(c: seq<Candidate>, link: Relation, i: nat, parent: array<nat>, ghost rep: seq<nat>, ghost level: seq<nat>, ghost bound: nat)
    returns (ghost rep': seq<nat>, ghost level': seq<nat>, ghost bound': nat)
    requires i < |c| == parent.Length
    requires UnionFind(parent[..], rep, level, bound, LinksBefore(c, link, i, i + 1))
    modifies parent
    ensures UnionFind(parent[..], rep', level', bound', LinksBefore(c, link, i, |c|))
  {
    rep', level', bound' := rep, level, bound;
    ghost var links := LinksBefore(c, link, i, i + 1);
    for j := i + 1 to |c|
      invariant links == LinksBefore(c, link, i, j)
      invariant UnionFind(parent[..], rep', level', bound', links)
    {
      NextPair(c, link, i, j);
      if link(c[i], c[j]) {
        rep', level', bound' := Union(parent, i, j, links, rep', level', bound');
        links := links + {(i, j)};
      }
    }
  }

  /** Union-find over all pairs: afterwards two candidates share a root exactly when a chain of links
      joins them. */
  method LinkAll(c: seq<Candidate>, link: Relation)
    returns (parent: array<nat>, ghost rep: seq<nat>, ghost level: seq<nat>, ghost bound: nat)
    ensures fresh(parent) && parent.Length == |c|
    ensures UnionFind(parent[..], rep, level, bound, LinksBefore(c, link, |c|, 0))
  {
    parent := new nat[|c|](i => i);
    rep, level, bound := parent[..], seq(|c|, _ => 0), 0;
    NoLinksYet(c, link, rep);
    for i := 0 to |c|
      invariant UnionFind(parent[..], rep, level, bound, LinksBefore(c, link, i, i + 1))
    {
      rep, level, bound := LinkRow(c, link, i, parent, rep, level, bound);
      NextRow(c, link, i);
    }
    assert LinksBefore(c, link, |c|, |c| + 1) == LinksBefore(c, link, |c|, 0);
  }

  lemma NoLinksYet(c: seq<Candidate>, link: Relation, rep: seq<nat>)
    requires |rep| == |c| && forall x | 0 <= x < |rep| :: rep[x] == x
    ensures Components(LinksBefore(c, link, 0, 1), rep)
  {
    assert LinksBefore(c, link, 0, 1) == {};
    forall x, y | 0 <= x < |rep| && 0 <= y < |rep|
      ensures rep[x] == rep[y] <==> Joined({}, x, y)
    {
      if x == y { JoinedRefl({}, x); }
      if Joined({}, x, y) { LinkedNodesShareRoots({}, rep, x, y); }
    }
  }

  // ---------------------------------------------------------------------------
  // Collecting groups.

  /** The nodes below `n` whose root is `r`, ascending. */
  function Class(rep: seq<nat>, r: nat, n: nat): seq<nat>
    requires n <= |rep|
  {
    if n == 0 then [] else Class(rep, r, n - 1) + (if rep[n - 1] == r then [n - 1] else [])
  }

  lemma {:induction false} ClassMembers(rep: seq<nat>, r: nat, n: nat)
    requires n <= |rep|
    ensures forall x: nat :: x in Class(rep, r, n) <==> x < n && rep[x] == r
    ensures Ascending(Class(rep, r, n))
  {
    if n > 0 {
      ClassMembers(rep, r, n - 1);
      var before := Class(rep, r, n - 1);
      assert forall i | 0 <= i < |before| :: before[i] in before;
    }
  }

  predicate Ascending(members: seq<nat>) {
    forall i, j | 0 <= i < j < |members| :: members[i] < members[j]
  }

  function SetOf(members: seq<nat>): set<nat> {
    set x | x in members
  }

  lemma {:induction false} AscendingSize(members: seq<nat>)
    requires Ascending(members)
    ensures |SetOf(members)| == |members|
  {
    if members != [] {
      var init, last := members[..|members| - 1], members[|members| - 1];
      AscendingSize(init);
      assert SetOf(members) == SetOf(init) + {last};
    }
  }

  /** A connected component: all the candidates a given one is joined to. */
  ghost predicate Component(c: seq<Candidate>, s: set<nat>) {
    exists x: nat :: x < |c| && x in s && forall y: nat :: y in s <==> y < |c| && Joined(AllLinks(c), x, y)
  }

  lemma ClassIsComponent(c: seq<Candidate>, rep: seq<nat>, x: nat)
    requires |rep| == |c| && Components(AllLinks(c), rep) && x < |c|
    ensures Component(c, SetOf(Class(rep, rep[x], |c|)))
  {
    var s := SetOf(Class(rep, rep[x], |c|));
    ClassMembers(rep, rep[x], |c|);
    assert x in s;
    forall y: nat
      ensures y in s <==> y < |c| && Joined(AllLinks(c), x, y)
    {
    }
  }

  lemma ComponentIsClass(c: seq<Candidate>, rep: seq<nat>, s: set<nat>) returns (x: nat)
    requires |rep| == |c| && Components(AllLinks(c), rep) && Component(c, s)
    ensures x < |c| && s == SetOf(Class(rep, rep[x], |c|))
  {
    x :| x < |c| && x in s && forall y: nat :: y in s <==> y < |c| && Joined(AllLinks(c), x, y);
    ClassMembers(rep, rep[x], |c|);
    forall y: nat
      ensures y in s <==> y in Class(rep, rep[x], |c|)
    {
    }
  }

  /** The map from root to members, over the nodes below `n`. */
  predicate GroupedBelow(rep: seq<nat>, n: nat, groups: map<nat, seq<nat>>)
    requires n <= |rep|
  {
    && (forall r <- groups :: groups[r] == Class(rep, r, n) && groups[r] != [])
    && (forall x: nat | x < n :: rep[x] in groups)
  }

  lemma UngroupedIsEmpty(rep: seq<nat>, n: nat, groups: map<nat, seq<nat>>, r: nat)
    requires n <= |rep| && GroupedBelow(rep, n, groups) && r !in groups
    ensures Class(rep, r, n) == []
  {
    var before := Class(rep, r, n);
    ClassMembers(rep, r, n);
    AscendingSize(before);
    assert SetOf(before) == {};
  }

  lemma OneMoreMember(rep: seq<nat>, n: nat, groups: map<nat, seq<nat>>)
    requires n < |rep| && GroupedBelow(rep, n, groups)
    ensures GroupedBelow(rep, n + 1, groups[rep[n] := (if rep[n] in groups then groups[rep[n]] else []) + [n]])
  {
    var more := groups[rep[n] := (if rep[n] in groups then groups[rep[n]] else []) + [n]];
    if rep[n] !in groups { UngroupedIsEmpty(rep, n, groups, rep[n]); }
    forall r | r in more
      ensures more[r] == Class(rep, r, n + 1) && more[r] != []
    {
      assert r != rep[n] ==> r in groups && more[r] == groups[r];
    }
    forall x: nat | x < n + 1
      ensures rep[x] in more
    {
      assert x < n ==> rep[x] in groups;
    }
  }

  method GroupByRoot(c: seq<Candidate>, parent: array<nat>, ghost rep: seq<nat>, ghost level: seq<nat>, ghost bound: nat)
    returns (groups: map<nat, seq<nat>>)
    requires parent.Length == |c| && Forest(parent[..], rep, level, bound)
    modifies parent
    ensures GroupedBelow(rep, |c|, groups)
  {
    groups := map[];
    for i := 0 to |c|
      invariant Forest(parent[..], rep, level, bound)
      invariant GroupedBelow(rep, i, groups)
    {
      OneMoreMember(rep, i, groups);
      var r := Find(parent, i, rep, level, bound);
      groups := groups[r := (if r in groups then groups[r] else []) + [i]];
    }
  }

  /** The detected swarms: exactly the connected components of at least three candidates, each once,
      in whatever order the map yields them. */
  ghost predicate AreSwarms(c: seq<Candidate>, out: seq<seq<nat>>) {
    && (forall g <- out :: Component(c, SetOf(g)) && |SetOf(g)| == |g| >= MIN_MEMBERS)
    && (forall s | Component(c, s) && |s| >= MIN_MEMBERS :: exists g :: g in out && SetOf(g) == s)
    && Apart(out)
  }

  /** The groups of the roots `taken`, those of at least three members, each once. */
  predicate Listed(groups: map<nat, seq<nat>>, taken: set<nat>, out: seq<seq<nat>>) {
    EachListed(groups, taken, out) && Apart(out)
  }

  /** The groups worth reporting, in whatever order the map yields them. */
  method KeepLarge(groups: map<nat, seq<nat>>, ghost rep: seq<nat>, ghost n: nat) returns (out: seq<seq<nat>>)
    requires n <= |rep| && GroupedBelow(rep, n, groups)
    ensures Listed(groups, groups.Keys, out)
  {
    out := [];
    var rest := groups.Keys;
    ghost var taken: set<nat> := {};
    while rest != {}
      invariant rest == groups.Keys - taken && taken <= groups.Keys && Listed(groups, taken, out)
      decreases rest
    {
      var r :| r in rest;
      ListOneMore(rep, n, groups, taken, r, out);
      if |groups[r]| >= MIN_MEMBERS {
        out := out + [groups[r]];
      }
      rest, taken := rest - {r}, taken + {r};
    }
    assert taken == groups.Keys;
  }

  method Cluster(c: seq<Candidate>) returns (out: seq<seq<nat>>)
    ensures AreSwarms(c, out)
  {
    var parent, rep, level, bound := LinkAll(c, Linked);
    var groups := GroupByRoot(c, parent, rep, level, bound);
    out := KeepLarge(groups, rep, |c|);
    ListedAreSwarms(c, rep, groups, out);
  }

  lemma ClassesAreDisjoint(rep: seq<nat>, n: nat, q: nat, r: nat)
    requires n <= |rep| && q != r
    ensures SetOf(Class(rep, q, n)) !! SetOf(Class(rep, r, n))
  {
    ClassMembers(rep, q, n);
    ClassMembers(rep, r, n);
  }

  predicate EachListed(groups: map<nat, seq<nat>>, taken: set<nat>, out: seq<seq<nat>>) {
    && (forall g <- out :: |g| >= MIN_MEMBERS && exists r <- taken :: r in groups && g == groups[r])
    && (forall r <- taken :: r in groups && |groups[r]| >= MIN_MEMBERS ==> groups[r] in out)
  }

  predicate Apart(out: seq<seq<nat>>) {
    forall i, j | 0 <= i < j < |out| :: SetOf(out[i]) !! SetOf(out[j])
  }

  lemma EachOneMore(groups: map<nat, seq<nat>>, taken: set<nat>, r: nat, out: seq<seq<nat>>)
    requires r in groups && EachListed(groups, taken, out)
    ensures EachListed(groups, taken + {r}, if |groups[r]| >= MIN_MEMBERS then out + [groups[r]] else out)
  {
  }

  lemma ApartFromTaken(rep: seq<nat>, n: nat, groups: map<nat, seq<nat>>, taken: set<nat>, r: nat, out: seq<seq<nat>>)
    requires n <= |rep| && GroupedBelow(rep, n, groups) && r in groups && r !in taken && EachListed(groups, taken, out)
    ensures forall i | 0 <= i < |out| :: SetOf(out[i]) !! SetOf(groups[r])
  {
    forall i | 0 <= i < |out|
      ensures SetOf(out[i]) !! SetOf(groups[r])
    {
      assert out[i] in out;
      var q :| q in taken && q in groups && out[i] == groups[q];
      ClassesAreDisjoint(rep, n, q, r);
    }
  }

  lemma ListOneMore(rep: seq<nat>, n: nat, groups: map<nat, seq<nat>>, taken: set<nat>, r: nat, out: seq<seq<nat>>)
    requires n <= |rep| && GroupedBelow(rep, n, groups) && r in groups && r !in taken && Listed(groups, taken, out)
    ensures Listed(groups, taken + {r}, if |groups[r]| >= MIN_MEMBERS then out + [groups[r]] else out)
  {
    EachOneMore(groups, taken, r, out);
    ApartFromTaken(rep, n, groups, taken, r, out);
  }

  lemma ListedIsComponent(c: seq<Candidate>, rep: seq<nat>, groups: map<nat, seq<nat>>, r: nat)
    requires |rep| == |c| && Components(AllLinks(c), rep) && GroupedBelow(rep, |c|, groups) && r in groups
    ensures Component(c, SetOf(groups[r])) && |SetOf(groups[r])| == |groups[r]|
  {
    var x := groups[r][0];
    ClassMembers(rep, r, |c|);
    assert x in groups[r];
    ClassIsComponent(c, rep, x);
    AscendingSize(groups[r]);
  }

  lemma ComponentIsListed(c: seq<Candidate>, rep: seq<nat>, groups: map<nat, seq<nat>>, out: seq<seq<nat>>, s: set<nat>)
    requires |rep| == |c| && Components(AllLinks(c), rep)
    requires GroupedBelow(rep, |c|, groups) && Listed(groups, groups.Keys, out)
    requires Component(c, s) && |s| >= MIN_MEMBERS
    ensures exists g :: g in out && SetOf(g) == s
  {
    var x := ComponentIsClass(c, rep, s);
    ClassMembers(rep, rep[x], |c|);
    AscendingSize(groups[rep[x]]);
    assert groups[rep[x]] in out;
  }

  lemma ListedAreSwarms(c: seq<Candidate>, rep: seq<nat>, groups: map<nat, seq<nat>>, out: seq<seq<nat>>)
    requires |rep| == |c| && Components(AllLinks(c), rep)
    requires GroupedBelow(rep, |c|, groups) && Listed(groups, groups.Keys, out)
    ensures AreSwarms(c, out)
  {
    forall g | g in out
      ensures Component(c, SetOf(g)) && |SetOf(g)| == |g| >= MIN_MEMBERS
    {
      var r :| r in groups && g == groups[r];
      ListedIsComponent(c, rep, groups, r);
    }
    forall s | Component(c, s) && |s| >= MIN_MEMBERS
      ensures exists g :: g in out && SetOf(g) == s
    {
      ComponentIsListed(c, rep, groups, out, s);
    }
  }

  // ---------------------------------------------------------------------------
  // The order of the candidates does not matter.

  predicate IsPermutation(p: seq<nat>, n: nat) {
    && |p| == n
    && (forall i | 0 <= i < n :: p[i] < n)
    && (forall i, j | 0 <= i < j < n :: p[i] != p[j])
  }

  function Permuted(c: seq<Candidate>, p: seq<nat>): seq<Candidate>
    requires IsPermutation(p, |c|)
  {
    seq(|c|, i requires 0 <= i < |c| => c[p[i]])
  }

  /** Reordering candidates carries links to links. */
  lemma AdjacentPermuted(c: seq<Candidate>, p: seq<nat>, x: nat, y: nat)
    requires IsPermutation(p, |c|) && Adjacent(AllLinks(Permuted(c, p)), x, y)
    ensures x < |c| && y < |c| && Adjacent(AllLinks(c), p[x], p[y])
  {
    LinkedIsSymmetric(c[p[x]], c[p[y]]);
    assert p[x] != p[y];
  }

  function Along(p: seq<nat>, path: seq<nat>): seq<nat>
    requires forall i | 0 <= i < |path| :: path[i] < |p|
  {
    seq(|path|, i requires 0 <= i < |path| => p[path[i]])
  }

  lemma ChainStaysInside(c: seq<Candidate>, path: seq<nat>, i: nat)
    requires Chain(AllLinks(c), path) && path[0] < |c| && i < |path|
    ensures path[i] < |c|
  {
    if i > 0 {
      assert Adjacent(AllLinks(c), path[i - 1], path[i]);
    }
  }

  lemma JoinedPermuted(c: seq<Candidate>, p: seq<nat>, x: nat, y: nat)
    requires IsPermutation(p, |c|) && x < |c| && Joined(AllLinks(Permuted(c, p)), x, y)
    ensures y < |c| && Joined(AllLinks(c), p[x], p[y])
  {
    var c' := Permuted(c, p);
    var path :| Chain(AllLinks(c'), path) && path[0] == x && path[|path| - 1] == y;
    forall i | 0 <= i < |path|
      ensures path[i] < |p|
    {
      ChainStaysInside(c', path, i);
    }
    var image := Along(p, path);
    forall i | 0 <= i < |image| - 1
      ensures Adjacent(AllLinks(c), image[i], image[i + 1])
    {
      assert Adjacent(AllLinks(c'), path[i], path[i + 1]);
      AdjacentPermuted(c, p, path[i], path[i + 1]);
    }
    assert Chain(AllLinks(c), image);
  }

  /** `q` undoes `p`. */
  predicate Inverses(p: seq<nat>, q: seq<nat>, n: nat) {
    IsPermutation(p, n) && IsPermutation(q, n) && forall i | 0 <= i < n :: q[p[i]] == i && p[q[i]] == i
  }

  function Image(p: seq<nat>, s: set<nat>): set<nat>
    requires forall x | x in s :: x < |p|
  {
    set x | x in s :: p[x]
  }

  lemma ComponentPermuted(c: seq<Candidate>, p: seq<nat>, q: seq<nat>, s: set<nat>)
    requires Inverses(p, q, |c|) && Component(Permuted(c, p), s)
    ensures (forall x | x in s :: x < |c|) && Component(c, Image(p, s))
  {
    var c' := Permuted(c, p);
    var x: nat :| x < |c'| && x in s && forall y: nat :: y in s <==> y < |c'| && Joined(AllLinks(c'), x, y);
    var image := Image(p, s);
    assert p[x] in image;
    assert Permuted(c', q) == c;
    forall y: nat
      ensures y in image <==> y < |c| && Joined(AllLinks(c), p[x], y)
    {
      if y in image {
        var z :| z in s && p[z] == y;
        JoinedPermuted(c, p, x, z);
      }
      if y < |c| && Joined(AllLinks(c), p[x], y) {
        JoinedPermuted(c', q, p[x], y);
        assert q[y] in s && p[q[y]] == y;
      }
    }
  }

  /** Whatever order the roster comes in, the same swarms are detected: the members of each one found
      over a reordered roster are, up to the reordering, the members of one found over the original. */
  lemma SwarmsIgnoreOrder(c: seq<Candidate>, p: seq<nat>, q: seq<nat>, out: seq<seq<nat>>, out': seq<seq<nat>>, g: seq<nat>)
    requires Inverses(p, q, |c|)
    requires AreSwarms(c, out) && AreSwarms(Permuted(c, p), out') && g in out'
    ensures (forall x | x in SetOf(g) :: x < |c|) && exists h :: h in out && SetOf(h) == Image(p, SetOf(g)) && |h| == |g|
  {
    var s := SetOf(g);
    ComponentPermuted(c, p, q, s);
    ImageKeepsSize(p, s, |c|);
    var h :| h in out && SetOf(h) == Image(p, s);
  }

  lemma ImageTake(p: seq<nat>, s: set<nat>, n: nat, x: nat)
    requires IsPermutation(p, n) && x in s && forall y | y in s :: y < n
    ensures Image(p, s) == Image(p, s - {x}) + {p[x]} && p[x] !in Image(p, s - {x})
  {
  }

  lemma {:induction false} ImageKeepsSize(p: seq<nat>, s: set<nat>, n: nat)
    requires IsPermutation(p, n) && forall x | x in s :: x < n
    ensures |Image(p, s)| == |s|
    decreases s
  {
    if s != {} {
      var x := Pick(s);
      ImageKeepsSize(p, s - {x}, n);
      ImageTake(p, s, n, x);
    } else {
      assert Image(p, s) == {};
    }
  }
}
