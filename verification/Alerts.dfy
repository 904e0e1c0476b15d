/** What changed about an indexer since the last look, as alert events. */
module Alerts {
  import opened Prelude

  const MAX_POI_STALENESS_DAYS := 28
  const POI_AMBER_DAYS_LEFT := 7
  const POI_RED_DAYS_LEFT := 2

  datatype Kind = POI | DENIED | SIGNAL | CUTS | REO

  datatype Tone = FreshTone | DueTone | CloseTone

  datatype Allocation = Allocation(id: string, deployment: string, createdAt: int, signal: real, denied: bool)

  datatype Cuts = Cuts(indexing: int, query: int)

  datatype Snapshot = Snapshot(epoch: int, allocations: seq<Allocation>,
                               indexingCut: Option<int>, queryCut: Option<int>, reo: Option<string>)

  datatype Event =
    | PoiEvent(id: string, tone: Tone)
    | DenialEvent(deployment: string, denied: bool)
    | SignalEvent(deployment: string, from: real, to: real)
    | CutsEvent(before: Cuts, after: Cuts)
    | ReoEvent(earlier: string, later: string)

  /** What a subscription remembers: nothing before its first look. */
  datatype State =
    | Unseen
    | Seen(poi: map<string, Tone>, denied: map<string, bool>, signal: map<string, real>,
           cuts: Option<Cuts>, reo: Option<string>)

  function ToneFor(daysLeft: int): Tone {
    if daysLeft <= POI_RED_DAYS_LEFT then CloseTone else if daysLeft <= POI_AMBER_DAYS_LEFT then DueTone else FreshTone
  }

  function Rank(t: Tone): nat {
    match t case CloseTone => 2 case DueTone => 1 case FreshTone => 0
  }

  function ToneOf(epoch: int, a: Allocation): Tone {
    ToneFor(MAX_POI_STALENESS_DAYS - Max(epoch - a.createdAt, 0))
  }

  function PoiIn(s: State, id: string): Tone {
    if s.Seen? && id in s.poi then s.poi[id] else FreshTone
  }

  function DeniedIn(s: State, deployment: string): bool {
    s.Seen? && deployment in s.denied && s.denied[deployment]
  }

  function SignalIn(s: State, deployment: string): Option<real> {
    if s.Seen? && deployment in s.signal then Some(s.signal[deployment]) else None
  }

  function CutsIn(s: State): Option<Cuts> {
    if s.Seen? then s.cuts else None
  }

  function ReoIn(s: State): Option<string> {
    if s.Seen? then s.reo else None
  }

  /** The level moved by the threshold or more; from nothing, any level is an infinite move. */
  predicate Moves(baseline: real, level: real, percent: real) {
    if baseline > 0.0 then RealAbs(100.0 * (level - baseline) / baseline) >= percent
    else if level > 0.0 then true
    else 0.0 >= percent
  }

  // ---------------------------------------------------------------------------
  // Listings.

  predicate Lists(allocations: seq<Allocation>, deployment: string) {
    exists a <- allocations :: a.deployment == deployment
  }

  predicate Has(allocations: seq<Allocation>, id: string) {
    exists a <- allocations :: a.id == id
  }

  /** The first allocation listed on a deployment: the one that speaks for it. */
  function FirstOn(allocations: seq<Allocation>, deployment: string): (a: Allocation)
    requires Lists(allocations, deployment)
    ensures a in allocations && a.deployment == deployment
  {
    var before := allocations[..|allocations| - 1];
    if Lists(before, deployment) then FirstOn(before, deployment) else allocations[|allocations| - 1]
  }

  /** The last allocation listed under an id. */
  function LastWith(allocations: seq<Allocation>, id: string): (a: Allocation)
    requires Has(allocations, id)
    ensures a in allocations && a.id == id
  {
    var last := allocations[|allocations| - 1];
    if last.id == id then last else LastWith(allocations[..|allocations| - 1], id)
  }

  // ---------------------------------------------------------------------------
  // The new state.

  function Tones(epoch: int, allocations: seq<Allocation>): map<string, Tone> {
    map id | id in (set a | a in allocations :: a.id) :: ToneOf(epoch, LastWith(allocations, id))
  }

  function Deployments(allocations: seq<Allocation>): set<string> {
    set a | a in allocations :: a.deployment
  }

  function Denials(allocations: seq<Allocation>): map<string, bool> {
    map d | d in Deployments(allocations) :: FirstOn(allocations, d).denied
  }

  /** The level at the last alert, so that a slow drift still arrives. */
  function Kept(baseline: Option<real>, level: real, percent: real): real {
    if baseline.Some? && !Moves(baseline.value, level, percent) then baseline.value else level
  }

  /** The baseline each deployment is left with. */
  function SignalFor(prev: State, percent: real, allocations: seq<Allocation>, deployment: string): real
    requires Lists(allocations, deployment)
  {
    Kept(SignalIn(prev, deployment), FirstOn(allocations, deployment).signal, percent)
  }

  function Signals(prev: State, percent: real, allocations: seq<Allocation>): map<string, real> {
    map d | d in Deployments(allocations) :: SignalFor(prev, percent, allocations, d)
  }

  function SnapshotCuts(snap: Snapshot): Option<Cuts> {
    if snap.indexingCut.Some? && snap.queryCut.Some? then Some(Cuts(snap.indexingCut.value, snap.queryCut.value)) else None
  }

  function Newer<T>(now: Option<T>, was: Option<T>): Option<T> {
    if now.Some? then now else was
  }

  function Next(prev: State, snap: Snapshot, percent: real): State {
    Seen(Tones(snap.epoch, snap.allocations), Denials(snap.allocations), Signals(prev, percent, snap.allocations),
         Newer(SnapshotCuts(snap), CutsIn(prev)), Newer(snap.reo, ReoIn(prev)))
  }

  // ---------------------------------------------------------------------------
  // The events.

  function PoiEvents(prev: State, kinds: set<Kind>, epoch: int, a: Allocation): seq<Event> {
    if POI in kinds && prev.Seen? && Rank(ToneOf(epoch, a)) > Rank(PoiIn(prev, a.id)) then [PoiEvent(a.id, ToneOf(epoch, a))]
    else []
  }

  function DenialEvents(prev: State, kinds: set<Kind>, a: Allocation): seq<Event> {
    if DENIED in kinds && prev.Seen? && a.denied != DeniedIn(prev, a.deployment) then [DenialEvent(a.deployment, a.denied)]
    else []
  }

  function SignalEvents(prev: State, kinds: set<Kind>, percent: real, a: Allocation): seq<Event> {
    var b := SignalIn(prev, a.deployment);
    if SIGNAL in kinds && b.Some? && Moves(b.value, a.signal, percent) then [SignalEvent(a.deployment, b.value, a.signal)]
    else []
  }

  /** In listing order; a deployment is spoken for once. */
  function AllocationEvents(prev: State, kinds: set<Kind>, percent: real, epoch: int, allocations: seq<Allocation>): seq<Event> {
    if allocations == [] then []
    else
      var before, a := allocations[..|allocations| - 1], allocations[|allocations| - 1];
      AllocationEvents(prev, kinds, percent, epoch, before) + PoiEvents(prev, kinds, epoch, a)
      + (if Lists(before, a.deployment) then [] else DenialEvents(prev, kinds, a) + SignalEvents(prev, kinds, percent, a))
  }

  function CutsEvents(prev: State, kinds: set<Kind>, snap: Snapshot): seq<Event> {
    var was, now := CutsIn(prev), SnapshotCuts(snap);
    if CUTS in kinds && was.Some? && now.Some? && was != now then [CutsEvent(was.value, now.value)] else []
  }

  function ReoEvents(prev: State, kinds: set<Kind>, snap: Snapshot): seq<Event> {
    var was, now := ReoIn(prev), snap.reo;
    if REO in kinds && was.Some? && now.Some? && was != now then [ReoEvent(was.value, now.value)] else []
  }

  function Events(prev: State, snap: Snapshot, kinds: set<Kind>, percent: real): seq<Event> {
    AllocationEvents(prev, kinds, percent, snap.epoch, snap.allocations)
    + CutsEvents(prev, kinds, snap) + ReoEvents(prev, kinds, snap)
  }

  lemma ListingGrows(allocations: seq<Allocation>, a: Allocation)
    ensures (allocations + [a])[..|allocations|] == allocations
    ensures forall d :: Lists(allocations + [a], d) <==> Lists(allocations, d) || d == a.deployment
    ensures forall id :: Has(allocations + [a], id) <==> Has(allocations, id) || id == a.id
    ensures Deployments(allocations + [a]) == Deployments(allocations) + {a.deployment}
  {
  }

  lemma TonesGrow(epoch: int, allocations: seq<Allocation>, a: Allocation)
    ensures Tones(epoch, allocations + [a]) == Tones(epoch, allocations)[a.id := ToneOf(epoch, a)]
  {
  }

  lemma FirstOnGrows(allocations: seq<Allocation>, a: Allocation, deployment: string)
    requires Lists(allocations + [a], deployment)
    ensures FirstOn(allocations + [a], deployment)
         == if Lists(allocations, deployment) then FirstOn(allocations, deployment) else a
  {
  }

  lemma DenialsGrow(allocations: seq<Allocation>, a: Allocation)
    ensures Denials(allocations + [a])
         == if Lists(allocations, a.deployment) then Denials(allocations) else Denials(allocations)[a.deployment := a.denied]
  {
  }

  lemma SignalsGrow(prev: State, percent: real, allocations: seq<Allocation>, a: Allocation)
    ensures Signals(prev, percent, allocations + [a])
         == if Lists(allocations, a.deployment) then Signals(prev, percent, allocations)
            else Signals(prev, percent, allocations)[a.deployment := Kept(SignalIn(prev, a.deployment), a.signal, percent)]
  {
  }

  // ---------------------------------------------------------------------------
  // What the events and the state say, told of the snapshot and what was remembered.

  /** How urgent an allocation of some age in epochs is: red for its last two days of 28, amber for the last seven. */
  predicate IsTone(age: int, t: Tone) {
    match t
    case CloseTone => age >= 26
    case DueTone => 21 <= age < 26
    case FreshTone => age < 21
  }

  predicate MoreUrgent(t: Tone, than: Tone) {
    (t.CloseTone? && !than.CloseTone?) || (t.DueTone? && than.FreshTone?)
  }

  /** The level moved by so many percent of the baseline or more; a baseline of nothing is left by any signal at all. */
  predicate Moved(from: real, to: real, percent: real) {
    if from > 0.0 then 100.0 * (to - from) >= percent * from || 100.0 * (from - to) >= percent * from
    else to > 0.0 || percent <= 0.0
  }

  /** The allocations call for the event. */
  predicate CalledFor(prev: State, kinds: set<Kind>, percent: real, epoch: int, allocations: seq<Allocation>, e: Event) {
    prev.Seen? &&
    match e
    case PoiEvent(id, tone) =>
      POI in kinds && (exists a <- allocations :: a.id == id && IsTone(epoch - a.createdAt, tone))
      && MoreUrgent(tone, if id in prev.poi then prev.poi[id] else FreshTone)
    case DenialEvent(d, denied) =>
      DENIED in kinds && Lists(allocations, d) && denied == FirstOn(allocations, d).denied
      && denied != (d in prev.denied && prev.denied[d])
    case SignalEvent(d, from, to) =>
      SIGNAL in kinds && Lists(allocations, d) && to == FirstOn(allocations, d).signal
      && d in prev.signal && from == prev.signal[d] && Moved(from, to, percent)
    case _ => false
  }

  predicate Called(prev: State, snap: Snapshot, kinds: set<Kind>, percent: real, e: Event) {
    match e
    case CutsEvent(before, after) =>
      CUTS in kinds && prev.Seen? && prev.cuts == Some(before) && before != after
      && snap.indexingCut == Some(after.indexing) && snap.queryCut == Some(after.query)
    case ReoEvent(earlier, later) =>
      REO in kinds && prev.Seen? && prev.reo == Some(earlier) && earlier != later && snap.reo == Some(later)
    case _ => CalledFor(prev, kinds, percent, snap.epoch, snap.allocations, e)
  }

  /** Both speak for one deployment, or of the cuts, or of the eligibility. */
  predicate SameSubject(e: Event, f: Event) {
    || (e.DenialEvent? && f.DenialEvent? && e.deployment == f.deployment)
    || (e.SignalEvent? && f.SignalEvent? && e.deployment == f.deployment)
    || (e.CutsEvent? && f.CutsEvent?) || (e.ReoEvent? && f.ReoEvent?)
  }

  predicate EachOnce(events: seq<Event>) {
    forall i, j | 0 <= i < j < |events| :: !SameSubject(events[i], events[j])
  }

  /** Exactly the events called for are raised, and none of a subject twice. */
  ghost predicate Raised(prev: State, snap: Snapshot, kinds: set<Kind>, percent: real, events: seq<Event>) {
    (forall e :: e in events <==> Called(prev, snap, kinds, percent, e)) && EachOnce(events)
  }

  /** What the next look will compare with: the tones, flags and signals of what is listed, a signal only once it has
      moved, and of the rest what was last known. */
  ghost predicate Remembers(prev: State, snap: Snapshot, percent: real, next: State) {
    && next.Seen?
    && (forall id :: id in next.poi <==> Has(snap.allocations, id))
    && (forall id <- next.poi :: IsTone(snap.epoch - LastWith(snap.allocations, id).createdAt, next.poi[id]))
    && (forall d :: d in next.denied <==> Lists(snap.allocations, d))
    && (forall d <- next.denied :: next.denied[d] == FirstOn(snap.allocations, d).denied)
    && (forall d :: d in next.signal <==> Lists(snap.allocations, d))
    && (forall d <- next.signal ::
          var level := FirstOn(snap.allocations, d).signal;
          next.signal[d] == if prev.Seen? && d in prev.signal && !Moved(prev.signal[d], level, percent) then prev.signal[d]
                            else level)
    && next.cuts == (if snap.indexingCut.Some? && snap.queryCut.Some?
                     then Some(Cuts(snap.indexingCut.value, snap.queryCut.value))
                     else if prev.Seen? then prev.cuts else None)
    && next.reo == (if snap.reo.Some? then snap.reo else if prev.Seen? then prev.reo else None)
  }

  lemma MovesIsMoved(baseline: real, level: real, percent: real)
    ensures Moves(baseline, level, percent) <==> Moved(baseline, level, percent)
  {
    if baseline > 0.0 {
      PercentOf(100.0 * (level - baseline), baseline, percent);
      PercentOf(-(100.0 * (level - baseline)), baseline, percent);
      NegatedQuotient(100.0 * (level - baseline), baseline);
    }
  }

  lemma PercentOf(x: real, n: real, percent: real)
    requires n > 0.0
    ensures x / n >= percent <==> x >= percent * n
  {
    var q := x / n;
    assert q * n == x;
    ScaledOrder(percent, q, n);
  }

  lemma ScaledOrder(x: real, y: real, n: real)
    requires n > 0.0
    ensures x <= y <==> x * n <= y * n
  {
  }

  lemma NegatedQuotient(x: real, n: real)
    requires n > 0.0
    ensures -x / n == -(x / n)
  {
  }

  lemma ToneIsTone(epoch: int, a: Allocation, t: Tone)
    ensures ToneOf(epoch, a) == t <==> IsTone(epoch - a.createdAt, t)
  {
  }

  lemma UrgentIsRank(t: Tone, than: Tone)
    ensures MoreUrgent(t, than) <==> Rank(t) > Rank(than)
  {
  }

  /** What one allocation adds to what is called for. */
  lemma CalledGrows(prev: State, kinds: set<Kind>, percent: real, epoch: int, before: seq<Allocation>, a: Allocation, e: Event)
    ensures CalledFor(prev, kinds, percent, epoch, before + [a], e)
       <==> || CalledFor(prev, kinds, percent, epoch, before, e)
            || e in PoiEvents(prev, kinds, epoch, a)
            || (!Lists(before, a.deployment) && e in DenialEvents(prev, kinds, a) + SignalEvents(prev, kinds, percent, a))
  {
    ListingGrows(before, a);
    match e
    case PoiEvent(id, tone) =>
      ToneIsTone(epoch, a, tone);
      UrgentIsRank(tone, PoiIn(prev, id));
      assert forall x :: x in before + [a] <==> x in before || x == a;
    case DenialEvent(d, _) =>
      if Lists(before + [a], d) { FirstOnGrows(before, a, d); }
    case SignalEvent(d, from, to) =>
      if Lists(before + [a], d) { FirstOnGrows(before, a, d); }
      MovesIsMoved(from, to, percent);
    case _ =>
  }

  lemma {:induction false} AllocationsCall(prev: State, kinds: set<Kind>, percent: real, epoch: int, allocations: seq<Allocation>)
    ensures forall e :: e in AllocationEvents(prev, kinds, percent, epoch, allocations)
                   <==> CalledFor(prev, kinds, percent, epoch, allocations, e)
    ensures EachOnce(AllocationEvents(prev, kinds, percent, epoch, allocations))
  {
    if allocations != [] {
      var before, a := allocations[..|allocations| - 1], allocations[|allocations| - 1];
      assert allocations == before + [a];
      AllocationsCall(prev, kinds, percent, epoch, before);
      forall e
        ensures e in AllocationEvents(prev, kinds, percent, epoch, allocations)
           <==> CalledFor(prev, kinds, percent, epoch, allocations, e)
      {
        CalledGrows(prev, kinds, percent, epoch, before, a, e);
      }
      OnceMore(prev, kinds, percent, epoch, before, a);
    }
  }

  lemma OnceMore(prev: State, kinds: set<Kind>, percent: real, epoch: int, before: seq<Allocation>, a: Allocation)
    requires EachOnce(AllocationEvents(prev, kinds, percent, epoch, before))
    requires forall e <- AllocationEvents(prev, kinds, percent, epoch, before) :: CalledFor(prev, kinds, percent, epoch, before, e)
    ensures EachOnce(AllocationEvents(prev, kinds, percent, epoch, before) + PoiEvents(prev, kinds, epoch, a)
                     + (if Lists(before, a.deployment) then [] else DenialEvents(prev, kinds, a) + SignalEvents(prev, kinds, percent, a)))
  {
    var done, poi := AllocationEvents(prev, kinds, percent, epoch, before), PoiEvents(prev, kinds, epoch, a);
    var more := if Lists(before, a.deployment) then [] else DenialEvents(prev, kinds, a) + SignalEvents(prev, kinds, percent, a);
    assert EachOnce(poi + more);
    JoinOnce(done, poi + more);
    assert done + poi + more == done + (poi + more);
  }

  lemma JoinOnce(a: seq<Event>, b: seq<Event>)
    requires EachOnce(a) && EachOnce(b)
    requires forall e, f | e in a && f in b :: !SameSubject(e, f)
    ensures EachOnce(a + b)
  {
  }

  lemma EventsAreRaised(prev: State, snap: Snapshot, kinds: set<Kind>, percent: real)
    ensures Raised(prev, snap, kinds, percent, Events(prev, snap, kinds, percent))
  {
    var listed := AllocationEvents(prev, kinds, percent, snap.epoch, snap.allocations);
    var cuts, reo := CutsEvents(prev, kinds, snap), ReoEvents(prev, kinds, snap);
    AllocationsCall(prev, kinds, percent, snap.epoch, snap.allocations);
    JoinOnce(listed, cuts);
    JoinOnce(listed + cuts, reo);
    forall e
      ensures e in listed + cuts + reo <==> Called(prev, snap, kinds, percent, e)
    {
      assert e in listed + cuts + reo <==> e in listed || e in cuts || e in reo;
    }
  }

  lemma NextRemembers(prev: State, snap: Snapshot, percent: real)
    ensures Remembers(prev, snap, percent, Next(prev, snap, percent))
  {
    var next := Next(prev, snap, percent);
    forall id | id in next.poi
      ensures IsTone(snap.epoch - LastWith(snap.allocations, id).createdAt, next.poi[id])
    {
      ToneIsTone(snap.epoch, LastWith(snap.allocations, id), next.poi[id]);
    }
    forall d | d in next.signal
      ensures var level := FirstOn(snap.allocations, d).signal;
              next.signal[d] == if prev.Seen? && d in prev.signal && !Moved(prev.signal[d], level, percent) then prev.signal[d]
                                else level
    {
      if prev.Seen? && d in prev.signal { MovesIsMoved(prev.signal[d], FirstOn(snap.allocations, d).signal, percent); }
    }
  }

  /** What the loop has built. */
  datatype Findings = Findings(events: seq<Event>, seen: set<string>,
                               poi: map<string, Tone>, denied: map<string, bool>, signal: map<string, real>)

  ghost predicate Progress(prev: State, kinds: set<Kind>, percent: real, epoch: int, done: seq<Allocation>, f: Findings) {
    && f.seen == Deployments(done)
    && f.events == AllocationEvents(prev, kinds, percent, epoch, done)
    && f.poi == Tones(epoch, done)
    && f.denied == Denials(done)
    && f.signal == Signals(prev, percent, done)
  }

  /** One turn of the loop: the allocation's own tone, and its deployment unless that was spoken for. */
  method Visit(prev: State, kinds: set<Kind>, percent: real, epoch: int, ghost done: seq<Allocation>, f: Findings, a: Allocation)
    returns (g: Findings)
    requires Progress(prev, kinds, percent, epoch, done, f)
    ensures Progress(prev, kinds, percent, epoch, done + [a], g)
  {
    ListingGrows(done, a);
    TonesGrow(epoch, done, a);
    DenialsGrow(done, a);
    SignalsGrow(prev, percent, done, a);
    assert Lists(done, a.deployment) <==> a.deployment in f.seen;
    g := f.(events := f.events + PoiEvents(prev, kinds, epoch, a), poi := f.poi[a.id := ToneOf(epoch, a)]);
    if a.deployment !in f.seen {
      g := g.(events := g.events + (DenialEvents(prev, kinds, a) + SignalEvents(prev, kinds, percent, a)),
              seen := f.seen + {a.deployment},
              denied := f.denied[a.deployment := a.denied],
              signal := f.signal[a.deployment := Kept(SignalIn(prev, a.deployment), a.signal, percent)]);
    }
  }

  /** The events since `prev`, and the state to store. */
  method Evaluate(prev: State, snap: Snapshot, kinds: set<Kind>, percent: real) returns (events: seq<Event>, next: State)
    ensures events == Events(prev, snap, kinds, percent)
    ensures next == Next(prev, snap, percent)
    ensures Raised(prev, snap, kinds, percent, events) && Remembers(prev, snap, percent, next)
  {
    EventsAreRaised(prev, snap, kinds, percent);
    NextRemembers(prev, snap, percent);
    var f := Findings([], {}, map[], map[], map[]);
    assert Progress(prev, kinds, percent, snap.epoch, snap.allocations[..0], f);
    for i := 0 to |snap.allocations|
      invariant Progress(prev, kinds, percent, snap.epoch, snap.allocations[..i], f)
    {
      assert snap.allocations[..i + 1] == snap.allocations[..i] + [snap.allocations[i]];
      f := Visit(prev, kinds, percent, snap.epoch, snap.allocations[..i], f, snap.allocations[i]);
    }
    assert snap.allocations[..|snap.allocations|] == snap.allocations;
    events := f.events + CutsEvents(prev, kinds, snap) + ReoEvents(prev, kinds, snap);
    next := Seen(f.poi, f.denied, f.signal, Newer(SnapshotCuts(snap), CutsIn(prev)), Newer(snap.reo, ReoIn(prev)));
  }

  // ---------------------------------------------------------------------------
  // Looking twice.

  /** No allocation is listed with a worse tone than its last listing, and the threshold is positive. */
  predicate Settles(snap: Snapshot, kinds: set<Kind>, percent: real) {
    && (POI in kinds ==> forall a <- snap.allocations ::
          Rank(ToneOf(snap.epoch, a)) <= Rank(ToneOf(snap.epoch, LastWith(snap.allocations, a.id))))
    && (SIGNAL in kinds ==> percent > 0.0 || snap.allocations == [])
  }

  lemma KeptTwice(baseline: Option<real>, level: real, percent: real)
    ensures Kept(Some(Kept(baseline, level, percent)), level, percent) == Kept(baseline, level, percent)
    ensures Moves(Kept(baseline, level, percent), level, percent) <==> percent <= 0.0
  {
  }

  /** The stored state is a fixed point, whatever the snapshot and the settings. */
  lemma NextTwice(prev: State, snap: Snapshot, percent: real)
    ensures Next(Next(prev, snap, percent), snap, percent) == Next(prev, snap, percent)
  {
    var next := Next(prev, snap, percent);
    forall d | d in Deployments(snap.allocations)
      ensures SignalFor(next, percent, snap.allocations, d) == next.signal[d]
    {
      KeptTwice(SignalIn(prev, d), FirstOn(snap.allocations, d).signal, percent);
    }
  }

  predicate Silent(prev: State, kinds: set<Kind>, percent: real, epoch: int, allocations: seq<Allocation>, i: nat)
    requires i < |allocations|
  {
    var a := allocations[i];
    && PoiEvents(prev, kinds, epoch, a) == []
    && (Lists(allocations[..i], a.deployment)
        || (DenialEvents(prev, kinds, a) == [] && SignalEvents(prev, kinds, percent, a) == []))
  }

  lemma NoEventsOneMore(prev: State, kinds: set<Kind>, percent: real, epoch: int, allocations: seq<Allocation>)
    requires allocations != []
    ensures AllocationEvents(prev, kinds, percent, epoch, allocations) == []
       <==> && AllocationEvents(prev, kinds, percent, epoch, allocations[..|allocations| - 1]) == []
            && Silent(prev, kinds, percent, epoch, allocations, |allocations| - 1)
  {
  }

  predicate AllSilent(prev: State, kinds: set<Kind>, percent: real, epoch: int, allocations: seq<Allocation>) {
    forall i | 0 <= i < |allocations| :: Silent(prev, kinds, percent, epoch, allocations, i)
  }

  lemma SilentInPrefix(prev: State, kinds: set<Kind>, percent: real, epoch: int, allocations: seq<Allocation>, n: nat, i: nat)
    requires i < n <= |allocations|
    ensures Silent(prev, kinds, percent, epoch, allocations[..n], i) == Silent(prev, kinds, percent, epoch, allocations, i)
  {
  }

  lemma AllSilentOneMore(prev: State, kinds: set<Kind>, percent: real, epoch: int, allocations: seq<Allocation>)
    requires allocations != []
    ensures AllSilent(prev, kinds, percent, epoch, allocations)
       <==> && AllSilent(prev, kinds, percent, epoch, allocations[..|allocations| - 1])
            && Silent(prev, kinds, percent, epoch, allocations, |allocations| - 1)
  {
    var n := |allocations| - 1;
    forall i | 0 <= i < n
      ensures Silent(prev, kinds, percent, epoch, allocations[..n], i) == Silent(prev, kinds, percent, epoch, allocations, i)
    {
      SilentInPrefix(prev, kinds, percent, epoch, allocations, n, i);
    }
  }

  lemma {:induction false} NoEventsIffSilent(prev: State, kinds: set<Kind>, percent: real, epoch: int, allocations: seq<Allocation>)
    ensures AllocationEvents(prev, kinds, percent, epoch, allocations) == [] <==> AllSilent(prev, kinds, percent, epoch, allocations)
  {
    if allocations != [] {
      NoEventsIffSilent(prev, kinds, percent, epoch, allocations[..|allocations| - 1]);
      NoEventsOneMore(prev, kinds, percent, epoch, allocations);
      AllSilentOneMore(prev, kinds, percent, epoch, allocations);
    }
  }

  lemma {:induction false} FirstOnIsFirst(allocations: seq<Allocation>, i: nat)
    requires i < |allocations| && !Lists(allocations[..i], allocations[i].deployment)
    ensures Lists(allocations, allocations[i].deployment)
    ensures FirstOn(allocations, allocations[i].deployment) == allocations[i]
  {
    var d, n := allocations[i].deployment, |allocations| - 1;
    assert allocations[i] in allocations;
    if i < n {
      assert allocations[..n][..i] == allocations[..i];
      FirstOnIsFirst(allocations[..n], i);
    }
  }

  lemma LoudAgain(prev: State, snap: Snapshot, kinds: set<Kind>, percent: real, i: nat)
    requires i < |snap.allocations|
    ensures var next, a := Next(prev, snap, percent), snap.allocations[i];
      Silent(next, kinds, percent, snap.epoch, snap.allocations, i)
      <==> && (POI in kinds ==> Rank(ToneOf(snap.epoch, a)) <= Rank(ToneOf(snap.epoch, LastWith(snap.allocations, a.id))))
           && (SIGNAL in kinds ==> percent > 0.0 || Lists(snap.allocations[..i], a.deployment))
  {
    var next, a := Next(prev, snap, percent), snap.allocations[i];
    assert a in snap.allocations && Has(snap.allocations, a.id);
    assert a.id in next.poi;
    if !Lists(snap.allocations[..i], a.deployment) {
      FirstOnIsFirst(snap.allocations, i);
      assert a.deployment in Deployments(snap.allocations);
      KeptTwice(SignalIn(prev, a.deployment), a.signal, percent);
    }
  }

  /** What `Settles` asks at one place of the listing. */
  predicate SettlesAt(snap: Snapshot, kinds: set<Kind>, percent: real, i: nat)
    requires i < |snap.allocations|
  {
    var a := snap.allocations[i];
    && (POI in kinds ==> Rank(ToneOf(snap.epoch, a)) <= Rank(ToneOf(snap.epoch, LastWith(snap.allocations, a.id))))
    && (SIGNAL in kinds ==> percent > 0.0 || Lists(snap.allocations[..i], a.deployment))
  }

  lemma SettlesEverywhere(snap: Snapshot, kinds: set<Kind>, percent: real)
    ensures Settles(snap, kinds, percent) <==> forall i | 0 <= i < |snap.allocations| :: SettlesAt(snap, kinds, percent, i)
  {
    var all := snap.allocations;
    if forall i | 0 <= i < |all| :: SettlesAt(snap, kinds, percent, i) {
      if all != [] { assert SettlesAt(snap, kinds, percent, 0) && !Lists(all[..0], all[0].deployment); }
      forall a | a in all && POI in kinds
        ensures Rank(ToneOf(snap.epoch, a)) <= Rank(ToneOf(snap.epoch, LastWith(all, a.id)))
      {
        var i :| 0 <= i < |all| && all[i] == a;
        assert SettlesAt(snap, kinds, percent, i);
      }
    }
  }

  /** Looking again at the same snapshot is silent exactly when the snapshot settles. Distinct allocation
      ids and a positive threshold are enough. */
  lemma SecondLookIsSilentIffSettled(prev: State, snap: Snapshot, kinds: set<Kind>, percent: real)
    ensures Events(Next(prev, snap, percent), snap, kinds, percent) == [] <==> Settles(snap, kinds, percent)
  {
    var next, all := Next(prev, snap, percent), snap.allocations;
    NoEventsIffSilent(next, kinds, percent, snap.epoch, all);
    forall i | 0 <= i < |all|
      ensures Silent(next, kinds, percent, snap.epoch, all, i) <==> SettlesAt(snap, kinds, percent, i)
    {
      LoudAgain(prev, snap, kinds, percent, i);
    }
    SettlesEverywhere(snap, kinds, percent);
  }

  lemma {:induction false} LastWithOnly(allocations: seq<Allocation>, a: Allocation)
    requires a in allocations && forall b | b in allocations && b.id == a.id :: b == a
    ensures LastWith(allocations, a.id) == a
  {
  }

  /** The usual case: distinct ids, a positive threshold. */
  lemma DistinctIdsSettle(prev: State, snap: Snapshot, kinds: set<Kind>, percent: real)
    requires percent > 0.0
    requires forall a, b | a in snap.allocations && b in snap.allocations && a.id == b.id :: a == b
    ensures Events(Next(prev, snap, percent), snap, kinds, percent) == []
    ensures Next(Next(prev, snap, percent), snap, percent) == Next(prev, snap, percent)
  {
    forall a | a in snap.allocations
      ensures LastWith(snap.allocations, a.id) == a
    {
      LastWithOnly(snap.allocations, a);
    }
    SecondLookIsSilentIffSettled(prev, snap, kinds, percent);
    NextTwice(prev, snap, percent);
  }

  /** One allocation id listed twice at epoch 30, first out of time and then new. */
  function ListedTwice(): Snapshot {
    Snapshot(30, [Allocation("a", "D", 2, 1.0, false), Allocation("a", "D", 30, 1.0, false)], None, None, None)
  }

  /** It alerts at every look after the first, whatever was remembered. */
  lemma ListedTwiceAlwaysAlerts(prev: State, percent: real)
    ensures Events(Next(prev, ListedTwice(), percent), ListedTwice(), {POI}, percent) == [PoiEvent("a", CloseTone)]
    ensures !Settles(ListedTwice(), {POI}, percent)
  {
    var worse, last := ListedTwice().allocations[0], ListedTwice().allocations[1];
    var next := Next(prev, ListedTwice(), percent);
    assert [worse, last][..1] == [worse] && [worse][..0] == [];
    assert next.poi["a"] == FreshTone && ToneOf(30, worse) == CloseTone;
    assert AllocationEvents(next, {POI}, percent, 30, [worse]) == [PoiEvent("a", CloseTone)];
    assert worse in ListedTwice().allocations;
  }
}
