/** Alert subscriptions over any run of looks: when what was seen is stored, relative to whether the post
    about it got through and whether the database took the row. */
module Subscriptions {
  import opened Prelude
  import opened Alerts

  const DISABLE_AFTER_FAILURES := 96

  datatype Subscription = Subscription(indexer: string, kinds: set<Kind>, percent: real,
                                       state: State, failures: nat, disabled: bool)

  /** What comes of posting a look's events: every request got through, or one was refused after the ones
      before it had told of `heard`. */
  datatype Post = Through | Stopped(heard: set<Event>)

  /** A look, what came of its post, and whether the database then took the row. */
  datatype Look = Look(snap: Snapshot, post: Post, saves: bool)

  function Found(sub: Subscription, look: Look): seq<Event> {
    if sub.disabled then [] else Events(sub.state, look.snap, sub.kinds, sub.percent)
  }

  predicate Hears(post: Post, e: Event) {
    post.Through? || e in post.heard
  }

  function Heard(post: Post, events: seq<Event>): seq<Event> {
    if events == [] then []
    else
      var e := events[|events| - 1];
      Heard(post, events[..|events| - 1]) + (if Hears(post, e) then [e] else [])
  }

  /** What the webhook was told at a look, whether or not that was then recorded. */
  function Told(sub: Subscription, look: Look): seq<Event> {
    Heard(look.post, Found(sub, look))
  }

  /** A webhook is told of an event exactly when it was found and either the whole post got through or the request that
      carried it did, before one was refused. */
  lemma {:induction false} HeardIs(post: Post, events: seq<Event>, e: Event)
    ensures e in Heard(post, events) <==> e in events && (post == Through || (post.Stopped? && e in post.heard))
  {
    if events != [] { HeardIs(post, events[..|events| - 1], e); }
  }

  /** The look's state is stored: there was nothing to say, or all of it was said; and the database took it. */
  predicate Saves(sub: Subscription, look: Look) {
    !sub.disabled && look.saves && (Found(sub, look) == [] || look.post.Through?)
  }

  /** The post was refused, and that is stored. */
  predicate Fails(sub: Subscription, look: Look) {
    look.saves && Found(sub, look) != [] && look.post.Stopped?
  }

  function Looked(sub: Subscription, look: Look): Subscription {
    if Saves(sub, look) then
      sub.(state := Next(sub.state, look.snap, sub.percent), failures := if Found(sub, look) == [] then sub.failures else 0)
    else if Fails(sub, look) then
      sub.(failures := sub.failures + 1, disabled := sub.failures + 1 >= DISABLE_AFTER_FAILURES)
    else sub
  }

  function After(sub: Subscription, looks: seq<Look>): (r: Subscription)
    ensures r.kinds == sub.kinds && r.percent == sub.percent && r.indexer == sub.indexer
  {
    if looks == [] then sub else Looked(After(sub, looks[..|looks| - 1]), looks[|looks| - 1])
  }

  // ---------------------------------------------------------------------------
  // Signal.

  predicate TellsSignal(events: seq<Event>, deployment: string) {
    exists e <- events :: e.SignalEvent? && e.deployment == deployment
  }

  lemma {:induction false} OnlyFirstTellsSignal(prev: State, kinds: set<Kind>, percent: real, epoch: int,
                                                allocations: seq<Allocation>, deployment: string)
    ensures TellsSignal(AllocationEvents(prev, kinds, percent, epoch, allocations), deployment)
       <==> Lists(allocations, deployment) && SignalEvents(prev, kinds, percent, FirstOn(allocations, deployment)) != []
  {
    if allocations != [] {
      var before, a := allocations[..|allocations| - 1], allocations[|allocations| - 1];
      OnlyFirstTellsSignal(prev, kinds, percent, epoch, before, deployment);
      assert allocations == before + [a];
      ListingGrows(before, a);
      if Lists(allocations, deployment) { FirstOnGrows(before, a, deployment); }
      TellsSignalOneMore(prev, kinds, percent, epoch, allocations, deployment);
    }
  }

  lemma TellsSignalOneMore(prev: State, kinds: set<Kind>, percent: real, epoch: int,
                           allocations: seq<Allocation>, deployment: string)
    requires allocations != []
    ensures var before, a := allocations[..|allocations| - 1], allocations[|allocations| - 1];
      TellsSignal(AllocationEvents(prev, kinds, percent, epoch, allocations), deployment)
      <==> TellsSignal(AllocationEvents(prev, kinds, percent, epoch, before), deployment)
           || (!Lists(before, a.deployment) && a.deployment == deployment && SignalEvents(prev, kinds, percent, a) != [])
  {
  }

  /** A look speaks of a deployment's signal exactly when the level has moved from the stored baseline. */
  lemma TellsSignalIffMoved(sub: Subscription, look: Look, deployment: string)
    requires !sub.disabled && SIGNAL in sub.kinds && Lists(look.snap.allocations, deployment)
    ensures TellsSignal(Found(sub, look), deployment)
       <==> && SignalIn(sub.state, deployment).Some?
            && Moves(SignalIn(sub.state, deployment).value, FirstOn(look.snap.allocations, deployment).signal, sub.percent)
  {
    var snap := look.snap;
    OnlyFirstTellsSignal(sub.state, sub.kinds, sub.percent, snap.epoch, snap.allocations, deployment);
    var listed, cuts, reo := AllocationEvents(sub.state, sub.kinds, sub.percent, snap.epoch, snap.allocations),
                             CutsEvents(sub.state, sub.kinds, snap), ReoEvents(sub.state, sub.kinds, snap);
    assert forall e :: e in listed + cuts + reo <==> e in listed || e in cuts || e in reo;
  }

  /** The deployment is allocated to at every look. */
  predicate Present(looks: seq<Look>, deployment: string) {
    forall look <- looks :: Lists(look.snap.allocations, deployment)
  }

  function Level(look: Look, deployment: string): real
    requires Lists(look.snap.allocations, deployment)
  {
    FirstOn(look.snap.allocations, deployment).signal
  }

  /** What a look did, as far as one deployment's signal goes. */
  datatype Mark = Mark(saved: bool, told: bool, level: real)

  function Marks(sub: Subscription, looks: seq<Look>, deployment: string): (marks: seq<Mark>)
    requires Present(looks, deployment)
    ensures |marks| == |looks|
  {
    if looks == [] then []
    else
      var before, look := looks[..|looks| - 1], looks[|looks| - 1];
      var earlier := After(sub, before);
      assert look in looks && Present(before, deployment);
      Marks(sub, before, deployment)
      + [Mark(Saves(earlier, look), TellsSignal(Found(earlier, look), deployment), Level(look, deployment))]
  }

  /** A look that sets the baseline: the first to be stored, or one whose signal alert was delivered
      and recorded. */
  predicate Rebases(marks: seq<Mark>, j: nat)
    requires j < |marks|
  {
    marks[j].saved && (marks[j].told || forall i | 0 <= i < j :: !marks[i].saved)
  }

  predicate LastRebase(marks: seq<Mark>, k: nat) {
    && k < |marks| && Rebases(marks, k)
    && forall j | k < j < |marks| :: !Rebases(marks, j)
  }

  /** What the baseline must be: the level at the last look that set it, if any did. */
  ghost predicate BaselineIs(marks: seq<Mark>, baseline: Option<real>) {
    if baseline.None? then forall j | 0 <= j < |marks| :: !marks[j].saved
    else exists k: nat :: LastRebase(marks, k) && baseline.value == marks[k].level
  }

  lemma RebasesOneMore(marks: seq<Mark>, m: Mark, j: nat)
    requires j < |marks|
    ensures Rebases(marks + [m], j) == Rebases(marks, j)
  {
    forall i | 0 <= i <= j
      ensures (marks + [m])[i] == marks[i]
    {
    }
  }

  lemma BaselineStays(marks: seq<Mark>, m: Mark, baseline: Option<real>)
    requires BaselineIs(marks, baseline) && (baseline.None? ==> !m.saved) && (m.saved ==> !m.told)
    ensures BaselineIs(marks + [m], baseline)
  {
    if baseline.Some? {
      var k: nat :| LastRebase(marks, k) && baseline.value == marks[k].level;
      forall j | 0 <= j < |marks|
        ensures Rebases(marks + [m], j) == Rebases(marks, j)
      {
        RebasesOneMore(marks, m, j);
      }
      assert (marks + [m])[k].saved;
      assert LastRebase(marks + [m], k);
    }
  }

  lemma BaselineSet(marks: seq<Mark>, m: Mark, baseline: Option<real>)
    requires BaselineIs(marks, baseline) && m.saved && (baseline.None? || m.told)
    ensures BaselineIs(marks + [m], Some(m.level))
  {
    assert Rebases(marks + [m], |marks|);
    assert LastRebase(marks + [m], |marks|);
  }

  lemma BaselineStep(sub: Subscription, look: Look, deployment: string)
    requires SIGNAL in sub.kinds && Lists(look.snap.allocations, deployment)
    ensures var b := SignalIn(sub.state, deployment);
      SignalIn(Looked(sub, look).state, deployment)
      == if Saves(sub, look) && (b.None? || TellsSignal(Found(sub, look), deployment)) then Some(Level(look, deployment)) else b
  {
    if Saves(sub, look) {
      TellsSignalIffMoved(sub, look, deployment);
      assert deployment in Deployments(look.snap.allocations);
    }
  }

  /** Over any run, with any posts refused and any saves lost, the stored baseline of a deployment that is
      listed throughout is its level at the first stored look or at the last signal alert that was delivered
      and recorded. */
  lemma {:induction false} BaselineIsLastRecorded(sub: Subscription, looks: seq<Look>, deployment: string)
    requires SIGNAL in sub.kinds && SignalIn(sub.state, deployment) == None && Present(looks, deployment)
    ensures BaselineIs(Marks(sub, looks, deployment), SignalIn(After(sub, looks).state, deployment))
  {
    if looks != [] {
      var before, look := looks[..|looks| - 1], looks[|looks| - 1];
      assert look in looks && Present(before, deployment);
      BaselineIsLastRecorded(sub, before, deployment);
      var earlier := After(sub, before);
      BaselineStep(earlier, look, deployment);
      var marks, b := Marks(sub, before, deployment), SignalIn(earlier.state, deployment);
      var m := Mark(Saves(earlier, look), TellsSignal(Found(earlier, look), deployment), Level(look, deployment));
      assert Marks(sub, looks, deployment) == marks + [m];
      if m.saved && (b.None? || m.told) {
        BaselineSet(marks, m, b);
      } else {
        BaselineStays(marks, m, b);
      }
    }
  }

  /** A look raises a signal alert exactly when the level has moved by the threshold since the last alert
      that was delivered and recorded, however slowly it drifted there and however many posts or saves were
      lost on the way. */
  lemma AlertsIffMovedSinceLastRecorded(sub: Subscription, looks: seq<Look>, look: Look, deployment: string)
    requires SIGNAL in sub.kinds && SignalIn(sub.state, deployment) == None
    requires Present(looks, deployment) && Lists(look.snap.allocations, deployment)
    requires !After(sub, looks).disabled
    ensures TellsSignal(Found(After(sub, looks), look), deployment)
       <==> exists k: nat :: LastRebase(Marks(sub, looks, deployment), k)
                          && Moves(Level(looks[k], deployment), Level(look, deployment), sub.percent)
  {
    TellsSignalIffMoved(After(sub, looks), look, deployment);
    forall k: nat | LastRebase(Marks(sub, looks, deployment), k)
      ensures SignalIn(After(sub, looks).state, deployment) == Some(Level(looks[k], deployment))
    {
      BaselineIsLevel(sub, looks, deployment, k);
    }
    BaselineIsLastRecorded(sub, looks, deployment);
  }

  lemma LastRebaseUnique(marks: seq<Mark>, k: nat, l: nat)
    requires LastRebase(marks, k) && LastRebase(marks, l)
    ensures k == l
  {
  }

  lemma BaselineIsLevel(sub: Subscription, looks: seq<Look>, deployment: string, k: nat)
    requires SIGNAL in sub.kinds && SignalIn(sub.state, deployment) == None && Present(looks, deployment)
    requires LastRebase(Marks(sub, looks, deployment), k)
    ensures SignalIn(After(sub, looks).state, deployment) == Some(Level(looks[k], deployment))
  {
    var marks, b := Marks(sub, looks, deployment), SignalIn(After(sub, looks).state, deployment);
    BaselineIsLastRecorded(sub, looks, deployment);
    MarkLevel(sub, looks, deployment, k);
    assert marks[k].saved;
    var l: nat :| LastRebase(marks, l) && b.value == marks[l].level;
    LastRebaseUnique(marks, k, l);
  }

  lemma {:induction false} MarkLevel(sub: Subscription, looks: seq<Look>, deployment: string, k: nat)
    requires Present(looks, deployment) && k < |looks|
    ensures Marks(sub, looks, deployment)[k].level == Level(looks[k], deployment)
  {
    if k < |looks| - 1 {
      assert Present(looks[..|looks| - 1], deployment);
      MarkLevel(sub, looks[..|looks| - 1], deployment, k);
    }
  }

  /** The first stored look is silent, so subscribing does not replay history; and it is the first look the
      database lets through. */
  lemma FirstLookIsSilent(sub: Subscription, look: Look)
    requires sub.state.Unseen?
    ensures Found(sub, look) == []
    ensures Saves(sub, look) <==> !sub.disabled && look.saves
  {
    UnseenSaysNothing(sub.kinds, sub.percent, look.snap.epoch, look.snap.allocations);
  }

  lemma {:induction false} UnseenSaysNothing(kinds: set<Kind>, percent: real, epoch: int, allocations: seq<Allocation>)
    ensures AllocationEvents(Unseen, kinds, percent, epoch, allocations) == []
  {
    if allocations != [] {
      UnseenSaysNothing(kinds, percent, epoch, allocations[..|allocations| - 1]);
    }
  }

  // ---------------------------------------------------------------------------
  // Proofs of indexing.

  /** The tones of the events about one allocation, in order. */
  function PoiTones(events: seq<Event>, id: string): seq<Tone> {
    if events == [] then []
    else
      var e := events[|events| - 1];
      PoiTones(events[..|events| - 1], id) + (if e.PoiEvent? && e.id == id then [e.tone] else [])
  }

  lemma {:induction false} PoiTonesJoin(a: seq<Event>, b: seq<Event>, id: string)
    ensures PoiTones(a + b, id) == PoiTones(a, id) + PoiTones(b, id)
  {
    if b == [] {
      assert a + b == a;
    } else {
      assert (a + b)[..|a + b| - 1] == a + b[..|b| - 1];
      PoiTonesJoin(a, b[..|b| - 1], id);
    }
  }

  predicate Once(allocations: seq<Allocation>, id: string) {
    forall i, j | 0 <= i < j < |allocations| :: allocations[i].id != id || allocations[j].id != id
  }

  function AlertTones(prev: State, kinds: set<Kind>, epoch: int, allocations: seq<Allocation>, id: string): seq<Tone> {
    if !Has(allocations, id) then []
    else
      var t := ToneOf(epoch, LastWith(allocations, id));
      if POI in kinds && prev.Seen? && Rank(t) > Rank(PoiIn(prev, id)) then [t] else []
  }

  lemma SpokenTones(prev: State, kinds: set<Kind>, percent: real, a: Allocation, events: seq<Event>, id: string)
    requires events == [] || events == DenialEvents(prev, kinds, a) + SignalEvents(prev, kinds, percent, a)
    ensures PoiTones(events, id) == []
  {
    PoiTonesJoin(DenialEvents(prev, kinds, a), SignalEvents(prev, kinds, percent, a), id);
  }

  lemma LastTones(prev: State, kinds: set<Kind>, percent: real, epoch: int, allocations: seq<Allocation>, id: string)
    requires allocations != []
    ensures var before, a := allocations[..|allocations| - 1], allocations[|allocations| - 1];
      PoiTones(AllocationEvents(prev, kinds, percent, epoch, allocations), id)
      == PoiTones(AllocationEvents(prev, kinds, percent, epoch, before), id) + PoiTones(PoiEvents(prev, kinds, epoch, a), id)
  {
    var before, a := allocations[..|allocations| - 1], allocations[|allocations| - 1];
    var earlier, poi := AllocationEvents(prev, kinds, percent, epoch, before), PoiEvents(prev, kinds, epoch, a);
    var spoken := if Lists(before, a.deployment) then [] else DenialEvents(prev, kinds, a) + SignalEvents(prev, kinds, percent, a);
    PoiTonesJoin(earlier, poi, id);
    SpokenTones(prev, kinds, percent, a, spoken, id);
    PoiTonesJoin(earlier + poi, spoken, id);
  }

  lemma ToneEvent(prev: State, kinds: set<Kind>, epoch: int, a: Allocation, id: string)
    ensures PoiTones(PoiEvents(prev, kinds, epoch, a), id)
         == if a.id == id && POI in kinds && prev.Seen? && Rank(ToneOf(epoch, a)) > Rank(PoiIn(prev, id)) then [ToneOf(epoch, a)]
            else []
  {
  }

  lemma AlertTonesGrow(prev: State, kinds: set<Kind>, epoch: int, before: seq<Allocation>, a: Allocation, id: string)
    requires Once(before + [a], id)
    ensures AlertTones(prev, kinds, epoch, before + [a], id)
         == AlertTones(prev, kinds, epoch, before, id) + PoiTones(PoiEvents(prev, kinds, epoch, a), id)
  {
    ListingGrows(before, a);
    ToneEvent(prev, kinds, epoch, a, id);
    var more := before + [a];
    assert more[|before|] == a;
    assert forall i | 0 <= i < |before| :: more[i] == before[i] && (before[i].id != id || more[|before|].id != id);
  }

  lemma {:induction false} AllocationTones(prev: State, kinds: set<Kind>, percent: real, epoch: int,
                                           allocations: seq<Allocation>, id: string)
    requires Once(allocations, id)
    ensures PoiTones(AllocationEvents(prev, kinds, percent, epoch, allocations), id)
         == AlertTones(prev, kinds, epoch, allocations, id)
  {
    if allocations != [] {
      var before, a := allocations[..|allocations| - 1], allocations[|allocations| - 1];
      AllocationTones(prev, kinds, percent, epoch, before, id);
      LastTones(prev, kinds, percent, epoch, allocations, id);
      assert allocations == before + [a];
      AlertTonesGrow(prev, kinds, epoch, before, a, id);
    }
  }

  lemma FoundTones(sub: Subscription, look: Look, id: string)
    requires !sub.disabled && Once(look.snap.allocations, id)
    ensures PoiTones(Found(sub, look), id)
         == AlertTones(sub.state, sub.kinds, look.snap.epoch, look.snap.allocations, id)
  {
    var snap := look.snap;
    var listed := AllocationEvents(sub.state, sub.kinds, sub.percent, snap.epoch, snap.allocations);
    AllocationTones(sub.state, sub.kinds, sub.percent, snap.epoch, snap.allocations, id);
    PoiTonesJoin(listed, CutsEvents(sub.state, sub.kinds, snap), id);
    PoiTonesJoin(listed + CutsEvents(sub.state, sub.kinds, snap), ReoEvents(sub.state, sub.kinds, snap), id);
  }

  /** The proof-of-indexing alerts about one allocation that got through over a run, recorded or not. */
  function Delivered(sub: Subscription, looks: seq<Look>, id: string): seq<Tone> {
    if looks == [] then []
    else
      var earlier, look := After(sub, looks[..|looks| - 1]), looks[|looks| - 1];
      Delivered(sub, looks[..|looks| - 1], id) + PoiTones(Told(earlier, look), id)
  }

  /** The allocation is listed, once, at every look. */
  predicate Stays(looks: seq<Look>, id: string, createdAt: int) {
    forall look <- looks :: ListedOnce(look, id, createdAt)
  }

  predicate ListedOnce(look: Look, id: string, createdAt: int) {
    Has(look.snap.allocations, id) && Once(look.snap.allocations, id)
    && LastWith(look.snap.allocations, id).createdAt == createdAt
  }

  predicate EpochsRise(looks: seq<Look>) {
    forall i, j | 0 <= i < j < |looks| :: looks[i].snap.epoch <= looks[j].snap.epoch
  }

  predicate Rising(tones: seq<Tone>) {
    forall i, j | 0 <= i < j < |tones| :: Rank(tones[i]) < Rank(tones[j])
  }

  predicate NeverFalling(tones: seq<Tone>) {
    forall i, j | 0 <= i < j < |tones| :: Rank(tones[i]) <= Rank(tones[j])
  }

  function AgeTone(look: Look, createdAt: int): Tone {
    ToneFor(MAX_POI_STALENESS_DAYS - Max(look.snap.epoch - createdAt, 0))
  }

  const NO_ALERT: nat := 3

  /** What a tone must outrank to be told: the stored one, and nothing does before the first stored look or
      when the kind was not chosen. */
  function Bar(sub: Subscription, id: string): nat {
    if POI in sub.kinds && sub.state.Seen? then Rank(PoiIn(sub.state, id)) else NO_ALERT
  }

  lemma HeardLast(post: Post, events: seq<Event>, id: string)
    requires events != []
    ensures var e, init := events[|events| - 1], events[..|events| - 1];
      PoiTones(Heard(post, events), id)
      == PoiTones(Heard(post, init), id) + (if Hears(post, e) && e.PoiEvent? && e.id == id then [e.tone] else [])
  {
    var e, init := events[|events| - 1], events[..|events| - 1];
    PoiTonesJoin(Heard(post, init), if Hears(post, e) then [e] else [], id);
    assert PoiTones([e], id) == if e.PoiEvent? && e.id == id then [e.tone] else [];
  }

  lemma {:induction false} NothingHeard(post: Post, events: seq<Event>, id: string)
    requires PoiTones(events, id) == []
    ensures PoiTones(Heard(post, events), id) == []
  {
    if events != [] {
      NothingHeard(post, events[..|events| - 1], id);
      HeardLast(post, events, id);
    }
  }

  lemma OneOnly(before: seq<Tone>, last: Tone, t: Tone)
    requires before + [last] == [t]
    ensures before == [] && last == t
  {
    assert |before + [last]| == 1;
    assert (before + [last])[0] == t;
  }

  lemma {:induction false} HeardTones(post: Post, events: seq<Event>, id: string, t: Tone)
    requires PoiTones(events, id) == [t]
    ensures PoiTones(Heard(post, events), id) == if Hears(post, PoiEvent(id, t)) then [t] else []
  {
    var e, init := events[|events| - 1], events[..|events| - 1];
    HeardLast(post, events, id);
    if e.PoiEvent? && e.id == id {
      OneOnly(PoiTones(init, id), e.tone, t);
      NothingHeard(post, init, id);
    } else {
      HeardTones(post, init, id, t);
    }
  }

  /** A look tells of an allocation exactly when its tone outranks the bar and the post about it is heard. */
  lemma TellsIff(sub: Subscription, look: Look, id: string, createdAt: int)
    requires ListedOnce(look, id, createdAt)
    ensures var t := AgeTone(look, createdAt);
      && (Rank(t) > Bar(sub, id) && !sub.disabled ==> Found(sub, look) != [])
      && PoiTones(Told(sub, look), id)
         == if !sub.disabled && Rank(t) > Bar(sub, id) && Hears(look.post, PoiEvent(id, t)) then [t] else []
  {
    var t := AgeTone(look, createdAt);
    if sub.disabled {
      assert Told(sub, look) == [];
    } else {
      FoundTones(sub, look, id);
      if Rank(t) > Bar(sub, id) {
        HeardTones(look.post, Found(sub, look), id, t);
      } else {
        NothingHeard(look.post, Found(sub, look), id);
      }
    }
  }

  lemma BarAfter(sub: Subscription, look: Look, id: string, createdAt: int)
    requires ListedOnce(look, id, createdAt)
    ensures Bar(Looked(sub, look), id)
         == if !Saves(sub, look) then Bar(sub, id) else if POI in sub.kinds then Rank(AgeTone(look, createdAt)) else NO_ALERT
  {
    var a := LastWith(look.snap.allocations, id);
    assert a in look.snap.allocations && a.id == id;
  }

  // ---------------------------------------------------------------------------
  // The run of looks, reduced to what matters for one allocation.

  datatype Tell = Tell(tone: Tone, bar: nat, enabled: bool, hears: bool, saved: bool) {
    /** The webhook is told of the allocation. */
    predicate Told() { enabled && hears && Rank(tone) > bar }
  }

  function TellOf(sub: Subscription, look: Look, id: string, createdAt: int): Tell {
    var t := AgeTone(look, createdAt);
    Tell(t, Bar(sub, id), !sub.disabled, Hears(look.post, PoiEvent(id, t)), Saves(sub, look))
  }

  function Tells(sub: Subscription, looks: seq<Look>, id: string, createdAt: int): (tells: seq<Tell>)
    ensures |tells| == |looks|
  {
    if looks == [] then []
    else
      var before := looks[..|looks| - 1];
      Tells(sub, before, id, createdAt) + [TellOf(After(sub, before), looks[|looks| - 1], id, createdAt)]
  }

  function TonesTold(tells: seq<Tell>): seq<Tone> {
    if tells == [] then []
    else
      var m := tells[|tells| - 1];
      TonesTold(tells[..|tells| - 1]) + (if m.Told() then [m.tone] else [])
  }

  lemma {:induction false} DeliveredIsTold(sub: Subscription, looks: seq<Look>, id: string, createdAt: int)
    requires Stays(looks, id, createdAt)
    ensures Delivered(sub, looks, id) == TonesTold(Tells(sub, looks, id, createdAt))
  {
    if looks != [] {
      var before, look := looks[..|looks| - 1], looks[|looks| - 1];
      assert look in looks && Stays(before, id, createdAt);
      DeliveredIsTold(sub, before, id, createdAt);
      TellsIff(After(sub, before), look, id, createdAt);
      var tells := Tells(sub, looks, id, createdAt);
      assert tells[..|tells| - 1] == Tells(sub, before, id, createdAt);
    }
  }

  /** One look follows another: the bar moves only when a state is stored, and what is pending stays so. */
  predicate Follows(m: Tell, bar: nat, enabled: bool, poi: bool) {
    && bar == (if !m.saved then m.bar else if poi then Rank(m.tone) else NO_ALERT)
    && (enabled ==> m.enabled)
  }

  predicate Sound(m: Tell, poi: bool) {
    && (m.saved ==> m.enabled)
    && (m.saved && Rank(m.tone) > m.bar ==> m.hears)
    && (!poi ==> m.bar == NO_ALERT)
  }

  predicate Chain(tells: seq<Tell>, poi: bool) {
    && (forall j | 0 <= j < |tells| :: Sound(tells[j], poi))
    && (forall j | 0 < j < |tells| :: Follows(tells[j - 1], tells[j].bar, tells[j].enabled, poi))
    && (forall i, j | 0 <= i < j < |tells| :: Rank(tells[i].tone) <= Rank(tells[j].tone))
  }

  lemma TellOfIsSound(sub: Subscription, look: Look, id: string, createdAt: int)
    requires ListedOnce(look, id, createdAt)
    ensures var m := TellOf(sub, look, id, createdAt);
      && Sound(m, POI in sub.kinds)
      && Follows(m, Bar(Looked(sub, look), id), !Looked(sub, look).disabled, POI in sub.kinds)
  {
    TellsIff(sub, look, id, createdAt);
    BarAfter(sub, look, id, createdAt);
  }

  lemma TellAt(sub: Subscription, looks: seq<Look>, id: string, createdAt: int, j: nat)
    requires j < |looks|
    ensures Tells(sub, looks, id, createdAt)[j] == TellOf(After(sub, looks[..j]), looks[j], id, createdAt)
  {
    var n := |looks| - 1;
    var before := Tells(sub, looks[..n], id, createdAt);
    assert |before| == n;
    assert Tells(sub, looks, id, createdAt) == before + [TellOf(After(sub, looks[..n]), looks[n], id, createdAt)];
    if j < n {
      TellAt(sub, looks[..n], id, createdAt, j);
      assert looks[..n][..j] == looks[..j];
    }
  }

  lemma TellIsSound(sub: Subscription, looks: seq<Look>, id: string, createdAt: int, j: nat)
    requires j < |looks| && Stays(looks, id, createdAt)
    ensures Sound(Tells(sub, looks, id, createdAt)[j], POI in sub.kinds)
  {
    TellAt(sub, looks, id, createdAt, j);
    TellOfIsSound(After(sub, looks[..j]), looks[j], id, createdAt);
  }

  lemma TellFollows(sub: Subscription, looks: seq<Look>, id: string, createdAt: int, j: nat)
    requires 0 < j < |looks| && Stays(looks, id, createdAt)
    ensures var tells := Tells(sub, looks, id, createdAt);
      Follows(tells[j - 1], tells[j].bar, tells[j].enabled, POI in sub.kinds)
  {
    TellAt(sub, looks, id, createdAt, j);
    TellAt(sub, looks, id, createdAt, j - 1);
    TellOfIsSound(After(sub, looks[..j - 1]), looks[j - 1], id, createdAt);
    AfterOneMore(sub, looks, j);
  }

  lemma AfterOneMore(sub: Subscription, looks: seq<Look>, j: nat)
    requires 0 < j < |looks|
    ensures After(sub, looks[..j]) == Looked(After(sub, looks[..j - 1]), looks[j - 1])
  {
    assert looks[..j][..j - 1] == looks[..j - 1];
  }

  lemma TellsAreAChain(sub: Subscription, looks: seq<Look>, id: string, createdAt: int)
    requires Stays(looks, id, createdAt) && EpochsRise(looks)
    ensures Chain(Tells(sub, looks, id, createdAt), POI in sub.kinds)
  {
    var tells := Tells(sub, looks, id, createdAt);
    forall j | 0 <= j < |tells|
      ensures Sound(tells[j], POI in sub.kinds)
    {
      TellIsSound(sub, looks, id, createdAt, j);
    }
    forall j | 0 < j < |tells|
      ensures Follows(tells[j - 1], tells[j].bar, tells[j].enabled, POI in sub.kinds)
    {
      TellFollows(sub, looks, id, createdAt, j);
    }
    forall i, j | 0 <= i < j < |tells|
      ensures Rank(tells[i].tone) <= Rank(tells[j].tone)
    {
      TellAt(sub, looks, id, createdAt, i);
      TellAt(sub, looks, id, createdAt, j);
      assert looks[i].snap.epoch <= looks[j].snap.epoch;
    }
  }

  lemma {:induction false} EnabledBefore(tells: seq<Tell>, poi: bool, i: nat, j: nat)
    requires Chain(tells, poi) && i <= j < |tells| && tells[j].enabled
    ensures tells[i].enabled
  {
    if i < j {
      assert Follows(tells[j - 1], tells[j].bar, tells[j].enabled, poi);
      EnabledBefore(tells, poi, i, j - 1);
    }
  }

  /** Once told and recorded, a tone is never below the bar again. */
  lemma {:induction false} RecordedStays(tells: seq<Tell>, poi: bool, i: nat, j: nat)
    requires Chain(tells, poi) && i < j < |tells| && tells[i].Told() && tells[i].saved
    ensures tells[j].bar >= Rank(tells[i].tone)
  {
    assert Follows(tells[j - 1], tells[j].bar, tells[j].enabled, poi);
    if i < j - 1 { RecordedStays(tells, poi, i, j - 1); }
  }

  /** Told but not recorded, it stays pending until something about it gets through again. */
  lemma {:induction false} UnrecordedStaysPending(tells: seq<Tell>, poi: bool, i: nat, j: nat)
    requires Chain(tells, poi) && i < j < |tells| && tells[i].Told() && !tells[i].saved
    requires forall k | i < k < j :: !tells[k].hears
    ensures tells[j].bar == tells[i].bar
  {
    assert Follows(tells[j - 1], tells[j].bar, tells[j].enabled, poi);
    if i < j - 1 {
      UnrecordedStaysPending(tells, poi, i, j - 1);
      assert Sound(tells[j - 1], poi);
    }
  }

  /** A look whose alert got through but was not recorded, and the next look, still at the same tone and still
      enabled, whose post about the allocation gets through. */
  predicate Retold(tells: seq<Tell>, i: int, j: int) {
    && 0 <= i < j < |tells| && tells[i].Told() && !tells[i].saved
    && tells[j].enabled && tells[j].hears && (forall k | i < k < j :: !tells[k].hears)
    && tells[i].tone == tells[j].tone
  }

  lemma RankInjective(s: Tone, t: Tone)
    requires Rank(s) == Rank(t)
    ensures s == t
  {
  }

  /** The first look after `i` that hears, `j` at the latest. */
  lemma {:induction false} FirstHearing(tells: seq<Tell>, i: nat, j: nat) returns (k: nat)
    requires i < j < |tells| && tells[j].hears
    ensures i < k <= j && tells[k].hears && forall l | i < l < k :: !tells[l].hears
  {
    if h :| i < h < j && tells[h].hears {
      k := FirstHearing(tells, i, h);
    } else {
      k := j;
    }
  }

  lemma RepeatIsRetold(tells: seq<Tell>, poi: bool, i: nat, j: nat)
    requires Chain(tells, poi) && i < j < |tells| && tells[i].Told() && tells[j].Told()
    requires Rank(tells[i].tone) >= Rank(tells[j].tone)
    ensures exists k :: Retold(tells, i, k)
  {
    if tells[i].saved { RecordedStays(tells, poi, i, j); }
    var k := FirstHearing(tells, i, j);
    EnabledBefore(tells, poi, k, j);
    assert Rank(tells[i].tone) <= Rank(tells[k].tone);
    assert k < j ==> Rank(tells[k].tone) <= Rank(tells[j].tone);
    RankInjective(tells[i].tone, tells[k].tone);
    assert Retold(tells, i, k);
  }

  predicate RisesThroughout(tells: seq<Tell>) {
    forall i, j | 0 <= i < j < |tells| && tells[i].Told() && tells[j].Told() :: Rank(tells[i].tone) < Rank(tells[j].tone)
  }

  lemma RisesIffNeverRetold(tells: seq<Tell>, poi: bool)
    requires Chain(tells, poi)
    ensures RisesThroughout(tells) <==> !exists i, j :: Retold(tells, i, j)
  {
    if i, j :| Retold(tells, i, j) {
      UnrecordedStaysPending(tells, poi, i, j);
      assert tells[j].Told();
    }
    if i, j :| 0 <= i < j < |tells| && tells[i].Told() && tells[j].Told() && Rank(tells[i].tone) >= Rank(tells[j].tone) {
      RepeatIsRetold(tells, poi, i, j);
    }
  }

  lemma {:induction false} ToldMembers(tells: seq<Tell>, t: Tone)
    ensures t in TonesTold(tells) <==> exists i :: 0 <= i < |tells| && tells[i].Told() && tells[i].tone == t
  {
    if tells != [] {
      var init, m := tells[..|tells| - 1], tells[|tells| - 1];
      ToldMembers(init, t);
      if i :| 0 <= i < |init| && init[i].Told() && init[i].tone == t { assert tells[i] == init[i]; }
    }
  }

  lemma LastRises(tones: seq<Tone>, t: Tone)
    ensures Rising(tones + [t]) <==> Rising(tones) && forall s <- tones :: Rank(s) < Rank(t)
    ensures NeverFalling(tones + [t]) <==> NeverFalling(tones) && forall s <- tones :: Rank(s) <= Rank(t)
  {
    var more := tones + [t];
    assert more[|tones|] == t && forall i | 0 <= i < |tones| :: more[i] == tones[i];
  }

  lemma RisesOneMore(tells: seq<Tell>)
    requires tells != []
    ensures var init, m := tells[..|tells| - 1], tells[|tells| - 1];
      RisesThroughout(tells)
      <==> RisesThroughout(init) && (m.Told() ==> forall i | 0 <= i < |init| && init[i].Told() :: Rank(init[i].tone) < Rank(m.tone))
  {
    var init := tells[..|tells| - 1];
    assert forall i | 0 <= i < |init| :: init[i] == tells[i];
  }

  lemma ToldBelow(tells: seq<Tell>, bound: nat)
    ensures (forall s <- TonesTold(tells) :: Rank(s) < bound)
       <==> forall i | 0 <= i < |tells| && tells[i].Told() :: Rank(tells[i].tone) < bound
  {
    forall t: Tone
      ensures t in TonesTold(tells) <==> exists i :: 0 <= i < |tells| && tells[i].Told() && tells[i].tone == t
    {
      ToldMembers(tells, t);
    }
  }

  lemma {:induction false} TonesRiseIff(tells: seq<Tell>)
    ensures Rising(TonesTold(tells)) <==> RisesThroughout(tells)
  {
    if tells != [] {
      var init, m := tells[..|tells| - 1], tells[|tells| - 1];
      TonesRiseIff(init);
      RisesOneMore(tells);
      if m.Told() {
        LastRises(TonesTold(init), m.tone);
        ToldBelow(init, Rank(m.tone));
      } else {
        assert TonesTold(tells) == TonesTold(init);
      }
    }
  }

  lemma {:induction false} TonesNeverFall(tells: seq<Tell>, poi: bool)
    requires Chain(tells, poi)
    ensures NeverFalling(TonesTold(tells)) && forall t <- TonesTold(tells) :: Rank(t) > 0
  {
    if tells != [] {
      var init, m := tells[..|tells| - 1], tells[|tells| - 1];
      assert Chain(init, poi);
      TonesNeverFall(init, poi);
      if m.Told() {
        LastRises(TonesTold(init), m.tone);
        ToldBelow(init, Rank(m.tone) + 1);
      }
    }
  }

  lemma {:induction false} RisingRanks(told: seq<Tone>)
    requires Rising(told) && forall t <- told :: Rank(t) > 0
    ensures told != [] ==> Rank(told[|told| - 1]) >= |told|
  {
    if |told| > 1 {
      RisingRanks(told[..|told| - 1]);
      assert Rank(told[|told| - 2]) < Rank(told[|told| - 1]);
    }
  }

  lemma ChainRises(tells: seq<Tell>, poi: bool)
    requires Chain(tells, poi)
    ensures NeverFalling(TonesTold(tells))
    ensures Rising(TonesTold(tells)) <==> !exists i, j :: Retold(tells, i, j)
    ensures Rising(TonesTold(tells)) ==> |TonesTold(tells)| <= 2
  {
    TonesNeverFall(tells, poi);
    RisesIffNeverRetold(tells, poi);
    TonesRiseIff(tells);
    if Rising(TonesTold(tells)) { RisingRanks(TonesTold(tells)); }
  }

  /** While an allocation stays listed the alerts about it that get through never become less urgent. They
      strictly rise, and are then at most two, exactly when none that went unrecorded is told again at the same
      tone by the next post that gets through. */
  lemma PoiAlertsRise(sub: Subscription, looks: seq<Look>, id: string, createdAt: int)
    requires Stays(looks, id, createdAt) && EpochsRise(looks)
    ensures NeverFalling(Delivered(sub, looks, id))
    ensures Rising(Delivered(sub, looks, id)) <==> !exists i, j :: Retold(Tells(sub, looks, id, createdAt), i, j)
    ensures Rising(Delivered(sub, looks, id)) ==> |Delivered(sub, looks, id)| <= 2
  {
    DeliveredIsTold(sub, looks, id, createdAt);
    TellsAreAChain(sub, looks, id, createdAt);
    ChainRises(Tells(sub, looks, id, createdAt), POI in sub.kinds);
  }

  /** So it is enough that the database takes the row after every look that told of the allocation. */
  lemma RecordedPoiAlertsRise(sub: Subscription, looks: seq<Look>, id: string, createdAt: int)
    requires Stays(looks, id, createdAt) && EpochsRise(looks)
    requires forall j | 0 <= j < |looks| && PoiTones(Told(After(sub, looks[..j]), looks[j]), id) != [] :: Saves(After(sub, looks[..j]), looks[j])
    ensures Rising(Delivered(sub, looks, id)) && |Delivered(sub, looks, id)| <= 2
  {
    var tells := Tells(sub, looks, id, createdAt);
    forall j | 0 <= j < |looks|
      ensures tells[j].Told() ==> tells[j].saved
    {
      TellAt(sub, looks, id, createdAt, j);
      TellsIff(After(sub, looks[..j]), looks[j], id, createdAt);
    }
    PoiAlertsRise(sub, looks, id, createdAt);
  }

  // ---------------------------------------------------------------------------
  // The run that repeats itself.

  /** An allocation opened at epoch zero, stored as fresh, now with seven days left. */
  const AGING := Allocation("a", "D", 0, 0.0, false)

  const AGING_SUB := Subscription("indexer", {POI}, 20.0, Seen(map["a" := FreshTone], map["D" := false], map["D" := 0.0], None, None), 0, false)

  /** The post gets through and the database then fails. */
  const LOST := Look(Snapshot(21, [AGING], None, None, None), Through, false)

  function Lost(n: nat): seq<Look> {
    seq(n, _ => LOST)
  }

  function Dues(n: nat): seq<Tone> {
    seq(n, _ => DueTone)
  }

  lemma AgingIsListed()
    ensures ListedOnce(LOST, "a", 0) && AgeTone(LOST, 0) == DueTone
  {
    assert AGING in [AGING];
    assert LastWith([AGING], "a") == AGING;
  }

  lemma LostStep()
    ensures ListedOnce(LOST, "a", 0)
    ensures Looked(AGING_SUB, LOST) == AGING_SUB && PoiTones(Told(AGING_SUB, LOST), "a") == [DueTone]
  {
    AgingIsListed();
    TellsIff(AGING_SUB, LOST, "a", 0);
    assert Bar(AGING_SUB, "a") == 0;
  }

  /** A post whose save fails is repeated at every later look, without end. */
  lemma {:induction false} UnrecordedPostsRepeat(n: nat)
    ensures Stays(Lost(n), "a", 0) && EpochsRise(Lost(n))
    ensures After(AGING_SUB, Lost(n)) == AGING_SUB && Delivered(AGING_SUB, Lost(n), "a") == Dues(n)
  {
    LostStep();
    if n > 0 {
      assert Lost(n)[..n - 1] == Lost(n - 1);
      UnrecordedPostsRepeat(n - 1);
      assert Dues(n) == Dues(n - 1) + [DueTone];
    }
  }

  // ---------------------------------------------------------------------------
  // When a subscription is given up.

  /** What was recorded of a look's post: that it was refused, or got through, or nothing, when there was nothing to say
      or the database lost it. */
  datatype Outcome = Refused | Delivered | Nothing

  function OutcomeOf(sub: Subscription, look: Look): Outcome {
    if sub.disabled || !look.saves || Events(sub.state, look.snap, sub.kinds, sub.percent) == [] then Nothing
    else if look.post.Through? then Outcome.Delivered
    else Refused
  }

  function Outcomes(sub: Subscription, looks: seq<Look>): (outcomes: seq<Outcome>)
    ensures |outcomes| == |looks|
  {
    if looks == [] then []
    else
      var before := looks[..|looks| - 1];
      Outcomes(sub, before) + [OutcomeOf(After(sub, before), looks[|looks| - 1])]
  }

  function RefusedIn(outcomes: seq<Outcome>): nat {
    if outcomes == [] then 0
    else RefusedIn(outcomes[..|outcomes| - 1]) + (if outcomes[|outcomes| - 1].Refused? then 1 else 0)
  }

  /** Ninety-six posts were refused with none delivered in between. */
  predicate RefusedInARow(outcomes: seq<Outcome>, m: nat, n: nat) {
    m <= n <= |outcomes| && RefusedIn(outcomes[m..n]) >= 96 && Outcome.Delivered !in outcomes[m..n]
  }

  /** The last delivery was just before `m`, and since then `failures` posts were refused. */
  predicate SinceDelivery(outcomes: seq<Outcome>, m: nat, failures: nat) {
    && m <= |outcomes| && failures == RefusedIn(outcomes[m..]) && Outcome.Delivered !in outcomes[m..]
    && (m == 0 || outcomes[m - 1].Delivered?)
  }

  ghost predicate GivenUp(outcomes: seq<Outcome>) {
    exists m, n :: RefusedInARow(outcomes, m, n)
  }

  /** How the row stands to what was recorded so far. */
  ghost predicate Follows96(outcomes: seq<Outcome>, failures: nat, disabled: bool) {
    (exists m :: SinceDelivery(outcomes, m, failures)) && (disabled <==> GivenUp(outcomes))
  }

  lemma LookCounts(sub: Subscription, look: Look)
    ensures var after := Looked(sub, look);
            match OutcomeOf(sub, look)
            case Refused => after.failures == sub.failures + 1 && after.disabled == (sub.failures + 1 >= 96)
            case Delivered => after.failures == 0 && !after.disabled
            case Nothing => after.failures == sub.failures && after.disabled == sub.disabled
  {
  }

  lemma SinceOneMore(outcomes: seq<Outcome>, m: nat, failures: nat, o: Outcome)
    requires SinceDelivery(outcomes, m, failures)
    ensures !o.Delivered? ==> SinceDelivery(outcomes + [o], m, failures + (if o.Refused? then 1 else 0))
    ensures o.Delivered? ==> SinceDelivery(outcomes + [o], |outcomes| + 1, 0)
  {
    TailOneMore(outcomes, m, o);
    RefusedOneMore(outcomes[m..], o);
    assert (outcomes + [o])[|outcomes| + 1..] == [];
  }

  lemma TailOneMore(outcomes: seq<Outcome>, m: nat, o: Outcome)
    requires m <= |outcomes|
    ensures (outcomes + [o])[m..] == outcomes[m..] + [o]
  {
  }

  lemma RefusedOneMore(outcomes: seq<Outcome>, o: Outcome)
    ensures RefusedIn(outcomes + [o]) == RefusedIn(outcomes) + (if o.Refused? then 1 else 0)
  {
    assert (outcomes + [o])[..|outcomes|] == outcomes;
  }

  /** No run of refusals that ends now is longer than the one since the last delivery. */
  lemma RunsEndingNow(outcomes: seq<Outcome>, m: nat, failures: nat, k: nat)
    requires SinceDelivery(outcomes, m, failures) && k <= |outcomes| && Outcome.Delivered !in outcomes[k..]
    ensures m <= k && RefusedIn(outcomes[k..]) <= failures
  {
    assert m <= k ==> outcomes[k..] == outcomes[m..][k - m..];
    if m <= k { FewerInTail(outcomes[m..], k - m); }
  }

  lemma {:induction false} FewerInTail(outcomes: seq<Outcome>, k: nat)
    requires k <= |outcomes|
    ensures RefusedIn(outcomes[k..]) <= RefusedIn(outcomes)
  {
    if k < |outcomes| {
      var init := outcomes[..|outcomes| - 1];
      FewerInTail(init, k);
      assert outcomes[k..][..|outcomes| - k - 1] == init[k..];
    }
  }

  lemma GivenUpOneMore(outcomes: seq<Outcome>, o: Outcome, m: nat, failures: nat)
    requires SinceDelivery(outcomes + [o], m, failures)
    ensures GivenUp(outcomes + [o]) <==> GivenUp(outcomes) || failures >= 96
  {
    var all := outcomes + [o];
    if k: nat, n: nat :| RefusedInARow(outcomes, k, n) {
      assert all[k..n] == outcomes[k..n];
      assert RefusedInARow(all, k, n);
    }
    if failures >= 96 {
      assert all[m..|all|] == all[m..];
      assert RefusedInARow(all, m, |all|);
    }
    if k: nat, n: nat :| RefusedInARow(all, k, n) {
      if n <= |outcomes| {
        assert all[k..n] == outcomes[k..n];
        assert RefusedInARow(outcomes, k, n);
      } else {
        assert all[k..n] == all[k..];
        RunsEndingNow(all, m, failures, k);
      }
    }
  }

  lemma CountOneMore(outcomes: seq<Outcome>, sub: Subscription, look: Look)
    requires Follows96(outcomes, sub.failures, sub.disabled)
    ensures Follows96(outcomes + [OutcomeOf(sub, look)], Looked(sub, look).failures, Looked(sub, look).disabled)
  {
    var o, after := OutcomeOf(sub, look), Looked(sub, look);
    var m: nat :| SinceDelivery(outcomes, m, sub.failures);
    LookCounts(sub, look);
    SinceOneMore(outcomes, m, sub.failures, o);
    GivenUpOneMore(outcomes, o, if o.Delivered? then |outcomes| + 1 else m, after.failures);
    if o.Nothing? { NothingGivesUp(outcomes, m, sub.failures); }
  }

  lemma NothingGivesUp(outcomes: seq<Outcome>, m: nat, failures: nat)
    requires SinceDelivery(outcomes, m, failures)
    ensures failures >= 96 ==> GivenUp(outcomes)
  {
    assert outcomes[m..|outcomes|] == outcomes[m..];
    if failures >= 96 { assert RefusedInARow(outcomes, m, |outcomes|); }
  }

  lemma {:induction false} FailuresFollow(sub: Subscription, looks: seq<Look>)
    requires sub.failures == 0 && !sub.disabled
    ensures Follows96(Outcomes(sub, looks), After(sub, looks).failures, After(sub, looks).disabled)
  {
    if looks == [] {
      assert SinceDelivery([], 0, 0);
    } else {
      var before := looks[..|looks| - 1];
      FailuresFollow(sub, before);
      CountOneMore(Outcomes(sub, before), After(sub, before), looks[|looks| - 1]);
    }
  }

  /** A subscription is given up exactly when ninety-six of its posts in a row have been refused; one delivery starts the
      count again, and looks with nothing to say, or that the database lost, do not count. */
  lemma GivenUpIffRefusedInARow(sub: Subscription, looks: seq<Look>)
    requires sub.failures == 0 && !sub.disabled
    ensures After(sub, looks).disabled <==> GivenUp(Outcomes(sub, looks))
  {
    FailuresFollow(sub, looks);
  }

  // ---------------------------------------------------------------------------
  // The loop over subscriptions.

  class Subscribers {
    var rows: map<string, Subscription>

    /** Rows the cycle evaluates: enabled, and with a snapshot of their indexer. */
    function Evaluated(snapshots: map<string, Snapshot>): set<string>
      reads this
    {
      Eligible(rows, snapshots)
    }

    /** Evaluate one row, post what it found and, unless the database fails, store what came of it. */
    method LookOne(id: string, look: Look) returns (told: seq<Event>)
      requires id in rows && !rows[id].disabled
      modifies this
      ensures rows == old(rows)[id := Looked(old(rows)[id], look)] && told == Told(old(rows)[id], look)
    {
      var sub := rows[id];
      var events, next := Evaluate(sub.state, look.snap, sub.kinds, sub.percent);
      told := Heard(look.post, events);
      if look.saves {
        if events == [] || look.post.Through? {
          sub := sub.(state := next, failures := if events == [] then sub.failures else 0);
        } else {
          sub := sub.(failures := sub.failures + 1, disabled := sub.failures + 1 >= DISABLE_AFTER_FAILURES);
        }
      }
      rows := rows[id := sub];
    }

    /** One turn of the loop. */
    method Visit(ghost before: map<string, Subscription>, snapshots: map<string, Snapshot>, posts: map<string, Post>,
                 ghost reached: set<string>, heard: map<string, seq<Event>>, id: string)
      returns (told: map<string, seq<Event>>)
      requires Visited(before, snapshots, posts, reached, rows, heard)
      requires id in before && id !in reached && !before[id].disabled && before[id].indexer in snapshots
      modifies this
      ensures Visited(before, snapshots, posts, reached + {id}, rows, told)
    {
      VisitOneMore(before, snapshots, posts, reached, rows, heard, id);
      var events := LookOne(id, LookFor(rows[id], snapshots, posts, id, true));
      told := heard[id := events];
    }

    /** Rows visited one after the other, until all are or the database has taken `saves` updates. */
    method LookAtAll(snapshots: map<string, Snapshot>, posts: map<string, Post>, saves: nat)
      returns (reached: set<string>, told: map<string, seq<Event>>)
      modifies this
      ensures reached <= Eligible(old(rows), snapshots)
      ensures if |Eligible(old(rows), snapshots)| <= saves then reached == Eligible(old(rows), snapshots) else |reached| == saves
      ensures Visited(old(rows), snapshots, posts, reached, rows, told)
    {
      ghost var before := rows;
      ghost var all := Eligible(before, snapshots);
      var pending := Eligible(rows, snapshots);
      reached, told := {}, map[];
      NoneVisited(before, snapshots, posts);
      while pending != {} && |reached| < saves
        invariant Split(all, pending, reached) && |reached| <= saves
        invariant Visited(before, snapshots, posts, reached, rows, told)
        decreases |pending|
      {
        var id :| id in pending;
        SplitOneMore(all, pending, reached, id);
        told := Visit(before, snapshots, posts, reached, told, id);
        pending, reached := pending - {id}, reached + {id};
      }
      SplitSize(all, pending, reached);
    }

    /** One cycle: `snapshots` could be fetched, `posts` come of the posts, and the database takes `saves`
        updates before it fails, which ends the cycle at a row whose post is already out. Every row visited
        takes exactly the step of a look and its webhook is told exactly what that look tells. */
    method RunCycle(snapshots: map<string, Snapshot>, posts: map<string, Post>, saves: nat)
      returns (reached: set<string>, broken: Option<string>, told: map<string, seq<Event>>)
      modifies this
      ensures reached <= old(Evaluated(snapshots))
      ensures broken.None? <==> |old(Evaluated(snapshots))| <= saves
      ensures if broken.None? then reached == old(Evaluated(snapshots))
              else |reached| == saves && broken.value in old(Evaluated(snapshots)) - reached
      ensures rows == LookedAll(old(rows), snapshots, posts, reached)
      ensures told == ToldAll(old(rows), snapshots, posts, reached, broken)
    {
      ghost var before := rows;
      var all := Evaluated(snapshots);
      reached, told := LookAtAll(snapshots, posts, saves);
      broken := None;
      var pending := all - reached;
      assert |all| == |pending| + |reached|;
      if pending != {} {
        var id :| id in pending;
        LookedOneMore(before, snapshots, posts, reached, id);
        ToldAndLost(before, snapshots, posts, reached, id);
        var heard := LookOne(id, LookFor(rows[id], snapshots, posts, id, false));
        told, broken := told[id := heard], Some(id);
      }
    }
  }

  function Eligible(rows: map<string, Subscription>, snapshots: map<string, Snapshot>): set<string> {
    set id | id in rows && !rows[id].disabled && rows[id].indexer in snapshots
  }

  function PostOf(posts: map<string, Post>, id: string): Post {
    if id in posts then posts[id] else Stopped({})
  }

  function LookFor(sub: Subscription, snapshots: map<string, Snapshot>, posts: map<string, Post>, id: string, saves: bool): Look
    requires sub.indexer in snapshots
  {
    Look(snapshots[sub.indexer], PostOf(posts, id), saves)
  }

  function LookedAll(rows: map<string, Subscription>, snapshots: map<string, Snapshot>, posts: map<string, Post>, reached: set<string>)
    : map<string, Subscription>
  {
    map id | id in rows
      :: if id in reached && rows[id].indexer in snapshots then Looked(rows[id], LookFor(rows[id], snapshots, posts, id, true))
         else rows[id]
  }

  /** What each webhook is told in a cycle, the one whose row was then lost included. */
  function ToldAll(rows: map<string, Subscription>, snapshots: map<string, Snapshot>, posts: map<string, Post>,
                   reached: set<string>, broken: Option<string>): map<string, seq<Event>>
  {
    map id | id in rows && (id in reached || broken == Some(id)) && rows[id].indexer in snapshots
      :: Told(rows[id], LookFor(rows[id], snapshots, posts, id, id in reached))
  }

  lemma LookedOneMore(rows: map<string, Subscription>, snapshots: map<string, Snapshot>, posts: map<string, Post>,
                      reached: set<string>, id: string)
    requires id in rows && id !in reached && rows[id].indexer in snapshots
    ensures LookedAll(rows, snapshots, posts, reached + {id})
         == LookedAll(rows, snapshots, posts, reached)[id := Looked(rows[id], LookFor(rows[id], snapshots, posts, id, true))]
    ensures LookedAll(rows, snapshots, posts, reached)[id] == rows[id]
  {
  }

  lemma ToldOneMore(rows: map<string, Subscription>, snapshots: map<string, Snapshot>, posts: map<string, Post>,
                    reached: set<string>, id: string)
    requires id in rows && id !in reached && rows[id].indexer in snapshots
    ensures ToldAll(rows, snapshots, posts, reached + {id}, None)
         == ToldAll(rows, snapshots, posts, reached, None)[id := Told(rows[id], LookFor(rows[id], snapshots, posts, id, true))]
  {
  }

  predicate Split(all: set<string>, pending: set<string>, reached: set<string>) {
    pending !! reached && all == pending + reached
  }

  lemma SplitOneMore(all: set<string>, pending: set<string>, reached: set<string>, id: string)
    requires Split(all, pending, reached) && id in pending
    ensures Split(all, pending - {id}, reached + {id}) && id in all && id !in reached && |reached + {id}| == |reached| + 1
  {
  }

  lemma SplitSize(all: set<string>, pending: set<string>, reached: set<string>)
    requires Split(all, pending, reached)
    ensures |all| == |pending| + |reached| && reached <= all && (pending == {} ==> reached == all)
  {
  }

  lemma NoneVisited(rows: map<string, Subscription>, snapshots: map<string, Snapshot>, posts: map<string, Post>)
    ensures Visited(rows, snapshots, posts, {}, rows, map[])
  {
  }

  ghost predicate Visited(before: map<string, Subscription>, snapshots: map<string, Snapshot>, posts: map<string, Post>,
                          reached: set<string>, rows: map<string, Subscription>, told: map<string, seq<Event>>)
  {
    rows == LookedAll(before, snapshots, posts, reached) && told == ToldAll(before, snapshots, posts, reached, None)
  }

  lemma VisitOneMore(before: map<string, Subscription>, snapshots: map<string, Snapshot>, posts: map<string, Post>,
                     reached: set<string>, rows: map<string, Subscription>, told: map<string, seq<Event>>, id: string)
    requires Visited(before, snapshots, posts, reached, rows, told)
    requires id in before && id !in reached && before[id].indexer in snapshots
    ensures id in rows && rows[id] == before[id]
    ensures var look := LookFor(before[id], snapshots, posts, id, true);
      Visited(before, snapshots, posts, reached + {id}, rows[id := Looked(before[id], look)], told[id := Told(before[id], look)])
  {
    LookedOneMore(before, snapshots, posts, reached, id);
    ToldOneMore(before, snapshots, posts, reached, id);
  }

  lemma ToldAndLost(rows: map<string, Subscription>, snapshots: map<string, Snapshot>, posts: map<string, Post>,
                    reached: set<string>, id: string)
    requires id in rows && id !in reached && rows[id].indexer in snapshots
    ensures ToldAll(rows, snapshots, posts, reached, Some(id))
         == ToldAll(rows, snapshots, posts, reached, None)[id := Told(rows[id], LookFor(rows[id], snapshots, posts, id, false))]
    ensures Looked(rows[id], LookFor(rows[id], snapshots, posts, id, false)) == rows[id]
  {
  }

  /** A subscription whose webhook nothing was posted to is told nothing, and keeps what it remembers if there was
      something to tell. */
  lemma UnpostedTellsNothing(sub: Subscription, snapshots: map<string, Snapshot>, posts: map<string, Post>, id: string, saves: bool)
    requires sub.indexer in snapshots && id !in posts
    ensures var look := LookFor(sub, snapshots, posts, id, saves);
            && (forall e :: e !in Told(sub, look))
            && (Found(sub, look) != [] ==> Looked(sub, look).state == sub.state)
  {
    var look := LookFor(sub, snapshots, posts, id, saves);
    forall e
      ensures e !in Told(sub, look)
    {
      HeardIs(look.post, Found(sub, look), e);
    }
  }
}
