/** The digest's loop: one row per indexer, the fingerprint of what is committed, and the decision to post. */
module Alerter {
  import opened Prelude
  import opened Text
  import opened Hysteresis

  type Members = map<Address, Member>

  function Entry(members: Members, address: Address): Member {
    if address in members then members[address] else NEW_MEMBER
  }

  function Next(confirm: int, members: Members, roster: Roster, address: Address): Member {
    Step(confirm, Entry(members, address), Observed(roster, address))
  }

  /** Rows like this are deleted. */
  predicate Blank(m: Member) {
    m.stable == Absent && m.candidate == Absent
  }

  /** The table once a cycle has dealt with the addresses in `visited`. */
  function Advanced(confirm: int, members: Members, roster: Roster, visited: set<Address>): Members {
    map a | a in members.Keys + visited && (a in visited ==> !Blank(Next(confirm, members, roster, a)))
      :: if a in visited then Next(confirm, members, roster, a) else members[a]
  }

  /** Deleting blank rows loses nothing: reading the table afterwards is stepping every visited indexer. */
  lemma AdvancedEntry(confirm: int, members: Members, roster: Roster, visited: set<Address>, address: Address)
    ensures Entry(Advanced(confirm, members, roster, visited), address)
         == if address in visited then Next(confirm, members, roster, address) else Entry(members, address)
  {
  }

  lemma AdvancedOneMore(confirm: int, members: Members, roster: Roster, visited: set<Address>, address: Address)
    requires address !in visited
    ensures Advanced(confirm, members, roster, visited + {address})
         == var m := Next(confirm, members, roster, address);
            var rest := Advanced(confirm, members, roster, visited);
            if Blank(m) then rest - {address} else rest[address := m]
  {
  }

  // ---------------------------------------------------------------------------
  // Runs. A cycle the database fails in leaves some addresses undealt with.

  datatype Cycle = Cycle(roster: Roster, missed: set<Address>)

  function Visited(members: Members, c: Cycle): set<Address> {
    members.Keys + c.roster.Keys - c.missed
  }

  function After(confirm: int, cycles: seq<Cycle>): Members {
    if cycles == [] then map[]
    else
      var members, c := After(confirm, cycles[..|cycles| - 1]), cycles[|cycles| - 1];
      Advanced(confirm, members, c.roster, Visited(members, c))
  }

  /** What the cycles that reached an indexer saw of it. */
  function History(cycles: seq<Cycle>, address: Address): seq<Level> {
    if cycles == [] then []
    else
      var before, c := History(cycles[..|cycles| - 1], address), cycles[|cycles| - 1];
      if address in c.missed then before else before + [Observed(c.roster, address)]
  }

  /** However the rosters come and wherever cycles break off, the table holds for every indexer what a
      machine of its own would, fed the observations that reached it. */
  lemma {:induction false} EntryIsMachine(confirm: int, cycles: seq<Cycle>, address: Address)
    ensures Entry(After(confirm, cycles), address) == Machine(confirm, History(cycles, address))
  {
    if cycles != [] {
      var before, c := cycles[..|cycles| - 1], cycles[|cycles| - 1];
      EntryIsMachine(confirm, before, address);
      var members := After(confirm, before);
      AdvancedEntry(confirm, members, c.roster, Visited(members, c), address);
      if address !in c.missed {
        var h := History(before, address);
        assert (h + [Observed(c.roster, address)])[..|h|] == h;
      }
    }
  }

  // ---------------------------------------------------------------------------
  // The fingerprint.

  /** The committed roster: who is stably failing, and how. */
  function Confirmed(members: Members): Roster {
    map a | a in members && members[a].stable != Absent :: members[a].stable.critical
  }

  function EntryText(address: Address, critical: bool): string {
    address + ":" + (if critical then "C" else "H")
  }

  function Texts(roster: Roster): set<string> {
    set a | a in roster :: EntryText(a, roster[a])
  }

  /** A set of texts in order. */
  ghost function Listed(s: set<string>): seq<string> {
    if s == {} then [] else var x := Pick(s); Insert(Listed(s - {x}), x, Itself)
  }

  lemma {:induction false} ListedSorts(s: set<string>)
    ensures Sorted(Listed(s), Itself) && forall x :: x in Listed(s) <==> x in s
  {
    if s != {} {
      var x := Pick(s);
      ListedSorts(s - {x});
      InsertKeeps(Listed(s - {x}), x, Itself);
      InsertSorts(Listed(s - {x}), x, Itself);
    }
  }

  lemma SortedIsListed(texts: seq<string>, s: set<string>)
    requires DistinctKeys(texts, Itself) && forall x :: x in texts <==> x in s
    ensures Sort(texts, Itself) == Listed(s)
  {
    SortSorts(texts, Itself);
    ListedSorts(s);
    SortedUnique(Sort(texts, Itself), Listed(s), Itself);
  }

  ghost function Fingerprint(roster: Roster): string {
    JoinTexts(Listed(Texts(roster)))
  }

  lemma EntryTextInjective(a: Address, x: bool, b: Address, y: bool)
    requires EntryText(a, x) == EntryText(b, y)
    ensures a == b && x == y
  {
    var s := EntryText(a, x);
    assert |s| == |a| + 2 == |b| + 2;
    assert a == s[..|a|] && b == s[..|b|];
    assert s[|a| + 1] == (if x then 'C' else 'H') && s[|b| + 1] == (if y then 'C' else 'H');
  }

  predicate PlainRoster(roster: Roster) {
    forall a <- roster.Keys :: ',' !in a
  }

  lemma TextsTell(r: Roster, q: Roster, a: Address)
    requires Texts(r) == Texts(q) && a in r
    ensures a in q && q[a] == r[a]
  {
    assert EntryText(a, r[a]) in Texts(r);
    var b :| b in q && EntryText(b, q[b]) == EntryText(a, r[a]);
    EntryTextInjective(b, q[b], a, r[a]);
  }

  lemma ListedIsPlain(roster: Roster)
    requires PlainRoster(roster)
    ensures forall x | x in Listed(Texts(roster)) :: Plain(x)
  {
    ListedSorts(Texts(roster));
  }

  /** Comparing fingerprints is comparing committed rosters. */
  lemma FingerprintsEqualIffSameRoster(r: Roster, q: Roster)
    requires PlainRoster(r) && PlainRoster(q)
    ensures Fingerprint(r) == Fingerprint(q) <==> r == q
  {
    if Fingerprint(r) == Fingerprint(q) {
      ListedIsPlain(r);
      ListedIsPlain(q);
      JoinTextsInjective(Listed(Texts(r)), Listed(Texts(q)));
      ListedSorts(Texts(r));
      ListedSorts(Texts(q));
      assert Texts(r) == Texts(q) by {
        forall x
          ensures x in Texts(r) <==> x in Texts(q)
        {
          assert x in Listed(Texts(r)) <==> x in Texts(r);
        }
      }
      forall a
        ensures a in r ==> a in q && q[a] == r[a]
        ensures a in q ==> a in r && r[a] == q[a]
      {
        if a in r { TextsTell(r, q, a); }
        if a in q { TextsTell(q, r, a); }
      }
    }
  }

  // ---------------------------------------------------------------------------
  // When the fingerprint moves.

  predicate PlainCycles(cycles: seq<Cycle>) {
    forall c <- cycles :: PlainRoster(c.roster)
  }

  lemma {:induction false} MembersWereSeen(confirm: int, cycles: seq<Cycle>)
    requires PlainCycles(cycles)
    ensures forall a | a in After(confirm, cycles) :: ',' !in a
  {
    if cycles != [] {
      assert cycles[|cycles| - 1] in cycles;
      MembersWereSeen(confirm, cycles[..|cycles| - 1]);
    }
  }

  predicate RunCompletes(confirm: int, cycles: seq<Cycle>, c: Cycle, address: Address) {
    var history, seen := History(cycles, address), Observed(c.roster, address);
    && address !in c.missed
    && seen != Machine(confirm, history).stable
    && Held(history + [seen], Threshold(confirm), |history| + 1, seen)
  }

  lemma ConfirmedEntry(members: Members, address: Address)
    ensures Entry(members, address).stable == Observed(Confirmed(members), address)
  {
  }

  lemma SameConfirmed(before: Members, after: Members)
    ensures Confirmed(before) == Confirmed(after) <==> forall a :: Entry(before, a).stable == Entry(after, a).stable
  {
    forall a: Address
      ensures Observed(Confirmed(before), a) == Entry(before, a).stable
      ensures Observed(Confirmed(after), a) == Entry(after, a).stable
    {
      ConfirmedEntry(before, a);
      ConfirmedEntry(after, a);
    }
    if forall a :: Entry(before, a).stable == Entry(after, a).stable {
      forall a: Address
        ensures Observed(Confirmed(before), a) == Observed(Confirmed(after), a)
      {
        assert Entry(before, a).stable == Entry(after, a).stable;
      }
      SameObserved(Confirmed(before), Confirmed(after));
    }
  }

  lemma SameObserved(r: Roster, q: Roster)
    requires forall a :: Observed(r, a) == Observed(q, a)
    ensures r == q
  {
    forall a
      ensures a in r <==> a in q
      ensures a in r && a in q ==> r[a] == q[a]
    {
      assert Observed(r, a) == Observed(q, a);
    }
  }

  lemma EntryMovesIffRunCompletes(confirm: int, cycles: seq<Cycle>, c: Cycle, address: Address)
    ensures Entry(After(confirm, cycles), address).stable != Entry(After(confirm, cycles + [c]), address).stable
       <==> RunCompletes(confirm, cycles, c, address)
  {
    EntryIsMachine(confirm, cycles, address);
    EntryIsMachine(confirm, cycles + [c], address);
    assert (cycles + [c])[..|cycles|] == cycles;
    MovesIffRunCompletes(confirm, History(cycles, address), Observed(c.roster, address));
  }

  /** The fingerprint moves exactly when some indexer has now been in a state other than its committed one
      for as many cycles as it takes: counts, blinks and row deletions never move it. */
  lemma FingerprintMovesIffRunCompletes(confirm: int, cycles: seq<Cycle>, c: Cycle)
    requires PlainCycles(cycles + [c])
    ensures Fingerprint(Confirmed(After(confirm, cycles + [c]))) != Fingerprint(Confirmed(After(confirm, cycles)))
       <==> exists address :: RunCompletes(confirm, cycles, c, address)
  {
    var before, after := After(confirm, cycles), After(confirm, cycles + [c]);
    assert PlainCycles(cycles) by {
      forall x | x in cycles
        ensures PlainRoster(x.roster)
      {
        assert x in cycles + [c];
      }
    }
    MembersWereSeen(confirm, cycles);
    MembersWereSeen(confirm, cycles + [c]);
    FingerprintsEqualIffSameRoster(Confirmed(before), Confirmed(after));
    SameConfirmed(before, after);
    forall a: Address
      ensures Entry(before, a).stable != Entry(after, a).stable <==> RunCompletes(confirm, cycles, c, a)
    {
      EntryMovesIffRunCompletes(confirm, cycles, c, a);
    }
  }

  // ---------------------------------------------------------------------------
  // The loop.

  const DAY: int := 86400

  /** What becomes of a message handed to the webhook, and of the row that says it was sent. */
  datatype Delivery = Rejected | DeliveredUnrecorded | Recorded

  function Due(lastPost: Option<int>, now: int): bool {
    lastPost.None? || lastPost.value < now - DAY
  }

  function ToTell(known: Option<string>): string {
    known.GetOr("")
  }

  /** One turn of the loop as the world deals it: what the cycle saw and missed, whether the last post could be
      read back, when it was, and what would become of a message. */
  datatype Tick = Tick(cycle: Cycle, readable: bool, now: int, delivery: Delivery)

  /** The row that says what was last posted, and when. */
  datatype Memory = Memory(fingerprint: Option<string>, post: Option<int>)

  function Cycles(ticks: seq<Tick>): seq<Cycle> {
    if ticks == [] then [] else Cycles(ticks[..|ticks| - 1]) + [ticks[|ticks| - 1].cycle]
  }

  function CommittedAfter(confirm: int, ticks: seq<Tick>): Roster {
    Confirmed(After(confirm, Cycles(ticks)))
  }

  /** The last tick's message goes out. */
  ghost predicate Posts(confirm: int, ticks: seq<Tick>)
    requires ticks != []
    decreases |ticks|, 0
  {
    var t, memory := ticks[|ticks| - 1], Remembered(confirm, ticks[..|ticks| - 1]);
    && t.cycle.missed == {}
    && (!t.readable || Fingerprint(CommittedAfter(confirm, ticks)) != ToTell(memory.fingerprint) || Due(memory.post, t.now))
  }

  ghost predicate Records(confirm: int, ticks: seq<Tick>)
    requires ticks != []
    decreases |ticks|, 1
  {
    Posts(confirm, ticks) && ticks[|ticks| - 1].delivery.Recorded?
  }

  ghost function Remembered(confirm: int, ticks: seq<Tick>): Memory
    decreases |ticks|, 2
  {
    if ticks == [] then Memory(None, None)
    else if Records(confirm, ticks) then Memory(Some(Fingerprint(CommittedAfter(confirm, ticks))), Some(ticks[|ticks| - 1].now))
    else Remembered(confirm, ticks[..|ticks| - 1])
  }

  lemma OneMoreTick(confirm: int, ticks: seq<Tick>, t: Tick)
    ensures var all, text := ticks + [t], Fingerprint(CommittedAfter(confirm, ticks + [t]));
            var memory := Remembered(confirm, ticks);
            && Cycles(all) == Cycles(ticks) + [t.cycle]
            && Posts(confirm, all)
               == (t.cycle.missed == {} && (!t.readable || text != ToTell(memory.fingerprint) || Due(memory.post, t.now)))
            && Remembered(confirm, all)
               == if Posts(confirm, all) && t.delivery.Recorded? then Memory(Some(text), Some(t.now)) else memory
  {
    assert (ticks + [t])[..|ticks|] == ticks;
  }

  class Alerter {
    const confirm: int
    var members: Members
    var lastFingerprint: Option<string>
    var lastPost: Option<int>
    ghost var cycles: seq<Cycle>
    ghost var ticks: seq<Tick>

    ghost predicate Valid()
      reads this
    {
      members == After(confirm, cycles)
    }

    /** Between cycles the state is what the ticks so far make of it. */
    ghost predicate Settled()
      reads this
    {
      Valid() && cycles == Cycles(ticks) && Memory(lastFingerprint, lastPost) == Remembered(confirm, ticks)
    }

    constructor (confirm: int)
      ensures Settled() && this.confirm == confirm && cycles == [] && ticks == []
      ensures lastFingerprint == None && lastPost == None
    {
      this.confirm := confirm;
      members := map[];
      lastFingerprint, lastPost := None, None;
      cycles, ticks := [], [];
    }

    /** Advance one indexer and store its row. */
    method AdvanceOne(known: Members, roster: Roster, address: Address, ghost done: set<Address>, before: seq<string>)
      returns (committed: seq<string>)
      requires address !in done && Progress(confirm, known, roster, done, members, before)
      modifies `members
      ensures Progress(confirm, known, roster, done + {address}, members, committed)
    {
      var m := Next(confirm, known, roster, address);
      ProgressOneMore(confirm, known, roster, done, members, before, address);
      committed := before;
      if Blank(m) {
        members := members - {address};
      } else {
        members := members[address := m];
        if m.stable != Absent {
          committed := committed + [EntryText(address, m.stable.critical)];
        }
      }
    }

    /** Advance every known or failing indexer, in any order, until the database fails. */
    method Advance(roster: Roster, statements: nat) returns (committed: seq<string>, missed: set<Address>)
      modifies `members
      ensures missed <= old(members).Keys + roster.Keys
      ensures missed == {} <==> |old(members).Keys + roster.Keys| <= statements
      ensures Progress(confirm, old(members), roster, old(members).Keys + roster.Keys - missed, members, committed)
    {
      var known, addresses := members, members.Keys + roster.Keys;
      var done: set<Address> := {};
      committed, missed := [], addresses;
      ProgressStarts(confirm, known, roster);
      while missed != {} && |done| < statements
        invariant done == addresses - missed && missed <= addresses && |done| <= statements
        invariant Progress(confirm, known, roster, done, members, committed)
        decreases |missed|
      {
        var address :| address in missed;
        committed := AdvanceOne(known, roster, address, done, committed);
        missed, done := missed - {address}, done + {address};
      }
      assert |addresses| == |done| + |missed|;
    }

    /** The committed fingerprint; there is none when the database failed on the way. */
    method DebouncedFingerprint(roster: Roster, statements: nat) returns (fingerprint: Option<string>, missed: set<Address>)
      requires Valid()
      modifies `members, `cycles
      ensures Valid() && cycles == old(cycles) + [Cycle(roster, missed)]
      ensures fingerprint.Some? <==> |old(members).Keys + roster.Keys| <= statements
      ensures fingerprint.Some? <==> missed == {}
      ensures fingerprint.Some? ==> fingerprint.value == Fingerprint(Confirmed(members))
    {
      ghost var known := members;
      var committed;
      committed, missed := Advance(roster, statements);
      cycles := cycles + [Cycle(roster, missed)];
      assert cycles[..|cycles| - 1] == old(cycles);
      if missed == {} {
        assert known.Keys + roster.Keys - missed == known.Keys + roster.Keys;
        ProgressDone(confirm, known, roster, members, committed);
        fingerprint := Some(JoinTexts(Sort(committed, Itself)));
      } else {
        fingerprint := None;
      }
    }

    /** Post the fingerprint if it is news or a day has passed, and remember it once that is recorded. */
    method PostNews(fingerprint: string, readable: bool, now: int, delivery: Delivery) returns (posted: bool)
      modifies `lastFingerprint, `lastPost
      ensures var known := if readable then old(lastFingerprint) else None;
              var last := if readable then old(lastPost) else None;
              posted <==> fingerprint != ToTell(known) || Due(last, now)
      ensures Memory(lastFingerprint, lastPost)
           == if posted && delivery.Recorded? then Memory(Some(fingerprint), Some(now))
              else Memory(old(lastFingerprint), old(lastPost))
    {
      posted := false;
      var known, due := None, true;
      if readable {
        known, due := lastFingerprint, Due(lastPost, now);
      }
      var changed := fingerprint != ToTell(known);
      if changed || due {
        posted := true;
        if delivery.Recorded? {
          lastPost, lastFingerprint := Some(now), Some(fingerprint);
        }
      }
    }

    /** One cycle. `readable` says whether the last post can be read back. */
    method RunCycle(roster: Roster, statements: nat, readable: bool, now: int, delivery: Delivery)
      returns (posted: bool, missed: set<Address>)
      requires Settled()
      modifies this
      ensures Settled() && ticks == old(ticks) + [Tick(Cycle(roster, missed), readable, now, delivery)]
      ensures cycles == old(cycles) + [Cycle(roster, missed)]
      ensures missed == {} <==> |old(members).Keys + roster.Keys| <= statements
      ensures posted == Posts(confirm, ticks)
      ensures var known := if readable then old(lastFingerprint) else None;
              var last := if readable then old(lastPost) else None;
              posted <==> missed == {} && (Fingerprint(Confirmed(members)) != ToTell(known) || Due(last, now))
      ensures Memory(lastFingerprint, lastPost)
           == if posted && delivery.Recorded? then Memory(Some(Fingerprint(Confirmed(members))), Some(now))
              else Memory(old(lastFingerprint), old(lastPost))
    {
      var fingerprint;
      fingerprint, missed := DebouncedFingerprint(roster, statements);
      ghost var tick := Tick(Cycle(roster, missed), readable, now, delivery);
      ghost var all, committed := ticks + [tick], Confirmed(members);
      OneMoreTick(confirm, ticks, tick);
      assert CommittedAfter(confirm, all) == committed;
      posted := false;
      if fingerprint.Some? {
        posted := PostNews(fingerprint.value, readable, now, delivery);
      }
      assert posted == Posts(confirm, all);
      ticks := all;
    }
  }

  function Only(roster: Roster, done: set<Address>): Roster {
    map a | a in roster && a in done :: roster[a]
  }

  ghost predicate Committed(texts: seq<string>, roster: Roster) {
    DistinctKeys(texts, Itself) && forall x :: x in texts <==> x in Texts(roster)
  }

  /** The loop of a cycle, part way. */
  ghost predicate Progress(confirm: int, known: Members, roster: Roster, done: set<Address>, members: Members, texts: seq<string>) {
    members == Advanced(confirm, known, roster, done) && Committed(texts, Only(Confirmed(members), done))
  }

  lemma ProgressStarts(confirm: int, known: Members, roster: Roster)
    ensures Progress(confirm, known, roster, {}, known, [])
  {
  }

  lemma ProgressOneMore(confirm: int, known: Members, roster: Roster, done: set<Address>, members: Members,
                        texts: seq<string>, address: Address)
    requires Progress(confirm, known, roster, done, members, texts) && address !in done
    ensures var m := Next(confirm, known, roster, address);
      Progress(confirm, known, roster, done + {address},
               if Blank(m) then members - {address} else members[address := m],
               if m.stable == Absent then texts else texts + [EntryText(address, m.stable.critical)])
  {
    AdvancedOneMore(confirm, known, roster, done, address);
    CommittedOneMore(texts, members, done, address, Next(confirm, known, roster, address));
  }

  lemma ProgressDone(confirm: int, known: Members, roster: Roster, members: Members, texts: seq<string>)
    requires Progress(confirm, known, roster, known.Keys + roster.Keys, members, texts)
    ensures JoinTexts(Sort(texts, Itself)) == Fingerprint(Confirmed(members))
  {
    assert Only(Confirmed(members), known.Keys + roster.Keys) == Confirmed(members);
    SortedIsListed(texts, Texts(Confirmed(members)));
  }

  lemma OnlyDeleted(members: Members, done: set<Address>, address: Address)
    requires address !in done
    ensures Only(Confirmed(members - {address}), done + {address}) == Only(Confirmed(members), done)
  {
  }

  lemma OnlyStored(members: Members, done: set<Address>, address: Address, m: Member)
    requires address !in done
    ensures var before, after := Only(Confirmed(members), done), Only(Confirmed(members[address := m]), done + {address});
      after == if m.stable == Absent then before else before[address := m.stable.critical]
  {
  }

  lemma CommittedOneMore(texts: seq<string>, members: Members, done: set<Address>, address: Address, m: Member)
    requires address !in done && Committed(texts, Only(Confirmed(members), done))
    ensures Committed(if m.stable == Absent then texts else texts + [EntryText(address, m.stable.critical)],
                      Only(Confirmed(if Blank(m) then members - {address} else members[address := m]), done + {address}))
  {
    OnlyDeleted(members, done, address);
    OnlyStored(members, done, address, m);
    if m.stable != Absent { TextsOneMore(texts, Only(Confirmed(members), done), address, m.stable.critical); }
  }

  lemma TextsOneMore(texts: seq<string>, roster: Roster, address: Address, critical: bool)
    requires Committed(texts, roster) && address !in roster
    ensures Committed(texts + [EntryText(address, critical)], roster[address := critical])
  {
    var x, more := EntryText(address, critical), roster[address := critical];
    forall a | a in roster
      ensures EntryText(a, roster[a]) != x
    {
      if EntryText(a, roster[a]) == x { EntryTextInjective(a, roster[a], address, critical); }
    }
    assert x !in texts;
    forall y
      ensures y in Texts(more) <==> y in Texts(roster) || y == x
    {
      assert more[address] == critical && address in more;
      if y in Texts(roster) {
        var a :| a in roster && EntryText(a, roster[a]) == y;
        assert a in more && more[a] == roster[a];
      }
    }
  }

  // ---------------------------------------------------------------------------
  // What is posted over a run.

  ghost predicate RecordsAt(confirm: int, ticks: seq<Tick>, i: nat)
    requires i < |ticks|
  {
    Records(confirm, ticks[..i + 1])
  }

  /** Posts that were rejected or went unrecorded, and cycles that broke off, leave no trace. */
  lemma {:induction false} RememberedSince(confirm: int, ticks: seq<Tick>, m: nat, n: nat)
    requires m <= n <= |ticks| && forall i | m <= i < n :: !RecordsAt(confirm, ticks, i)
    ensures Remembered(confirm, ticks[..n]) == Remembered(confirm, ticks[..m])
  {
    if m < n {
      RememberedSince(confirm, ticks, m, n - 1);
      assert !RecordsAt(confirm, ticks, n - 1);
      assert ticks[..n][..n - 1] == ticks[..n - 1];
    }
  }

  predicate PlainTicks(ticks: seq<Tick>) {
    forall t <- ticks :: PlainRoster(t.cycle.roster)
  }

  lemma {:induction false} PlainTicksArePlain(confirm: int, ticks: seq<Tick>)
    requires PlainTicks(ticks)
    ensures PlainCycles(Cycles(ticks)) && PlainRoster(CommittedAfter(confirm, ticks))
  {
    if ticks != [] {
      assert ticks[|ticks| - 1] in ticks && forall t <- ticks[..|ticks| - 1] :: t in ticks;
      PlainTicksArePlain(confirm, ticks[..|ticks| - 1]);
    }
    MembersWereSeen(confirm, Cycles(ticks));
  }

  lemma PrintsTellRosters(confirm: int, ticks: seq<Tick>, m: nat, n: nat)
    requires PlainTicks(ticks) && m <= |ticks| && n <= |ticks|
    ensures var before, after := CommittedAfter(confirm, ticks[..m]), CommittedAfter(confirm, ticks[..n]);
            Fingerprint(before) == Fingerprint(after) <==> before == after
  {
    assert PlainTicks(ticks[..m]) && PlainTicks(ticks[..n]);
    PlainTicksArePlain(confirm, ticks[..m]);
    PlainTicksArePlain(confirm, ticks[..n]);
    FingerprintsEqualIffSameRoster(CommittedAfter(confirm, ticks[..m]), CommittedAfter(confirm, ticks[..n]));
  }

  lemma PostsAgainst(confirm: int, ticks: seq<Tick>, known: string, post: int)
    requires ticks != [] && ticks[|ticks| - 1].cycle.missed == {}
    requires Remembered(confirm, ticks[..|ticks| - 1]) == Memory(Some(known), Some(post))
    ensures var t := ticks[|ticks| - 1];
      Posts(confirm, ticks)
      <==> !t.readable || Fingerprint(CommittedAfter(confirm, ticks)) != known || post < t.now - DAY
  {
  }

  lemma RememberedFrom(confirm: int, ticks: seq<Tick>, k: nat, n: nat)
    requires k < n <= |ticks|
    requires RecordsAt(confirm, ticks, k) && forall i | k < i < n :: !RecordsAt(confirm, ticks, i)
    ensures Remembered(confirm, ticks[..n])
         == Memory(Some(Fingerprint(CommittedAfter(confirm, ticks[..k + 1]))), Some(ticks[k].now))
  {
    RememberedSince(confirm, ticks, k + 1, n);
  }

  /** Over any run, with any posts lost or left unrecorded and any cycles broken off since, an unbroken cycle posts if and
      only if the last recorded post cannot be read back, or the committed roster is not the one it told of, or
      it is more than a day old. So a change is posted at every unbroken cycle until a post of it is recorded. */
  lemma PostsIffNewsSinceLastRecorded(confirm: int, ticks: seq<Tick>, k: nat, n: nat)
    requires PlainTicks(ticks) && k < n < |ticks| && ticks[n].cycle.missed == {}
    requires RecordsAt(confirm, ticks, k) && forall i | k < i < n :: !RecordsAt(confirm, ticks, i)
    ensures Posts(confirm, ticks[..n + 1])
       <==> || !ticks[n].readable
            || CommittedAfter(confirm, ticks[..n + 1]) != CommittedAfter(confirm, ticks[..k + 1])
            || ticks[k].now < ticks[n].now - DAY
  {
    RememberedFrom(confirm, ticks, k, n);
    var upTo := ticks[..n + 1];
    assert upTo[..n] == ticks[..n];
    PostsAgainst(confirm, upTo, Fingerprint(CommittedAfter(confirm, ticks[..k + 1])), ticks[k].now);
    PrintsTellRosters(confirm, ticks, k + 1, n + 1);
  }

  /** And before any post is recorded, every unbroken cycle posts. */
  lemma PostsUntilFirstRecorded(confirm: int, ticks: seq<Tick>, n: nat)
    requires n < |ticks| && ticks[n].cycle.missed == {} && forall i | 0 <= i < n :: !RecordsAt(confirm, ticks, i)
    ensures Posts(confirm, ticks[..n + 1])
  {
    RememberedSince(confirm, ticks, 0, n);
    assert ticks[..n + 1][..n] == ticks[..n] && ticks[..0] == [];
  }
}
