/** The Discord digest's debounce: which failures have held long enough to count, and when that is worth
    a post. */
module Hysteresis {
  import opened Prelude

  type Address = string

  /** What a cycle sees of an indexer: not failing, or failing with or without a critical item. */
  datatype Level = Absent | Failing(critical: bool)

  /** The indexers failing in one cycle, each with whether any of its items is critical. */
  type Roster = map<Address, bool>

  function Observed(roster: Roster, address: Address): Level {
    if address in roster then Failing(roster[address]) else Absent
  }

  // ---------------------------------------------------------------------------
  // One indexer.

  /** Cycles a new state must hold; what is proved holds for any threshold. */
  const CONFIRM_CYCLES := 2

  datatype Member = Member(stable: Level, candidate: Level, streak: nat)

  const NEW_MEMBER := Member(Absent, Absent, 0)

  function Step(confirm: int, m: Member, seen: Level): Member {
    if seen == m.stable then Member(m.stable, seen, 0)
    else if seen == m.candidate then
      if m.streak + 1 >= confirm then Member(seen, m.candidate, 0) else m.(streak := m.streak + 1)
    else Member(m.stable, seen, 1)
  }

  function Machine(confirm: int, history: seq<Level>): Member {
    if history == [] then NEW_MEMBER
    else Step(confirm, Machine(confirm, history[..|history| - 1]), history[|history| - 1])
  }

  /** The value observed at `i`; an indexer was not failing before it was first looked at. */
  function At(history: seq<Level>, i: int): Level {
    if 0 <= i < |history| then history[i] else Absent
  }

  /** The `k` observations before the `n`th are all `v`. */
  predicate Held(history: seq<Level>, k: nat, n: int, v: Level) {
    forall i | n - k <= i < n :: At(history, i) == v
  }

  predicate AnyHeld(history: seq<Level>, k: nat, n: int) {
    Held(history, k, n, At(history, n - 1))
  }

  /** `v` is the last value held for `k` observations in a row. */
  predicate LastHeld(history: seq<Level>, k: nat, v: Level) {
    exists n | 0 <= n <= |history| ::
      Held(history, k, n, v) && forall m | n < m <= |history| :: !AnyHeld(history, k, m)
  }

  /** A threshold below two acts as two: a new value always starts at one. */
  function Threshold(confirm: int): nat {
    Max(confirm, 2)
  }

  /** How the stored row stands to the observations so far. */
  ghost predicate Tracks(k: nat, history: seq<Level>, m: Member) {
    && LastHeld(history, k, m.stable)
    && m.streak < k
    && (m.streak == 0 <==> m.candidate == m.stable)
    && Held(history, m.streak, |history|, m.candidate)
    && (m.streak == 0 ==> At(history, |history| - 1) == m.stable)
    && (m.streak > 0 ==> At(history, |history| - m.streak - 1) != m.candidate)
  }

  lemma AtSnoc(history: seq<Level>, seen: Level, i: int)
    ensures At(history + [seen], i) == if i == |history| then seen else At(history, i)
  {
  }

  lemma HeldSnoc(history: seq<Level>, seen: Level, k: nat, n: int, v: Level)
    requires n <= |history|
    ensures Held(history + [seen], k, n, v) == Held(history, k, n, v)
  {
    forall i | n - k <= i < n
      ensures At(history + [seen], i) == At(history, i)
    {
      AtSnoc(history, seen, i);
    }
  }

  lemma LastHeldStays(history: seq<Level>, seen: Level, k: nat, v: Level)
    requires LastHeld(history, k, v) && !AnyHeld(history + [seen], k, |history| + 1)
    ensures LastHeld(history + [seen], k, v)
  {
    var n :| 0 <= n <= |history|
          && Held(history, k, n, v) && forall m | n < m <= |history| :: !AnyHeld(history, k, m);
    HeldSnoc(history, seen, k, n, v);
    forall m | n < m <= |history + [seen]|
      ensures !AnyHeld(history + [seen], k, m)
    {
      if m <= |history| {
        assert !AnyHeld(history, k, m);
        AtSnoc(history, seen, m - 1);
        HeldSnoc(history, seen, k, m, At(history, m - 1));
      }
    }
  }

  lemma LastHeldNow(history: seq<Level>, k: nat, v: Level)
    requires Held(history, k, |history|, v)
    ensures LastHeld(history, k, v)
  {
  }

  lemma LastHeldUnique(history: seq<Level>, k: nat, v: Level, w: Level)
    requires k > 0 && LastHeld(history, k, v) && LastHeld(history, k, w)
    ensures v == w
  {
    var n :| 0 <= n <= |history|
          && Held(history, k, n, v) && forall m | n < m <= |history| :: !AnyHeld(history, k, m);
    var p :| 0 <= p <= |history|
          && Held(history, k, p, w) && forall m | p < m <= |history| :: !AnyHeld(history, k, m);
    assert At(history, n - 1) == v && At(history, p - 1) == w;
    assert AnyHeld(history, k, n) && AnyHeld(history, k, p);
  }

  /** What a step does to the runs at the end of the history. */
  lemma StepTracks(confirm: int, history: seq<Level>, m: Member, seen: Level)
    requires Tracks(Threshold(confirm), history, m)
    ensures Tracks(Threshold(confirm), history + [seen], Step(confirm, m, seen))
  {
    var k, more, n := Threshold(confirm), history + [seen], |history| + 1;
    forall i: int
      ensures At(more, i) == if i == |history| then seen else At(history, i)
    {
      AtSnoc(history, seen, i);
    }
    if seen == m.stable {
      StableAgain(k, history, m);
    } else if seen == m.candidate {
      HeldLonger(history, m.streak, seen);
      if m.streak + 1 >= confirm && m.streak + 1 >= k {
        LastHeldNow(more, k, seen);
      } else {
        assert At(more, n - (m.streak + 1) - 1) != seen;
        NotYetHeld(more, k, m.streak + 1, seen);
        LastHeldStays(history, seen, k, m.stable);
      }
    } else {
      assert At(more, n - 2) != seen;
      NotYetHeld(more, k, 1, seen);
      LastHeldStays(history, seen, k, m.stable);
    }
  }

  lemma HeldLonger(history: seq<Level>, streak: nat, seen: Level)
    requires Held(history, streak, |history|, seen)
    ensures Held(history + [seen], streak + 1, |history| + 1, seen)
  {
    forall i | |history| - streak <= i < |history| + 1
      ensures At(history + [seen], i) == seen
    {
      AtSnoc(history, seen, i);
    }
  }

  lemma NotYetHeld(history: seq<Level>, k: nat, streak: nat, v: Level)
    requires history != [] && At(history, |history| - 1) == v
    requires streak < k && At(history, |history| - streak - 1) != v
    ensures !AnyHeld(history, k, |history|)
  {
  }

  lemma StableAgain(k: nat, history: seq<Level>, m: Member)
    requires k >= 2 && Tracks(k, history, m)
    ensures LastHeld(history + [m.stable], k, m.stable)
  {
    AtSnoc(history, m.stable, |history|);
    if AnyHeld(history + [m.stable], k, |history| + 1) {
      LastHeldNow(history + [m.stable], k, m.stable);
    } else {
      LastHeldStays(history, m.stable, k, m.stable);
    }
  }

  lemma {:induction false} MachineTracks(confirm: int, history: seq<Level>)
    ensures Tracks(Threshold(confirm), history, Machine(confirm, history))
  {
    if history == [] {
      LastHeldNow(history, Threshold(confirm), Absent);
    } else {
      var before, seen := history[..|history| - 1], history[|history| - 1];
      MachineTracks(confirm, before);
      StepTracks(confirm, before, Machine(confirm, before), seen);
      assert history == before + [seen];
    }
  }

  /** For every history and every threshold, the committed state is the last value held for that many
      cycles in a row, the indexer having been absent before it was ever seen. */
  lemma CommittedIsLastHeld(confirm: int, history: seq<Level>, v: Level)
    ensures Machine(confirm, history).stable == v <==> LastHeld(history, Threshold(confirm), v)
  {
    MachineTracks(confirm, history);
    if LastHeld(history, Threshold(confirm), v) {
      LastHeldUnique(history, Threshold(confirm), v, Machine(confirm, history).stable);
    }
  }

  /** The counter is zero exactly when there is no candidate, and never reaches the threshold. */
  lemma StreakIsTheCandidatesRun(confirm: int, history: seq<Level>)
    ensures var m := Machine(confirm, history);
      && (m.streak == 0 <==> m.candidate == m.stable)
      && m.streak < Threshold(confirm)
      && Held(history, m.streak, |history|, m.candidate)
  {
    MachineTracks(confirm, history);
  }

  /** The committed state moves exactly when a different value completes its run. */
  lemma MovesIffRunCompletes(confirm: int, history: seq<Level>, seen: Level)
    ensures var before, after := Machine(confirm, history).stable, Machine(confirm, history + [seen]).stable;
      before != after <==> seen != before && Held(history + [seen], Threshold(confirm), |history| + 1, seen)
  {
    var k, before, after := Threshold(confirm), Machine(confirm, history).stable, Machine(confirm, history + [seen]).stable;
    var more := history + [seen];
    MachineTracks(confirm, history);
    MachineTracks(confirm, more);
    AtSnoc(history, seen, |history|);
    if Held(more, k, |history| + 1, seen) {
      LastHeldNow(more, k, seen);
      LastHeldUnique(more, k, seen, after);
    } else {
      LastHeldStays(history, seen, k, before);
      LastHeldUnique(more, k, before, after);
    }
  }

  lemma {:induction false} BlinkStaysPending(confirm: int, history: seq<Level>, blink: seq<Level>)
    requires Machine(confirm, history).streak == 0 && |blink| < Threshold(confirm)
    ensures Machine(confirm, history + blink).stable == Machine(confirm, history).stable
    ensures Machine(confirm, history + blink).streak <= |blink|
  {
    if blink == [] {
      assert history + blink == history;
    } else {
      var less := blink[..|blink| - 1];
      BlinkStaysPending(confirm, history, less);
      assert (history + blink)[..|history + blink| - 1] == history + less;
    }
  }

  /** A disturbance shorter than the threshold, whatever it consists of, leaves no trace once it is over. */
  lemma BlinkIsForgotten(confirm: int, history: seq<Level>, blink: seq<Level>)
    requires Machine(confirm, history).streak == 0 && |blink| < Threshold(confirm)
    ensures Machine(confirm, history + blink + [Machine(confirm, history).stable]) == Machine(confirm, history)
  {
    BlinkStaysPending(confirm, history, blink);
    MachineTracks(confirm, history);
    var back := history + blink + [Machine(confirm, history).stable];
    assert back[..|back| - 1] == history + blink;
  }
}
