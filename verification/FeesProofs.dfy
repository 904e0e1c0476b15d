/** What paged ingest stores over any run, and exactly when it stores everything. */
module FeesProofs {
  import opened Prelude
  import opened Fees

  /** Every stored row is the log's row under its key. */
  predicate Faithful(ledger: Ledger, log: seq<Settlement>) {
    forall k <- ledger :: exists i :: 0 <= i < |log| && log[i].key == k && ledger[k] == log[i]
  }

  /** Every settlement in the log is stored. */
  predicate Complete(ledger: Ledger, log: seq<Settlement>) {
    forall i | 0 <= i < |log| :: log[i].key in ledger && ledger[log[i].key] == log[i]
  }

  /** A settlement the resume point has passed by. */
  predicate Gap(ledger: Ledger, log: seq<Settlement>, i: nat) {
    i < |log| && log[i].key.block <= MaxBlock(ledger) && log[i].key !in ledger
  }

  predicate Gapless(ledger: Ledger, log: seq<Settlement>) {
    forall i | 0 <= i < |log| :: !Gap(ledger, log, i)
  }

  // ---------------------------------------------------------------------------
  // Pages.

  lemma {:induction false} NewerIsSuffix(log: seq<Settlement>, since: int) returns (m: nat)
    requires Ordered(log)
    ensures m <= |log| && Newer(log, since) == log[m..]
    ensures forall i | 0 <= i < |log| :: i < m <==> log[i].key.block <= since
  {
    if log == [] {
      m := 0;
    } else if log[0].key.block > since {
      m := 0;
      forall i | 0 <= i < |log|
        ensures log[i].key.block > since
      {
        assert i > 0 ==> Before(log[0].key, log[i].key);
      }
      AllNewer(log, since);
    } else {
      assert Ordered(log[1..]);
      var n := NewerIsSuffix(log[1..], since);
      m := n + 1;
      forall i | 0 <= i < |log|
        ensures i < m <==> log[i].key.block <= since
      {
        assert i > 0 ==> log[i] == log[1..][i - 1];
      }
    }
  }

  lemma {:induction false} AllNewer(log: seq<Settlement>, since: int)
    requires forall i | 0 <= i < |log| :: log[i].key.block > since
    ensures Newer(log, since) == log
  {
    if log != [] { AllNewer(log[1..], since); }
  }

  predicate Resumes(log: seq<Settlement>, since: int, m: nat) {
    forall i | 0 <= i < |log| :: i < m <==> log[i].key.block <= since
  }

  /** A page is a stretch of the log: from `m`, where the newer settlements start, up to `e`. */
  predicate Stretch(page: nat, log: seq<Settlement>, since: int, fees: seq<Settlement>, m: nat, e: nat) {
    && m <= e <= |log| && fees == log[m..e] && Newer(log, since) == log[m..]
    && Resumes(log, since, m)
    && e == (if |log| - m <= page then |log| else m + page)
  }

  lemma PageIsStretch(page: nat, log: seq<Settlement>, since: int) returns (m: nat, e: nat)
    requires Ordered(log)
    ensures Stretch(page, log, since, QueryFees(log, since, page), m, e)
  {
    m := NewerIsSuffix(log, since);
    e := if |log| - m <= page then |log| else m + page;
    assert log[m..][..e - m] == log[m..e];
  }

  lemma {:induction false} InsertAllKeys(ledger: Ledger, fees: seq<Settlement>)
    ensures forall k :: k in InsertAll(ledger, fees) <==> k in ledger || exists f <- fees :: f.key == k
    ensures forall k | k in ledger :: InsertAll(ledger, fees)[k] == ledger[k]
    ensures forall k | k in InsertAll(ledger, fees) && k !in ledger :: InsertAll(ledger, fees)[k] in fees && InsertAll(ledger, fees)[k].key == k
  {
    if fees != [] {
      InsertAllKeys(ledger, fees[..|fees| - 1]);
      assert fees == fees[..|fees| - 1] + [fees[|fees| - 1]];
    }
  }

  // ---------------------------------------------------------------------------
  // One pass.

  /** A full page ends inside a block, and the settlement after it is not stored yet. */
  predicate Cuts(page: nat, ledger: Ledger, pass: Pass) {
    var newer := Newer(pass.log, Since(ledger, pass));
    && pass.answers && pass.commits && |newer| > page > 0
    && newer[page].key.block == newer[page - 1].key.block && newer[page].key !in ledger
  }

  lemma IngestedFaithful(page: nat, ledger: Ledger, pass: Pass)
    requires Ordered(pass.log) && Faithful(ledger, pass.log)
    ensures Faithful(Ingested(page, ledger, pass), pass.log)
  {
    var fees, after := Fetched(page, ledger, pass), Ingested(page, ledger, pass);
    InsertAllKeys(ledger, fees);
    if pass.answers { var m, e := PageIsStretch(page, pass.log, Since(ledger, pass)); }
    forall k | k in after
      ensures exists i :: 0 <= i < |pass.log| && pass.log[i].key == k && after[k] == pass.log[i]
    {
      if k in ledger {
        assert after[k] == ledger[k];
      } else {
        assert after[k] in fees;
      }
    }
  }

  /** A pass reads on from the highest block stored, or from the beginning when that cannot be read: what it fetches is the
      first page of the settlements in later blocks. */
  lemma PassReadsOn(page: nat, ledger: Ledger, pass: Pass) returns (m: nat, e: nat)
    requires Ordered(pass.log) && pass.answers
    ensures m <= e <= |pass.log| && Fetched(page, ledger, pass) == pass.log[m..e]
    ensures forall i | 0 <= i < |pass.log| ::
              i < m <==> pass.readable && exists k :: k in ledger && pass.log[i].key.block <= k.block
    ensures e == if |pass.log| - m <= page then |pass.log| else m + page
  {
    m, e := PageIsStretch(page, pass.log, Since(ledger, pass));
    MaxBlockAttained(ledger);
    forall i | 0 <= i < |pass.log|
      ensures i < m <==> pass.readable && exists k :: k in ledger && pass.log[i].key.block <= k.block
    {
      if k :| k in ledger && pass.log[i].key.block <= k.block { MaxBlockCovers(ledger, k); }
    }
  }

  /** A pass never changes a row that is stored. */
  lemma TakenKeysStay(page: nat, ledger: Ledger, pass: Pass, k: Key)
    requires k in ledger
    ensures k in Ingested(page, ledger, pass) && Ingested(page, ledger, pass)[k] == ledger[k]
  {
    InsertAllKeys(ledger, Fetched(page, ledger, pass));
  }

  lemma MaxBlockCovers(ledger: Ledger, k: Key)
    requires k in ledger
    ensures k.block <= MaxBlock(ledger)
  {
    assert k.block in Blocks(ledger);
  }

  lemma MaxBlockAttained(ledger: Ledger)
    ensures if Blocks(ledger) == {} then ledger == map[] && MaxBlock(ledger) == 0
            else exists k :: k in ledger && k.block == MaxBlock(ledger)
  {
    if ledger != map[] {
      var k :| k in ledger;
      assert k.block in Blocks(ledger);
    }
  }

  /** `after` holds what `ledger` does and a stretch of the log. */
  predicate Added(log: seq<Settlement>, ledger: Ledger, after: Ledger, m: nat, e: nat) {
    m <= e <= |log|
    && forall i | 0 <= i < |log| :: log[i].key in after <==> log[i].key in ledger || m <= i < e
  }

  /** Which settlements a pass leaves stored: those that were, and a stretch of the log. */
  lemma IngestedKeys(page: nat, ledger: Ledger, pass: Pass) returns (m: nat, e: nat)
    requires Ordered(pass.log)
    ensures Added(pass.log, ledger, Ingested(page, ledger, pass), m, e)
    ensures m < e ==> pass.answers && pass.commits
                      && Stretch(page, pass.log, Since(ledger, pass), Fetched(page, ledger, pass), m, e)
    ensures pass.answers && pass.commits && Fetched(page, ledger, pass) != [] ==> m < e
    ensures m == e ==> Ingested(page, ledger, pass) == ledger
  {
    var log, fees := pass.log, Fetched(page, ledger, pass);
    InsertAllKeys(ledger, fees);
    if pass.answers && pass.commits {
      m, e := PageIsStretch(page, log, Since(ledger, pass));
      forall i | 0 <= i < |log|
        ensures (exists f <- fees :: f.key == log[i].key) <==> m <= i < e
      {
        StretchHas(log, m, e, i);
      }
    } else {
      m, e := 0, 0;
    }
  }

  lemma StretchHas(log: seq<Settlement>, m: nat, e: nat, i: nat)
    requires Ordered(log) && m <= e <= |log| && i < |log|
    ensures (exists f <- log[m..e] :: f.key == log[i].key) <==> m <= i < e
    ensures log[i] in log[m..e] <==> m <= i < e
  {
  }

  lemma MaxBlockIn(ledger: Ledger, log: seq<Settlement>) returns (i: nat)
    requires Faithful(ledger, log) && ledger != map[]
    ensures i < |log| && log[i].key in ledger && log[i].key.block == MaxBlock(ledger)
  {
    MaxBlockAttained(ledger);
    var k :| k in ledger && k.block == MaxBlock(ledger);
    i :| 0 <= i < |log| && log[i].key == k;
  }

  lemma MaxBlockNoLess(log: seq<Settlement>, ledger: Ledger, after: Ledger, m: nat, e: nat)
    requires Ordered(log) && Faithful(ledger, log) && Added(log, ledger, after, m, e) && m < e
    ensures MaxBlock(after) >= Max(MaxBlock(ledger), log[e - 1].key.block)
  {
    MaxBlockCovers(after, log[e - 1].key);
    if ledger != map[] {
      var i := MaxBlockIn(ledger, log);
      MaxBlockCovers(after, log[i].key);
    }
  }

  lemma MaxBlockNoMore(log: seq<Settlement>, ledger: Ledger, after: Ledger, m: nat, e: nat)
    requires Ordered(log) && Faithful(after, log) && Added(log, ledger, after, m, e) && m < e
    ensures MaxBlock(after) <= Max(MaxBlock(ledger), log[e - 1].key.block)
  {
    assert log[e - 1].key in after;
    var i := MaxBlockIn(after, log);
    if log[i].key in ledger {
      MaxBlockCovers(ledger, log[i].key);
    } else {
      assert i < e - 1 ==> Before(log[i].key, log[e - 1].key);
    }
  }

  /** After a pass the resume point is the greater of what it was and the last block of the page. */
  lemma MaxBlockAfter(log: seq<Settlement>, ledger: Ledger, after: Ledger, m: nat, e: nat)
    requires Ordered(log) && Faithful(ledger, log) && Faithful(after, log) && Added(log, ledger, after, m, e) && m < e
    ensures MaxBlock(after) == Max(MaxBlock(ledger), log[e - 1].key.block)
  {
    MaxBlockNoLess(log, ledger, after, m, e);
    MaxBlockNoMore(log, ledger, after, m, e);
  }

  lemma NoNegativeSince(ledger: Ledger, pass: Pass)
    requires Ordered(pass.log) && Faithful(ledger, pass.log)
    ensures 0 <= Since(ledger, pass) <= MaxBlock(ledger)
  {
  }

  /** The pass cuts a block at `e`. */
  predicate CutsAt(page: nat, ledger: Ledger, log: seq<Settlement>, m: nat, e: nat) {
    m < e < |log| && e == m + page && log[e].key.block == log[e - 1].key.block && log[e].key !in ledger
  }

  lemma CutIsAt(page: nat, ledger: Ledger, pass: Pass, m: nat, e: nat)
    requires Stretch(page, pass.log, Since(ledger, pass), Fetched(page, ledger, pass), m, e) && m < e
    requires pass.commits && pass.answers
    ensures Cuts(page, ledger, pass) <==> CutsAt(page, ledger, pass.log, m, e)
  {
  }

  lemma NoCutNoGap(page: nat, ledger: Ledger, log: seq<Settlement>, m: nat, e: nat, i: nat)
    requires Ordered(log) && Gapless(ledger, log) && m < e <= |log| && i < |log| && (e < |log| ==> e == m + page)
    requires !CutsAt(page, ledger, log, m, e) && log[i].key.block == log[e - 1].key.block && i >= e
    ensures log[i].key in ledger
  {
    assert i > e ==> Before(log[e].key, log[i].key);
    assert Before(log[e - 1].key, log[e].key);
    assert log[e].key.block == log[i].key.block;
    MaxBlockCovers(ledger, log[e].key);
    assert !Gap(ledger, log, i);
  }

  lemma PassStores(page: nat, ledger: Ledger, log: seq<Settlement>, since: int, m: nat, e: nat, i: nat)
    requires Ordered(log) && Gapless(ledger, log) && m < e <= |log| && i < |log| && (e < |log| ==> e == m + page)
    requires since <= MaxBlock(ledger) && Resumes(log, since, m)
    requires !CutsAt(page, ledger, log, m, e) && log[i].key.block <= Max(MaxBlock(ledger), log[e - 1].key.block)
    ensures log[i].key in ledger || m <= i < e
  {
    if log[i].key.block <= MaxBlock(ledger) {
      assert !Gap(ledger, log, i);
    } else if i >= e {
      assert Before(log[e - 1].key, log[i].key);
      NoCutNoGap(page, ledger, log, m, e, i);
    }
  }

  lemma AddsNoGap(page: nat, ledger: Ledger, after: Ledger, log: seq<Settlement>, since: int, m: nat, e: nat)
    requires Ordered(log) && Faithful(ledger, log) && Faithful(after, log) && Added(log, ledger, after, m, e) && m < e
    requires Gapless(ledger, log) && since <= MaxBlock(ledger) && Resumes(log, since, m)
    requires (e < |log| ==> e == m + page) && !CutsAt(page, ledger, log, m, e)
    ensures Gapless(after, log)
  {
    MaxBlockAfter(log, ledger, after, m, e);
    forall i | 0 <= i < |log| && log[i].key.block <= MaxBlock(after)
      ensures log[i].key in after
    {
      PassStores(page, ledger, log, since, m, e, i);
    }
  }

  lemma CutAddsGap(page: nat, ledger: Ledger, after: Ledger, log: seq<Settlement>, m: nat, e: nat)
    requires Ordered(log) && Faithful(ledger, log) && Added(log, ledger, after, m, e) && CutsAt(page, ledger, log, m, e)
    ensures e >= page && Gap(after, log, e)
  {
    MaxBlockNoLess(log, ledger, after, m, e);
  }

  lemma AddedGapStays(page: nat, ledger: Ledger, after: Ledger, log: seq<Settlement>, since: int, m: nat, e: nat, i: nat)
    requires Ordered(log) && Faithful(ledger, log) && Added(log, ledger, after, m, e) && m < e
    requires Gap(ledger, log, i) && i >= page && Resumes(log, since, m) && e <= m + page
    requires since == 0 || since == MaxBlock(ledger)
    ensures Gap(after, log, i)
  {
    MaxBlockNoLess(log, ledger, after, m, e);
    assert log[0].key.block > 0;
  }

  /** Everything the run needs to know about a pass. */
  lemma PassAdds(page: nat, ledger: Ledger, pass: Pass) returns (m: nat, e: nat)
    requires Ordered(pass.log) && Faithful(ledger, pass.log)
    ensures Added(pass.log, ledger, Ingested(page, ledger, pass), m, e) && Faithful(Ingested(page, ledger, pass), pass.log)
    ensures Resumes(pass.log, Since(ledger, pass), m) || m == e
    ensures (e < |pass.log| ==> e == m + page) || m == e
    ensures e <= m + page
    ensures Cuts(page, ledger, pass) <==> m < e && CutsAt(page, ledger, pass.log, m, e)
    ensures m == e ==> Ingested(page, ledger, pass) == ledger
  {
    IngestedFaithful(page, ledger, pass);
    m, e := IngestedKeys(page, ledger, pass);
    if m < e {
      CutIsAt(page, ledger, pass, m, e);
    } else {
      NothingFetchedNoCut(page, ledger, pass);
    }
  }

  lemma NothingFetchedNoCut(page: nat, ledger: Ledger, pass: Pass)
    requires !(pass.answers && pass.commits && Fetched(page, ledger, pass) != [])
    ensures !Cuts(page, ledger, pass)
  {
  }

  /** A pass that does not cut a block opens no gap. */
  lemma PassOpensNoGap(page: nat, ledger: Ledger, pass: Pass)
    requires Ordered(pass.log) && Faithful(ledger, pass.log) && Gapless(ledger, pass.log) && !Cuts(page, ledger, pass)
    ensures Gapless(Ingested(page, ledger, pass), pass.log)
  {
    var m, e := PassAdds(page, ledger, pass);
    NoNegativeSince(ledger, pass);
    if m < e { AddsNoGap(page, ledger, Ingested(page, ledger, pass), pass.log, Since(ledger, pass), m, e); }
  }

  /** A pass that does leaves one beyond the first page. */
  lemma CutOpensGap(page: nat, ledger: Ledger, pass: Pass) returns (i: nat)
    requires Ordered(pass.log) && Faithful(ledger, pass.log) && Cuts(page, ledger, pass)
    ensures i >= page && Gap(Ingested(page, ledger, pass), pass.log, i)
  {
    var m, e := PassAdds(page, ledger, pass);
    CutAddsGap(page, ledger, Ingested(page, ledger, pass), pass.log, m, e);
    i := e;
  }

  /** A gap beyond the first page is never filled, not even when the resume point cannot be read. */
  lemma GapStays(page: nat, ledger: Ledger, pass: Pass, i: nat)
    requires Ordered(pass.log) && Faithful(ledger, pass.log) && Gap(ledger, pass.log, i) && i >= page
    ensures Gap(Ingested(page, ledger, pass), pass.log, i)
  {
    var m, e := PassAdds(page, ledger, pass);
    if m < e { AddedGapStays(page, ledger, Ingested(page, ledger, pass), pass.log, Since(ledger, pass), m, e, i); }
  }

  // ---------------------------------------------------------------------------
  // Runs.

  function Latest(passes: seq<Pass>): seq<Settlement> {
    if passes == [] then [] else passes[|passes| - 1].log
  }

  /** Every pass sees an ordered log, and the log only grows. */
  predicate Proper(passes: seq<Pass>) {
    && (forall i | 0 <= i < |passes| :: Ordered(passes[i].log))
    && (forall i, j | 0 <= i < j < |passes| :: Grows(passes[i].log, passes[j].log))
  }

  lemma ProperBefore(passes: seq<Pass>)
    requires Proper(passes) && passes != []
    ensures Proper(passes[..|passes| - 1]) && Ordered(Latest(passes))
    ensures Grows(Latest(passes[..|passes| - 1]), Latest(passes))
  {
  }

  lemma FaithfulLater(ledger: Ledger, log: seq<Settlement>, later: seq<Settlement>)
    requires Faithful(ledger, log) && Grows(log, later)
    ensures Faithful(ledger, later)
  {
  }

  /** Nothing is ever stored that is not in the log, and under every key at most one row. */
  lemma {:induction false} RunIsFaithful(page: nat, passes: seq<Pass>)
    requires Proper(passes)
    ensures Faithful(Run(page, map[], passes), Latest(passes))
  {
    if passes != [] {
      var n := |passes| - 1;
      ProperBefore(passes);
      RunIsFaithful(page, passes[..n]);
      FaithfulLater(Run(page, map[], passes[..n]), Latest(passes[..n]), passes[n].log);
      IngestedFaithful(page, Run(page, map[], passes[..n]), passes[n]);
    }
  }

  predicate CutAt(page: nat, passes: seq<Pass>, i: nat)
    requires i < |passes|
  {
    Cuts(page, Run(page, map[], passes[..i]), passes[i])
  }

  predicate NeverCuts(page: nat, passes: seq<Pass>) {
    forall i | 0 <= i < |passes| :: !CutAt(page, passes, i)
  }

  lemma NeverCutsBefore(page: nat, passes: seq<Pass>)
    requires passes != []
    ensures NeverCuts(page, passes) <==> NeverCuts(page, passes[..|passes| - 1]) && !CutAt(page, passes, |passes| - 1)
  {
    var n := |passes| - 1;
    forall i | 0 <= i < n
      ensures CutAt(page, passes[..n], i) == CutAt(page, passes, i)
    {
      assert passes[..n][..i] == passes[..i];
    }
  }

  /** Growth neither opens nor closes a gap. */
  lemma GapLater(ledger: Ledger, log: seq<Settlement>, later: seq<Settlement>, i: nat)
    requires Faithful(ledger, log) && Ordered(later) && Grows(log, later)
    ensures Gap(ledger, later, i) <==> Gap(ledger, log, i)
  {
  }

  predicate LateGap(page: nat, ledger: Ledger, log: seq<Settlement>) {
    exists i | page <= i < |log| :: Gap(ledger, log, i)
  }

  /** Everything up to the resume point is stored, or something beyond the first page is missing for good. */
  predicate Whole(page: nat, ledger: Ledger, log: seq<Settlement>, whole: bool) {
    if whole then Gapless(ledger, log) else LateGap(page, ledger, log)
  }

  lemma WholeLater(page: nat, ledger: Ledger, log: seq<Settlement>, later: seq<Settlement>, whole: bool)
    requires Faithful(ledger, log) && Ordered(later) && Grows(log, later) && Whole(page, ledger, log, whole)
    ensures Whole(page, ledger, later, whole)
  {
    forall i: nat
      ensures Gap(ledger, later, i) <==> Gap(ledger, log, i)
    {
      GapLater(ledger, log, later, i);
    }
    if !whole {
      var i :| page <= i < |log| && Gap(ledger, log, i);
      assert Gap(ledger, later, i);
    }
  }

  lemma WholeAfter(page: nat, ledger: Ledger, pass: Pass, whole: bool)
    requires Ordered(pass.log) && Faithful(ledger, pass.log) && Whole(page, ledger, pass.log, whole)
    ensures Whole(page, Ingested(page, ledger, pass), pass.log, whole && !Cuts(page, ledger, pass))
  {
    if !whole {
      var i :| page <= i < |pass.log| && Gap(ledger, pass.log, i);
      GapStays(page, ledger, pass, i);
    } else if Cuts(page, ledger, pass) {
      var i := CutOpensGap(page, ledger, pass);
    } else {
      PassOpensNoGap(page, ledger, pass);
    }
  }

  /** Throughout a run everything up to the resume point is stored exactly as long as no pass has cut a block
      (`Cuts`); once one has, something beyond the first page is missing for good. */
  lemma {:induction false} WholeIffNeverCuts(page: nat, passes: seq<Pass>)
    requires Proper(passes)
    ensures Whole(page, Run(page, map[], passes), Latest(passes), NeverCuts(page, passes))
  {
    if passes != [] {
      var n := |passes| - 1;
      var before, ledger := passes[..n], Run(page, map[], passes[..n]);
      ProperBefore(passes);
      WholeIffNeverCuts(page, before);
      NeverCutsBefore(page, passes);
      RunIsFaithful(page, before);
      FaithfulLater(ledger, Latest(before), passes[n].log);
      WholeLater(page, ledger, Latest(before), passes[n].log, NeverCuts(page, before));
      WholeAfter(page, ledger, passes[n], NeverCuts(page, before));
    }
  }

  lemma ShortPassReachesEnd(page: nat, ledger: Ledger, pass: Pass)
    requires Ordered(pass.log) && Faithful(ledger, pass.log) && Gapless(ledger, pass.log)
    requires Written(page, ledger, pass).Some? && Written(page, ledger, pass).value < page
    ensures Complete(Ingested(page, ledger, pass), pass.log)
  {
    var log, since := pass.log, Since(ledger, pass);
    var m, e := PageIsStretch(page, log, since);
    IngestedFaithful(page, ledger, pass);
    InsertAllKeys(ledger, log[m..e]);
    NoNegativeSince(ledger, pass);
    forall i | 0 <= i < |log|
      ensures log[i].key in Ingested(page, ledger, pass)
    {
      if i < m {
        assert !Gap(ledger, log, i);
      } else {
        StretchHas(log, m, e, i);
      }
    }
    FaithfulIsComplete(Ingested(page, ledger, pass), log);
  }

  lemma FaithfulIsComplete(ledger: Ledger, log: seq<Settlement>)
    requires Ordered(log) && Faithful(ledger, log) && forall i | 0 <= i < |log| :: log[i].key in ledger
    ensures Complete(ledger, log)
  {
  }

  /** Once a short page has been seen the stored rows are the whole log, exactly when no full page on the way
      ended inside a block whose next settlement was not yet stored. Failures and restarts make no difference. */
  lemma CompleteIffNeverCuts(page: nat, passes: seq<Pass>)
    requires Proper(passes) && passes != []
    requires var n := |passes| - 1;
      var written := Written(page, Run(page, map[], passes[..n]), passes[n]);
      written.Some? && written.value < page
    ensures Faithful(Run(page, map[], passes), Latest(passes))
    ensures Complete(Run(page, map[], passes), Latest(passes)) <==> NeverCuts(page, passes)
  {
    var n := |passes| - 1;
    var before, ledger := passes[..n], Run(page, map[], passes[..n]);
    RunIsFaithful(page, passes);
    WholeIffNeverCuts(page, passes);
    if NeverCuts(page, passes) {
      ProperBefore(passes);
      NeverCutsBefore(page, passes);
      RunIsFaithful(page, before);
      WholeIffNeverCuts(page, before);
      FaithfulLater(ledger, Latest(before), passes[n].log);
      WholeLater(page, ledger, Latest(before), passes[n].log, true);
      ShortPassReachesEnd(page, ledger, passes[n]);
    }
  }

  /** One block with more settlements than a page. */
  function Crowded(n: nat): seq<Settlement> {
    seq(n, i => Settlement(Key(1, i), "indexer", "deployment", "1"))
  }

  lemma CrowdedFirst(page: nat) returns (first: Ledger)
    requires page > 0
    ensures first == Ingested(page, map[], Pass(Crowded(page + 1), true, true, true))
    ensures MaxBlock(first) == 1 && Key(1, page) !in first
  {
    var log := Crowded(page + 1);
    var pass := Pass(log, true, true, true);
    first := Ingested(page, map[], pass);
    AllNewer(log, 0);
    assert Fetched(page, map[], pass) == log[..page];
    InsertAllKeys(map[], log[..page]);
    assert log[..page][0].key in first;
    MaxBlockAttained(first);
    MaxBlockCovers(first, log[..page][0].key);
  }

  /** Where the log's promise fails: a block one settlement larger than a page is never stored whole. */
  lemma CrowdedBlockIsNeverComplete(page: nat)
    requires page > 0
    ensures var pass := Pass(Crowded(page + 1), true, true, true);
      Written(page, Run(page, map[], [pass]), pass) == Some(0) && !Complete(Run(page, map[], [pass, pass]), pass.log)
  {
    var log := Crowded(page + 1);
    var pass := Pass(log, true, true, true);
    var first := CrowdedFirst(page);
    assert [pass][..0] == [] && [pass, pass][..1] == [pass];
    assert Run(page, map[], []) == map[];
    assert Run(page, map[], [pass]) == first;
    NoneNewer(log, 1);
    assert Fetched(page, first, pass) == [];
    assert Run(page, map[], [pass, pass]) == first;
    assert log[page].key == Key(1, page);
  }

  lemma {:induction false} NoneNewer(log: seq<Settlement>, since: int)
    requires forall i | 0 <= i < |log| :: log[i].key.block <= since
    ensures Newer(log, since) == []
  {
    if log != [] { NoneNewer(log[1..], since); }
  }
}
