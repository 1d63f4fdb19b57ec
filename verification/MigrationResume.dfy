/** Exactly where resuming with the pre-check on goes wrong, and runs that show it. */
module MigrationResume {
  import opened Collections
  import opened Diamond
  import opened MigrationContract
  import opened MigrationRun
  import opened MigrationSafety

  // ---- Resuming with the pre-check on ----

  /** `q` is neither migrated nor in any transaction that can still be mined or sent. */
  ghost predicate NeverSent(w: World, q: nat) {
    && q !in w.chain.quoteMigrated
    && (forall k :: 0 <= k < |w.mempool| && w.mempool[k].QuoteTx? ==> q !in w.mempool[k].ids)
    && (w.process.Some? && w.process.value.pc.AtQuoteChunk? ==>
          var pc := w.process.value.pc;
          0 <= pc.i && (pc.i <= |pc.quoteChunks| ==> q !in Flatten(pc.quoteChunks[pc.i..])))
  }

  lemma MineLeavesOut(c: Chain, tx: Tx, q: nat)
    requires q !in c.quoteMigrated && (tx.QuoteTx? ==> q !in tx.ids)
    ensures q !in Mine(c, tx).quoteMigrated
  {
    match tx
    case QuoteTx(ids) =>
      if MigrateQuotes(c, ids).Some? {
        MigrateQuotesSettles(c, ids);
      }
    case PairTx(partyB, partyAs) => MigratePairsSettles(c, partyB, partyAs);
  }

  lemma StepNeverSends(cfg: Config, w: World, e: Event, q: nat)
    requires cfg.chunkSize > 0 && NeverSent(w, q) && e != Start
    ensures NeverSent(Step(cfg, w, e), q)
  {
    if e.Land? && e.k < |w.mempool| {
      MineLeavesOut(w.chain, w.mempool[e.k], q);
    } else if e.Attempt? && w.process.Some? {
      var pc := w.process.value.pc;
      var tx := CurrentTx(cfg, pc);
      if tx.Some? {
        if pc.AtQuoteChunk? {
          assert pc.quoteChunks[pc.i..][1..] == pc.quoteChunks[pc.i + 1..];
        }
        MineLeavesOut(w.chain, tx.value, q);
      }
    }
  }

  lemma {:induction false} RunNeverSends(cfg: Config, w: World, events: seq<Event>, q: nat)
    requires cfg.chunkSize > 0 && NeverSent(w, q)
    requires forall i :: 0 <= i < |events| ==> events[i] != Start
    ensures NeverSent(Run(cfg, w, events), q)
    decreases |events|
  {
    if |events| > 0 {
      RunNeverSends(cfg, w, events[..|events| - 1], q);
      StepNeverSends(cfg, Run(cfg, w, events[..|events| - 1]), events[|events| - 1], q);
    }
  }

  lemma {:induction false} PendingDistinct(c: Chain, ids: seq<nat>)
    requires Distinct(ids)
    ensures Distinct(PendingQuotes(c, ids))
    ensures forall id :: id in PendingQuotes(c, ids) ==> id !in c.quoteMigrated
  {
    if |ids| > 0 {
      PendingDistinct(c, ids[1..]);
      PendingQuotesMembers(c, ids[1..]);
      assert ids[0] !in ids[1..];
    }
  }

  lemma FirstInFirstChunk(s: seq<nat>, size: nat, i: nat)
    requires size > 0 && |s| > 0 && Distinct(s) && 1 <= i <= |Chunks(s, size)|
    ensures s[0] !in Flatten(Chunks(s, size)[i..])
  {
    var chunks := Chunks(s, size);
    FlattenChunks(s, size);
    FlattenPrefix(chunks, i);
    var first := Flatten(chunks[..i]);
    assert |first| > 0 by {
      assert chunks[..i][0] == chunks[0];
    }
    assert forall k :: 0 <= k < |Flatten(chunks[i..])| ==> Flatten(chunks[i..])[k] == s[|first| + k];
  }

  /** Where a resumed quotes phase stands after the start. */
  lemma QuotesAfterStart(cfg: Config, w: World, p: Progress)
    requires cfg.chunkSize > 0 && !cfg.skipPreCheck
    requires w.process.None? && w.file == Some(p) && p.phase == QuotesPhase
    ensures var chunks := Chunks(PendingQuotes(w.chain, cfg.quoteIds), cfg.chunkSize);
            Step(cfg, w, Start) == w.(process := Some(Process(p, AtQuoteChunk(chunks, p.lastQuoteChunk + 1))))
  {
  }

  lemma FirstIsNeverSent(cfg: Config, w: World, p: Progress)
    requires cfg.chunkSize > 0 && !cfg.skipPreCheck && Distinct(cfg.quoteIds)
    requires w.process.None? && w.file == Some(p) && p.phase == QuotesPhase && p.lastQuoteChunk >= 0
    requires PendingQuotes(w.chain, cfg.quoteIds) != []
    requires forall k :: 0 <= k < |w.mempool| && w.mempool[k].QuoteTx? ==>
               PendingQuotes(w.chain, cfg.quoteIds)[0] !in w.mempool[k].ids
    ensures NeverSent(Step(cfg, w, Start), PendingQuotes(w.chain, cfg.quoteIds)[0])
  {
    var pending, i := PendingQuotes(w.chain, cfg.quoteIds), p.lastQuoteChunk + 1;
    QuotesAfterStart(cfg, w, p);
    PendingDistinct(w.chain, cfg.quoteIds);
    assert pending[0] in pending;
    if i <= |Chunks(pending, cfg.chunkSize)| {
      FirstInFirstChunk(pending, cfg.chunkSize, i);
    }
  }

  /**
   With the pre-check on, a process that resumes from a non-negative chunk index never migrates the
   first pending quote: the index counts chunks of a list that has since been filtered.
   */
  lemma UnsafeResumeSkipsQuote(cfg: Config, w: World, p: Progress, events: seq<Event>)
    requires cfg.chunkSize > 0 && !cfg.skipPreCheck && Distinct(cfg.quoteIds)
    requires w.process.None? && w.file == Some(p) && p.phase == QuotesPhase && p.lastQuoteChunk >= 0
    requires PendingQuotes(w.chain, cfg.quoteIds) != []
    requires forall k :: 0 <= k < |w.mempool| && w.mempool[k].QuoteTx? ==>
               PendingQuotes(w.chain, cfg.quoteIds)[0] !in w.mempool[k].ids
    requires forall i :: 0 <= i < |events| ==> events[i] != Start
    ensures PendingQuotes(w.chain, cfg.quoteIds)[0] !in Run(cfg, Step(cfg, w, Start), events).chain.quoteMigrated
  {
    FirstIsNeverSent(cfg, w, p);
    RunNeverSends(cfg, Step(cfg, w, Start), events, PendingQuotes(w.chain, cfg.quoteIds)[0]);
  }

  /** Starting at chunk `i` reaches every element exactly when it starts at the first or there is none. */
  lemma AheadIff(s: seq<nat>, size: nat, i: nat)
    requires size > 0 && Distinct(s)
    ensures (forall x | x in s :: x in Ahead(Chunks(s, size), i)) <==> i == 0 || s == []
  {
    var chunks := Chunks(s, size);
    FlattenChunks(s, size);
    if i == 0 {
      assert chunks[0..] == chunks;
    } else if s != [] {
      assert s[0] in s;
      if i <= |chunks| {
        FirstInFirstChunk(s, size, i);
      }
    }
  }

  /** `id` is in a chunk that the process has not come to yet. */
  predicate QuoteAhead(w: World, id: nat) {
    w.process.Some? && w.process.value.pc.AtQuoteChunk?
    && id in Ahead(w.process.value.pc.quoteChunks, w.process.value.pc.i)
  }

  /**
   Resuming the quotes phase with the pre-check keeps every pending quote ahead of the process exactly when
   the start is safe: no chunk index was saved, or nothing is pending. A safe start then leaves every listed
   quote settled or ahead.
   */
  lemma QuotesAheadIff(cfg: Config, w: World, p: Progress)
    requires cfg.chunkSize > 0 && !cfg.skipPreCheck && Distinct(cfg.quoteIds)
    requires w.process.None? && w.file == Some(p) && p.phase == QuotesPhase && p.lastQuoteChunk >= -1
    ensures var v := Step(cfg, w, Start);
            && ((forall id | id in PendingQuotes(w.chain, cfg.quoteIds) :: QuoteAhead(v, id))
                <==> SafeStart(cfg, w.chain, w.file))
            && (SafeStart(cfg, w.chain, w.file) ==>
                  forall id | id in cfg.quoteIds :: QuoteDone(w.chain, id) || QuoteAhead(v, id))
  {
    var pending, i := PendingQuotes(w.chain, cfg.quoteIds), p.lastQuoteChunk + 1;
    QuotesAfterStart(cfg, w, p);
    PendingDistinct(w.chain, cfg.quoteIds);
    AheadIff(pending, cfg.chunkSize, i);
    assert SafeStart(cfg, w.chain, w.file) <==> i == 0 || pending == [];
    assert forall id :: QuoteAhead(Step(cfg, w, Start), id) <==> id in Ahead(Chunks(pending, cfg.chunkSize), i);
    PendingQuotesMembers(w.chain, cfg.quoteIds);
  }

  // ---- The same for counterparties ----

  /** `a` is the first address of the list whose pair is not migrated. */
  ghost predicate FirstUnmigrated(c: Chain, partyB: Address, list: seq<Address>, a: Address) {
    exists i :: 0 <= i < |list| && list[i] == a && UnmigratedFrom(c, partyB, list, i)
  }

  ghost predicate UnmigratedFrom(c: Chain, partyB: Address, list: seq<Address>, i: int)
    requires 0 <= i < |list|
  {
    Pair(partyB, list[i]) !in c.pairMigrated && forall k :: 0 <= k < i ==> Pair(partyB, list[k]) in c.pairMigrated
  }

  lemma {:induction false} FirstIsPending(c: Chain, partyB: Address, list: seq<Address>, i: nat)
    requires i < |list| && UnmigratedFrom(c, partyB, list, i)
    ensures PendingPairs(c, partyB, list) != [] && PendingPairs(c, partyB, list)[0] == list[i]
    decreases i
  {
    if i > 0 {
      assert Pair(partyB, list[0]) in c.pairMigrated;
      FirstIsPending(c, partyB, list[1..], i - 1);
    }
  }

  lemma {:induction false} PendingIsFirst(c: Chain, partyB: Address, list: seq<Address>)
    requires PendingPairs(c, partyB, list) != []
    ensures FirstUnmigrated(c, partyB, list, PendingPairs(c, partyB, list)[0])
  {
    if Pair(partyB, list[0]) !in c.pairMigrated {
      assert UnmigratedFrom(c, partyB, list, 0);
    } else {
      PendingIsFirst(c, partyB, list[1..]);
      var a := PendingPairs(c, partyB, list)[0];
      var i :| 0 <= i < |list[1..]| && list[1..][i] == a && UnmigratedFrom(c, partyB, list[1..], i);
      assert forall k :: 1 <= k < i + 1 ==> list[k] == list[1..][k - 1];
      assert list[i + 1] == a && UnmigratedFrom(c, partyB, list, i + 1);
    }
  }

  lemma {:induction false} PendingPairsDistinct(c: Chain, partyB: Address, list: seq<Address>)
    requires Distinct(list)
    ensures Distinct(PendingPairs(c, partyB, list))
  {
    if |list| > 0 {
      PendingPairsDistinct(c, partyB, list[1..]);
      PendingPairsMembers(c, partyB, list[1..]);
      assert list[0] !in list[1..];
    }
  }

  /** A process that resumed in task `b0` and will not send its first pending counterparty `a`. */
  ghost predicate PcSkips(cfg: Config, c: Chain, p: Process, b0: nat, a: Address)
    requires b0 < |cfg.tasks|
  {
    match p.pc
    case AtQuoteChunk(_, _) => false
    case AtPartyB(b, startB) =>
      startB == b0 && b >= b0
      && (b == b0 ==> p.progress.lastPartyAChunk >= 0
                      && FirstUnmigrated(c, cfg.tasks[b0].partyB, Dedup(cfg.tasks[b0].partyAs), a))
    case AtPartyAChunk(b, startB, chunks, j) =>
      startB == b0 && b >= b0 && (b == b0 ==> 0 <= j && (j <= |chunks| ==> a !in Flatten(chunks[j..])))
    case Succeeded => true
  }

  ghost predicate PairNeverSent(cfg: Config, w: World, b0: nat, a: Address)
    requires b0 < |cfg.tasks|
  {
    && Pair(cfg.tasks[b0].partyB, a) !in w.chain.pairMigrated
    && (forall k :: 0 <= k < |w.mempool| ==> LeavesOut(w.mempool[k], cfg.tasks[b0].partyB, a))
    && (w.process.Some? ==> PcSkips(cfg, w.chain, w.process.value, b0, a))
  }

  predicate LeavesOut(tx: Tx, partyB: Address, a: Address) {
    tx.PairTx? && tx.partyB == partyB ==> a !in tx.partyAs
  }

  lemma MineLeavesPairOut(c: Chain, tx: Tx, partyB: Address, list: seq<Address>, a: Address)
    requires Pair(partyB, a) !in c.pairMigrated && LeavesOut(tx, partyB, a)
    ensures Pair(partyB, a) !in Mine(c, tx).pairMigrated
    ensures FirstUnmigrated(c, partyB, list, a) ==> FirstUnmigrated(Mine(c, tx), partyB, list, a)
  {
    MineEvolves(c, tx);
    match tx
    case QuoteTx(ids) =>
      if MigrateQuotes(c, ids).Some? {
        MigrateQuotesSettles(c, ids);
      }
    case PairTx(b, partyAs) => MigratePairsSettles(c, b, partyAs);
    if FirstUnmigrated(c, partyB, list, a) {
      var i :| 0 <= i < |list| && list[i] == a && UnmigratedFrom(c, partyB, list, i);
      assert UnmigratedFrom(Mine(c, tx), partyB, list, i);
    }
  }

  lemma AdvanceSkips(cfg: Config, w: World, p: Process, saved: bool, b0: nat, a: Address)
    requires cfg.chunkSize > 0 && !cfg.skipPreCheck && b0 < |cfg.tasks|
    requires PairNeverSent(cfg, w, b0, a) && w.process == Some(p)
    ensures PairNeverSent(cfg, RunningStep(cfg, w, p, Advance(saved)), b0, a)
  {
    if p.pc.AtPartyB? && p.pc.b == b0 {
      FirstChunkSkipped(cfg, w.chain, b0, a, p.progress.lastPartyAChunk + 1);
    }
  }

  /** The first counterparty that is not migrated is pending, and not from the second chunk on. */
  lemma FirstChunkSkipped(cfg: Config, c: Chain, b0: nat, a: Address, j: nat)
    requires cfg.chunkSize > 0 && b0 < |cfg.tasks| && j > 0
    requires FirstUnmigrated(c, cfg.tasks[b0].partyB, Dedup(cfg.tasks[b0].partyAs), a)
    ensures PendingOfTask(cfg, c, b0) != []
    ensures j <= |Chunks(PendingOfTask(cfg, c, b0), cfg.chunkSize)| ==>
              a !in Flatten(Chunks(PendingOfTask(cfg, c, b0), cfg.chunkSize)[j..])
  {
    var partyB, list := cfg.tasks[b0].partyB, Dedup(cfg.tasks[b0].partyAs);
    var i :| 0 <= i < |list| && list[i] == a && UnmigratedFrom(c, partyB, list, i);
    FirstIsPending(c, partyB, list, i);
    DedupMembers(cfg.tasks[b0].partyAs);
    PendingPairsDistinct(c, partyB, list);
    if j <= |Chunks(PendingPairs(c, partyB, list), cfg.chunkSize)| {
      FirstInFirstChunk(PendingPairs(c, partyB, list), cfg.chunkSize, j);
    }
  }

  lemma AttemptSkips(cfg: Config, w: World, p: Process, outcome: TxOutcome, saved: bool, b0: nat, a: Address)
    requires cfg.chunkSize > 0 && b0 < |cfg.tasks| && OneTaskPerPartyB(cfg.tasks)
    requires PairNeverSent(cfg, w, b0, a) && w.process == Some(p)
    ensures PairNeverSent(cfg, RunningStep(cfg, w, p, Attempt(outcome, saved)), b0, a)
  {
    var tx := CurrentTx(cfg, p.pc);
    if tx.Some? {
      var b, chunks, j := p.pc.b, p.pc.partyAChunks, p.pc.j;
      if b == b0 {
        assert chunks[j..][1..] == chunks[j + 1..];
      }
      assert LeavesOut(tx.value, cfg.tasks[b0].partyB, a);
      MineLeavesPairOut(w.chain, tx.value, cfg.tasks[b0].partyB, Dedup(cfg.tasks[b0].partyAs), a);
    }
  }

  lemma {:induction false} RunNeverSendsPair(cfg: Config, w: World, events: seq<Event>, b0: nat, a: Address)
    requires cfg.chunkSize > 0 && !cfg.skipPreCheck && b0 < |cfg.tasks| && OneTaskPerPartyB(cfg.tasks)
    requires PairNeverSent(cfg, w, b0, a) && forall i :: 0 <= i < |events| ==> events[i] != Start
    ensures PairNeverSent(cfg, Run(cfg, w, events), b0, a)
    decreases |events|
  {
    if |events| > 0 {
      RunNeverSendsPair(cfg, w, events[..|events| - 1], b0, a);
      var v := Run(cfg, w, events[..|events| - 1]);
      match events[|events| - 1]
      case Land(k) =>
        if k < |v.mempool| {
          MineLeavesPairOut(v.chain, v.mempool[k], cfg.tasks[b0].partyB, Dedup(cfg.tasks[b0].partyAs), a);
        }
      case Advance(saved) =>
        if v.process.Some? {
          AdvanceSkips(cfg, v, v.process.value, saved, b0, a);
        }
      case Attempt(outcome, saved) =>
        if v.process.Some? {
          AttemptSkips(cfg, v, v.process.value, outcome, saved, b0, a);
        }
      case _ =>
    }
  }

  /**
   With the pre-check on, a process that resumes within a hedger's task from a non-negative chunk index
   never migrates that hedger's first pending counterparty.
   */
  lemma UnsafeResumeSkipsPair(cfg: Config, w: World, p: Progress, events: seq<Event>, b0: nat)
    requires cfg.chunkSize > 0 && !cfg.skipPreCheck && OneTaskPerPartyB(cfg.tasks)
    requires w.process.None? && w.file == Some(p) && p.phase == BalancesPhase && p.lastPartyAChunk >= 0
    requires p.lastPartyB + 1 == b0 < |cfg.tasks|
    requires PendingPairs(w.chain, cfg.tasks[b0].partyB, Dedup(cfg.tasks[b0].partyAs)) != []
    requires var a := PendingPairs(w.chain, cfg.tasks[b0].partyB, Dedup(cfg.tasks[b0].partyAs))[0];
             forall k :: 0 <= k < |w.mempool| ==> LeavesOut(w.mempool[k], cfg.tasks[b0].partyB, a)
    requires forall i :: 0 <= i < |events| ==> events[i] != Start
    ensures var a := PendingPairs(w.chain, cfg.tasks[b0].partyB, Dedup(cfg.tasks[b0].partyAs))[0];
            Pair(cfg.tasks[b0].partyB, a) !in Run(cfg, Step(cfg, w, Start), events).chain.pairMigrated
  {
    var partyB, list := cfg.tasks[b0].partyB, Dedup(cfg.tasks[b0].partyAs);
    PendingIsFirst(w.chain, partyB, list);
    RunNeverSendsPair(cfg, Step(cfg, w, Start), events, b0, PendingPairs(w.chain, partyB, list)[0]);
  }

  /** `a` is in a chunk of the current hedger that the process has not come to yet. */
  predicate PairAhead(w: World, a: Address) {
    w.process.Some? && w.process.value.pc.AtPartyAChunk?
    && a in Ahead(w.process.value.pc.partyAChunks, w.process.value.pc.j)
  }

  /**
   Resuming a hedger's task with the pre-check keeps every counterparty that is not migrated ahead of the
   process exactly when the start is safe.
   */
  lemma PairsAheadIff(cfg: Config, w: World, p: Progress, saved: bool, b0: nat)
    requires cfg.chunkSize > 0 && !cfg.skipPreCheck
    requires w.process.None? && w.file == Some(p) && p.phase == BalancesPhase && p.lastPartyAChunk >= -1
    requires p.lastPartyB + 1 == b0 < |cfg.tasks|
    ensures var v := Step(cfg, Step(cfg, w, Start), Advance(saved));
            (forall a | a in Dedup(cfg.tasks[b0].partyAs) ::
               Pair(cfg.tasks[b0].partyB, a) in v.chain.pairMigrated || PairAhead(v, a))
            <==> SafeStart(cfg, w.chain, w.file)
  {
    var partyB, list := cfg.tasks[b0].partyB, Dedup(cfg.tasks[b0].partyAs);
    var pending := PendingPairs(w.chain, partyB, list);
    DedupMembers(cfg.tasks[b0].partyAs);
    PendingPairsMembers(w.chain, partyB, list);
    PendingPairsDistinct(w.chain, partyB, list);
    AheadIff(pending, cfg.chunkSize, p.lastPartyAChunk + 1);
    TaskAfterStart(cfg, w, p, saved, b0);
  }

  lemma TaskAfterStart(cfg: Config, w: World, p: Progress, saved: bool, b0: nat)
    requires cfg.chunkSize > 0 && !cfg.skipPreCheck
    requires w.process.None? && w.file == Some(p) && p.phase == BalancesPhase && p.lastPartyB + 1 == b0 < |cfg.tasks|
    ensures var v := Step(cfg, Step(cfg, w, Start), Advance(saved));
            && v.chain == w.chain && v.process.Some?
            && v.process.value.pc ==
               if PendingOfTask(cfg, w.chain, b0) == [] then AtPartyB(b0 + 1, b0)
               else AtPartyAChunk(b0, b0, Chunks(PendingOfTask(cfg, w.chain, b0), cfg.chunkSize), p.lastPartyAChunk + 1)
  {
  }

  lemma RunThree(cfg: Config, w: World, a: Event, b: Event, c: Event)
    requires cfg.chunkSize > 0
    ensures Run(cfg, w, [a, b, c]) == Step(cfg, Step(cfg, Step(cfg, w, a), b), c)
  {
    RunSnoc(cfg, w, [], a);
    RunSnoc(cfg, w, [a], b);
    RunSnoc(cfg, w, [a, b], c);
    assert [] + [a] == [a] && [a] + [b] == [a, b] && [a, b] + [c] == [a, b, c];
  }

  // ---- Concrete counter-runs ----

  const TWO_PENDING := Chain(
    Records(map[1 := NO_QUOTE.(partyA := 7), 2 := NO_QUOTE.(partyA := 7)], 0),
    Totals(map[], map[], map[], map[]), map[], {}, {}, [], [])

  /** One chunk migrated and saved, then a crash: the restarted process reports success without quote 2. */
  lemma PreCheckResumeCounterRun()
    ensures var cfg := Config([1, 2], [], 1, false, 1);
            var events := [Start, Attempt(Mined, true), Stop, Start, Advance(true), Advance(true)];
            var w := Run(cfg, Initial(TWO_PENDING), events);
            && ExactlyOnce(TWO_PENDING)
            && w.process.Some? && w.process.value.pc == Succeeded
            && TreatmentOf(TWO_PENDING.QuoteAt(2)) == Reserve && 2 !in w.chain.quoteMigrated
  {
    var cfg := Config([1, 2], [], 1, false, 1);
    BothPending();
    var w3 := FirstProcessCrashes(cfg, TWO_PENDING);
    var w6 := SecondProcessSucceeds(cfg, w3);
    var e3 := [Start, Attempt(Mined, true), Stop];
    RunSnoc(cfg, Initial(TWO_PENDING), e3, Start);
    RunSnoc(cfg, Initial(TWO_PENDING), e3 + [Start], Advance(true));
    RunSnoc(cfg, Initial(TWO_PENDING), e3 + [Start] + [Advance(true)], Advance(true));
    assert e3 + [Start] + [Advance(true)] + [Advance(true)] ==
           [Start, Attempt(Mined, true), Stop, Start, Advance(true), Advance(true)];
  }

  lemma FirstProcessCrashes(cfg: Config, c: Chain) returns (w: World)
    requires cfg == Config([1, 2], [], 1, false, 1)
    requires Chunks(PendingQuotes(c, cfg.quoteIds), 1) == [[1], [2]]
    requires TreatmentOf(c.QuoteAt(1)) == Reserve && c.quoteMigrated == {}
    ensures w == Run(cfg, Initial(c), [Start, Attempt(Mined, true), Stop])
    ensures w.process == None && w.file == Some(FRESH.(lastQuoteChunk := 0))
    ensures w.chain.quoteMigrated == {1} && w.chain.records == c.records
  {
    RunThree(cfg, Initial(c), Start, Attempt(Mined, true), Stop);
    MigrateOnePending(c, 1);
    var w1 := Step(cfg, Initial(c), Start);
    assert w1.process == Some(Process(FRESH, AtQuoteChunk([[1], [2]], 0)));
    w := Step(cfg, Step(cfg, w1, Attempt(Mined, true)), Stop);
  }

  lemma BothPending()
    ensures Chunks(PendingQuotes(TWO_PENDING, [1, 2]), 1) == [[1], [2]]
  {
    var ids: seq<nat> := [1, 2];
    assert ids[1..] == [2] && ids[..1] == [1];
    assert PendingQuotes(TWO_PENDING, ids[1..]) == [2];
    assert PendingQuotes(TWO_PENDING, ids) == ids;
  }

  /** A batch of one pending quote cannot revert. */
  lemma MigrateOnePending(c: Chain, id: nat)
    requires TreatmentOf(c.QuoteAt(id)) == Reserve && id !in c.quoteMigrated
    ensures MigrateQuotes(c, [id]).Some?
    ensures MigrateQuotes(c, [id]).value.quoteMigrated == c.quoteMigrated + {id}
    ensures MigrateQuotes(c, [id]).value.records == c.records
  {
    var ids := [id];
    assert ids[1..] == [];
    assert MigrateQuotes(c, ids) == MigrateQuote(c, id);
  }

  lemma SecondProcessSucceeds(cfg: Config, w3: World) returns (w: World)
    requires cfg == Config([1, 2], [], 1, false, 1)
    requires w3.process == None && w3.file == Some(FRESH.(lastQuoteChunk := 0))
    requires w3.chain.quoteMigrated == {1} && w3.chain.records == TWO_PENDING.records
    ensures w == Step(cfg, Step(cfg, Step(cfg, w3, Start), Advance(true)), Advance(true))
    ensures w.process.Some? && w.process.value.pc == Succeeded && w.chain == w3.chain
  {
    assert [1, 2][1..] == [2] && [2][1..] == [];
    assert PendingQuotes(w3.chain, [2]) == [2];
    assert PendingQuotes(w3.chain, [1, 2]) == [2];
    var w4 := Step(cfg, w3, Start);
    assert w4.process == Some(Process(FRESH.(lastQuoteChunk := 0), AtQuoteChunk([[2]], 1)));
    var w5 := Step(cfg, w4, Advance(true));
    assert w5.process.value.pc == AtPartyB(0, 0);
    w := Step(cfg, w5, Advance(true));
  }

  // ---- Zero confirmations ----

  /** A running process with its indices in range. */
  ghost predicate Running(cfg: Config, w: World) {
    && w.process.Some? && w.process.value.progress.lastPartyB >= -1 && w.process.value.progress.lastPartyAChunk >= -1
    && match w.process.value.pc
       case AtQuoteChunk(_, i) => 0 <= i
       case AtPartyB(b, _) => 0 <= b
       case AtPartyAChunk(b, _, _, j) => 0 <= b < |cfg.tasks| && 0 <= j
       case Succeeded => true
  }

  function Left(size: nat, i: int): nat {
    if 0 <= i <= size then size - i else 0
  }

  /** How far a process is from its success report: phases, tasks, and within a task its start and its chunks. */
  function Distance(cfg: Config, pc: Pc): (nat, nat, nat, nat) {
    match pc
    case AtQuoteChunk(chunks, i) => (2, 0, 0, Left(|chunks|, i))
    case AtPartyB(b, _) => (1, Left(|cfg.tasks|, b), 1, 0)
    case AtPartyAChunk(b, _, chunks, j) => (1, Left(|cfg.tasks|, b), 0, Left(|chunks|, j))
    case Succeeded => (0, 0, 0, 0)
  }

  predicate Closer(d: (nat, nat, nat, nat), e: (nat, nat, nat, nat)) {
    d.0 < e.0
    || (d.0 == e.0 && (d.1 < e.1 || (d.1 == e.1 && (d.2 < e.2 || (d.2 == e.2 && d.3 < e.3)))))
  }

  /** Submitting the operation at hand, or else advancing, brings the process closer and leaves the chain alone. */
  lemma StepUnmined(cfg: Config, w: World) returns (e: Event)
    requires cfg.chunkSize > 0 && cfg.confirmations == 0 && Running(cfg, w) && w.process.value.pc != Succeeded
    ensures e != Start
    ensures var v := Step(cfg, w, e);
            && Running(cfg, v) && v.chain == w.chain
            && Closer(Distance(cfg, v.process.value.pc), Distance(cfg, w.process.value.pc))
  {
    e := if CurrentTx(cfg, w.process.value.pc).Some? then Attempt(Unconfirmed, true) else Advance(true);
  }

  /** Nothing is ever mined: every operation is submitted, left unconfirmed and counted as done. */
  lemma {:induction false} SucceedUnmined(cfg: Config, w: World) returns (events: seq<Event>)
    requires cfg.chunkSize > 0 && cfg.confirmations == 0 && Running(cfg, w)
    ensures forall i :: 0 <= i < |events| ==> events[i] != Start
    ensures var v := Run(cfg, w, events);
            v.process.Some? && v.process.value.pc == Succeeded && v.chain == w.chain
    decreases Distance(cfg, w.process.value.pc).0, Distance(cfg, w.process.value.pc).1,
              Distance(cfg, w.process.value.pc).2, Distance(cfg, w.process.value.pc).3
  {
    if w.process.value.pc == Succeeded {
      return [];
    }
    var e := StepUnmined(cfg, w);
    var rest := SucceedUnmined(cfg, Step(cfg, w, e));
    events := [e] + rest;
    RunOne(cfg, w, e, rest);
  }

  lemma RunOne(cfg: Config, w: World, e: Event, rest: seq<Event>)
    requires cfg.chunkSize > 0
    ensures Run(cfg, w, [e] + rest) == Run(cfg, Step(cfg, w, e), rest)
  {
    RunSnoc(cfg, w, [], e);
    assert [] + [e] == [e];
    RunConcat(cfg, w, [e], rest);
  }

  /** With zero confirmations any migration at all can end in a success report without a single effect. */
  lemma ZeroConfirmationsCounterRun(cfg: Config, c: Chain) returns (events: seq<Event>)
    requires cfg.chunkSize > 0 && cfg.confirmations == 0
    ensures SafeRun(cfg, Initial(c), events)
    ensures var w := Run(cfg, Initial(c), events);
            w.process.Some? && w.process.value.pc == Succeeded && w.chain == c
  {
    var rest := SucceedUnmined(cfg, Step(cfg, Initial(c), Start));
    events := [Start] + rest;
    RunOne(cfg, Initial(c), Start, rest);
    assert events[..0] == [];
  }

  /** From this chain on, every success report of a safe run means a complete migration. */
  ghost predicate SuccessIsComplete(cfg: Config, c: Chain)
    requires cfg.chunkSize > 0
  {
    forall events :: SafeRun(cfg, Initial(c), events) ==>
                       var w := Run(cfg, Initial(c), events);
                       w.process.Some? && w.process.value.pc == Succeeded ==> Complete(cfg, w.chain)
  }

  /** A success report can be trusted exactly when confirmations are waited for, or nothing was left to do. */
  lemma ConfirmationsIff(cfg: Config, c: Chain)
    requires cfg.chunkSize > 0 && ExactlyOnce(c)
    ensures SuccessIsComplete(cfg, c) <==> cfg.confirmations > 0 || Complete(cfg, c)
  {
    if cfg.confirmations > 0 {
      forall events | SafeRun(cfg, Initial(c), events)
        ensures var w := Run(cfg, Initial(c), events);
                w.process.Some? && w.process.value.pc == Succeeded ==> Complete(cfg, w.chain)
      {
        SuccessMeansComplete(cfg, c, events);
      }
    } else if Complete(cfg, c) {
      forall events
        ensures Complete(cfg, Run(cfg, Initial(c), events).chain)
      {
        RunKeepsRecords(cfg, Initial(c), events);
        RunExactlyOnce(cfg, Initial(c), events);
      }
    } else {
      var events := ZeroConfirmationsCounterRun(cfg, c);
    }
  }

  // ---- What a crash costs ----

  /** The progress file is not lost, and writing it works. */
  predicate Saves(e: Event) {
    match e
    case Attempt(_, saved) => saved
    case Advance(saved) => saved
    case LoseFile => false
    case _ => true
  }

  ghost predicate AllSaved(events: seq<Event>) {
    forall i :: 0 <= i < |events| ==> Saves(events[i])
  }

  /** The file has the process's progress, or there is none yet. */
  ghost predicate OnFile(w: World, p: Process) {
    w.file == Some(p.progress) || (w.file == None && p.progress == FRESH)
  }

  lemma StepOnFile(cfg: Config, w: World, e: Event)
    requires cfg.chunkSize > 0 && Saves(e) && (w.process.Some? ==> OnFile(w, w.process.value))
    ensures var w' := Step(cfg, w, e); w'.process.Some? ==> OnFile(w', w'.process.value)
  {
  }

  /** Over every run in which saving works, the file is never behind: a restart after a crash goes on right there. */
  lemma {:induction false} CrashLosesNothing(cfg: Config, c: Chain, events: seq<Event>)
    requires cfg.chunkSize > 0 && AllSaved(events)
    ensures var w := Run(cfg, Initial(c), events);
            w.process.Some? ==>
              var restarted := Step(cfg, Step(cfg, w, Stop), Start);
              && OnFile(w, w.process.value)
              && restarted.process.Some? && restarted.process.value.progress == w.process.value.progress
  {
    if |events| > 0 {
      var init := events[..|events| - 1];
      CrashLosesNothing(cfg, c, init);
      StepOnFile(cfg, Run(cfg, Initial(c), init), events[|events| - 1]);
    }
  }
}
