/** What every run of the migration runner guarantees. */
module MigrationSafety {
  import opened Collections
  import opened Diamond
  import opened MigrationContract
  import opened MigrationRun

  // ---- The invariant ----

  ghost predicate AllQuotesDone(c: Chain, ids: seq<nat>) {
    forall id | id in ids :: QuoteDone(c, id)
  }

  ghost predicate AllPairsDone(c: Chain, partyB: Address, partyAs: seq<Address>) {
    forall a | a in partyAs :: Pair(partyB, a) in c.pairMigrated
  }

  /** Without the pre-check the chunk list of a task is the same in every process. */
  function TaskChunks(cfg: Config, b: int): seq<seq<Address>>
    requires cfg.chunkSize > 0 && 0 <= b < |cfg.tasks|
  {
    Chunks(Dedup(cfg.tasks[b].partyAs), cfg.chunkSize)
  }

  ghost predicate QuoteIndexSound(cfg: Config, c: Chain, n: int)
    requires cfg.chunkSize > 0
  {
    var chunks := Chunks(cfg.quoteIds, cfg.chunkSize);
    0 <= n <= |chunks| && AllQuotesDone(c, Flatten(chunks[..n]))
  }

  ghost predicate PairIndexSound(cfg: Config, c: Chain, b: int, n: int)
    requires cfg.chunkSize > 0 && 0 <= b < |cfg.tasks|
  {
    0 <= n <= |TaskChunks(cfg, b)| && AllPairsDone(c, cfg.tasks[b].partyB, Flatten(TaskChunks(cfg, b)[..n]))
  }

  /** What a progress record may claim, in a file or in memory. */
  ghost predicate ProgressSound(cfg: Config, c: Chain, p: Progress)
    requires cfg.chunkSize > 0
  {
    && -1 <= p.lastPartyB < |cfg.tasks| && -1 <= p.lastQuoteChunk && -1 <= p.lastPartyAChunk
    && (p.phase == QuotesPhase ==>
          p.lastPartyB == -1 && p.lastPartyAChunk == -1
          && (cfg.skipPreCheck ==> QuoteIndexSound(cfg, c, p.lastQuoteChunk + 1)))
    && (p.phase != QuotesPhase ==> QuotesDone(cfg, c) && TasksDone(cfg, c, p.lastPartyB + 1))
    && (cfg.skipPreCheck && p.lastPartyB + 1 < |cfg.tasks| ==>
          PairIndexSound(cfg, c, p.lastPartyB + 1, p.lastPartyAChunk + 1))
    && (p.phase == CompletePhase ==> TasksDone(cfg, c, |cfg.tasks|))
  }

  /** What the chunks from index `i` on hold; an index past the end leaves nothing. */
  function Ahead<T>(chunks: seq<seq<T>>, i: int): seq<T> {
    if 0 <= i <= |chunks| then Flatten(chunks[i..]) else []
  }

  /** Where a process may be: everything it has not sent yet is still ahead of it. */
  ghost predicate PcSound(cfg: Config, c: Chain, p: Process)
    requires cfg.chunkSize > 0
  {
    match p.pc
    case AtQuoteChunk(chunks, i) =>
      && p.progress.phase == QuotesPhase && 0 <= i
      && (forall id | id in cfg.quoteIds :: QuoteDone(c, id) || id in Ahead(chunks, i))
      && (cfg.skipPreCheck ==>
            chunks == Chunks(cfg.quoteIds, cfg.chunkSize) && i == p.progress.lastQuoteChunk + 1 <= |chunks|)
    case AtPartyB(b, startB) =>
      && p.progress.phase == BalancesPhase && b == p.progress.lastPartyB + 1 && startB <= b
      && (startB < b ==> p.progress.lastPartyAChunk == -1)
      && (!cfg.skipPreCheck && 0 <= b < |cfg.tasks| ==> p.progress.lastPartyAChunk == -1 || TaskDone(c, cfg.tasks[b]))
    case AtPartyAChunk(b, startB, chunks, j) =>
      && p.progress.phase == BalancesPhase && 0 <= b == p.progress.lastPartyB + 1 < |cfg.tasks| && startB <= b
      && 0 <= j <= |chunks|
      && (forall a | a in Dedup(cfg.tasks[b].partyAs) ::
            Pair(cfg.tasks[b].partyB, a) in c.pairMigrated || a in Ahead(chunks, j))
      && (cfg.skipPreCheck ==> chunks == TaskChunks(cfg, b) && j == p.progress.lastPartyAChunk + 1)
    case Succeeded => p.progress.phase == CompletePhase
  }

  ghost predicate Inv(cfg: Config, w: World)
    requires cfg.chunkSize > 0
  {
    && (w.file.Some? ==> ProgressSound(cfg, w.chain, w.file.value))
    && (w.process.Some? ==>
          ProgressSound(cfg, w.chain, w.process.value.progress) && PcSound(cfg, w.chain, w.process.value))
  }

  /** The counterparties of task `b` that the pre-check leaves. */
  function PendingOfTask(cfg: Config, c: Chain, b: nat): seq<Address>
    requires b < |cfg.tasks|
  {
    PendingPairs(c, cfg.tasks[b].partyB, Dedup(cfg.tasks[b].partyAs))
  }

  /**
   When a start is safe: without the pre-check always; with it, only when the phase or task it resumes
   has no chunk recorded as done, or has nothing pending.
   */
  predicate SafeStart(cfg: Config, c: Chain, file: Option<Progress>) {
    cfg.skipPreCheck || file.None?
    || match file.value.phase
       case QuotesPhase => file.value.lastQuoteChunk == -1 || PendingQuotes(c, cfg.quoteIds) == []
       case BalancesPhase =>
         var b := file.value.lastPartyB + 1;
         file.value.lastPartyAChunk == -1 || !(0 <= b < |cfg.tasks|) || PendingOfTask(cfg, c, b) == []
       case CompletePhase => true
  }

  /** Every start of the run is safe. */
  ghost predicate SafeRun(cfg: Config, w: World, events: seq<Event>)
    requires cfg.chunkSize > 0
  {
    forall i :: 0 <= i < |events| && events[i] == Start ==>
                  var v := Run(cfg, w, events[..i]);
                  SafeStart(cfg, v.chain, v.file)
  }

  // ---- Steps keep the invariant ----

  lemma MineEvolves(c: Chain, tx: Tx)
    ensures Evolves(c, Mine(c, tx))
    ensures tx.QuoteTx? && !Reverts(c, tx) ==> AllQuotesDone(Mine(c, tx), tx.ids)
    ensures tx.PairTx? ==> AllPairsDone(Mine(c, tx), tx.partyB, tx.partyAs)
  {
    match tx
    case QuoteTx(ids) =>
      if MigrateQuotes(c, ids).Some? {
        MigrateQuotesSettles(c, ids);
      }
    case PairTx(partyB, partyAs) => MigratePairsSettles(c, partyB, partyAs);
  }

  lemma StillSound(cfg: Config, c: Chain, c': Chain, p: Progress)
    requires cfg.chunkSize > 0 && Evolves(c, c') && ProgressSound(cfg, c, p)
    ensures ProgressSound(cfg, c', p)
  {
  }

  lemma StillAhead(cfg: Config, c: Chain, c': Chain, p: Process)
    requires cfg.chunkSize > 0 && Evolves(c, c') && PcSound(cfg, c, p)
    ensures PcSound(cfg, c', p)
  {
  }

  lemma ChainEvolved(cfg: Config, w: World, c': Chain)
    requires cfg.chunkSize > 0 && Inv(cfg, w) && Evolves(w.chain, c')
    ensures Inv(cfg, w.(chain := c'))
  {
    if w.file.Some? {
      StillSound(cfg, w.chain, c', w.file.value);
    }
    if w.process.Some? {
      StillSound(cfg, w.chain, c', w.process.value.progress);
      StillAhead(cfg, w.chain, c', w.process.value);
    }
  }

  lemma FreshIsSound(cfg: Config, c: Chain)
    requires cfg.chunkSize > 0
    ensures ProgressSound(cfg, c, FRESH)
  {
    assert Chunks(cfg.quoteIds, cfg.chunkSize)[..0] == [];
    assert QuoteIndexSound(cfg, c, 0);
    if |cfg.tasks| > 0 {
      assert TaskChunks(cfg, 0)[..0] == [];
      assert PairIndexSound(cfg, c, 0, 0);
    }
  }

  /** Chunks before `i` and chunks ahead make up the whole list. */
  lemma BehindAndAhead<T>(s: seq<T>, size: nat, i: nat)
    requires size > 0 && i <= |Chunks(s, size)|
    ensures s == Flatten(Chunks(s, size)[..i]) + Ahead(Chunks(s, size), i)
    ensures i == 0 ==> Ahead(Chunks(s, size), i) == s
  {
    FlattenChunks(s, size);
    FlattenPrefix(Chunks(s, size), i);
    assert Chunks(s, size)[..0] == [];
  }

  /** Without the pre-check the saved index counts chunks of the one list there is. */
  lemma AllQuotesResumed(cfg: Config, c: Chain, p: Progress)
    requires cfg.chunkSize > 0 && ProgressSound(cfg, c, p) && p.phase == QuotesPhase && cfg.skipPreCheck
    ensures PcSound(cfg, c, Process(p, StartPc(cfg, c, p)))
  {
    BehindAndAhead(cfg.quoteIds, cfg.chunkSize, p.lastQuoteChunk + 1);
  }

  lemma PendingQuotesResumed(cfg: Config, c: Chain, p: Progress)
    requires cfg.chunkSize > 0 && ProgressSound(cfg, c, p) && p.phase == QuotesPhase && !cfg.skipPreCheck
    requires p.lastQuoteChunk == -1 || PendingQuotes(c, cfg.quoteIds) == []
    ensures PcSound(cfg, c, Process(p, StartPc(cfg, c, p)))
  {
    PendingQuotesMembers(c, cfg.quoteIds);
    if p.lastQuoteChunk == -1 {
      BehindAndAhead(PendingQuotes(c, cfg.quoteIds), cfg.chunkSize, 0);
    }
  }

  lemma QuotesResumed(cfg: Config, c: Chain, p: Progress)
    requires cfg.chunkSize > 0 && ProgressSound(cfg, c, p) && p.phase == QuotesPhase && SafeStart(cfg, c, Some(p))
    ensures PcSound(cfg, c, Process(p, StartPc(cfg, c, p)))
  {
    if cfg.skipPreCheck {
      AllQuotesResumed(cfg, c, p);
    } else {
      PendingQuotesResumed(cfg, c, p);
    }
  }

  lemma BalancesResumed(cfg: Config, c: Chain, p: Progress)
    requires cfg.chunkSize > 0 && ProgressSound(cfg, c, p) && p.phase == BalancesPhase && SafeStart(cfg, c, Some(p))
    ensures PcSound(cfg, c, Process(p, StartPc(cfg, c, p)))
  {
    if p.lastPartyB + 1 < |cfg.tasks| {
      var task := cfg.tasks[p.lastPartyB + 1];
      PendingPairsMembers(c, task.partyB, Dedup(task.partyAs));
    }
  }

  lemma StartIsSound(cfg: Config, w: World)
    requires cfg.chunkSize > 0 && Inv(cfg, w) && w.process.None? && SafeStart(cfg, w.chain, w.file)
    ensures Inv(cfg, Step(cfg, w, Start))
  {
    var p := if w.file.Some? then w.file.value else FRESH;
    FreshIsSound(cfg, w.chain);
    match p.phase
    case QuotesPhase => QuotesResumed(cfg, w.chain, p);
    case BalancesPhase => BalancesResumed(cfg, w.chain, p);
    case CompletePhase =>
  }

  lemma QuoteChunkSent(cfg: Config, c: Chain, c': Chain, p: Process)
    requires cfg.chunkSize > 0 && ProgressSound(cfg, c, p.progress) && PcSound(cfg, c, p)
    requires p.pc.AtQuoteChunk? && CurrentTx(cfg, p.pc).Some?
    requires Evolves(c, c') && AllQuotesDone(c', p.pc.quoteChunks[p.pc.i])
    ensures ProgressSound(cfg, c', AfterSuccess(p).progress) && PcSound(cfg, c', AfterSuccess(p))
  {
    var chunks, i := p.pc.quoteChunks, p.pc.i;
    StillSound(cfg, c, c', p.progress);
    assert chunks[i..][1..] == chunks[i + 1..];
    if cfg.skipPreCheck {
      assert chunks[..i + 1] == chunks[..i] + [chunks[i]];
      FlattenConcat(chunks[..i], [chunks[i]]);
      assert Flatten([chunks[i]]) == chunks[i];
      assert QuoteIndexSound(cfg, c', i + 1);
    }
  }

  lemma PairChunkSent(cfg: Config, c: Chain, c': Chain, p: Process)
    requires cfg.chunkSize > 0 && ProgressSound(cfg, c, p.progress) && PcSound(cfg, c, p)
    requires p.pc.AtPartyAChunk? && CurrentTx(cfg, p.pc).Some?
    requires Evolves(c, c') && AllPairsDone(c', cfg.tasks[p.pc.b].partyB, p.pc.partyAChunks[p.pc.j])
    ensures ProgressSound(cfg, c', AfterSuccess(p).progress) && PcSound(cfg, c', AfterSuccess(p))
  {
    var chunks, j := p.pc.partyAChunks, p.pc.j;
    StillSound(cfg, c, c', p.progress);
    assert chunks[j..][1..] == chunks[j + 1..];
    if cfg.skipPreCheck {
      assert chunks[..j + 1] == chunks[..j] + [chunks[j]];
      FlattenConcat(chunks[..j], [chunks[j]]);
      assert Flatten([chunks[j]]) == chunks[j];
      assert PairIndexSound(cfg, c', p.pc.b, j + 1);
    }
  }

  lemma TaskFinished(cfg: Config, c: Chain, p: Process, b: int, startB: int)
    requires cfg.chunkSize > 0 && ProgressSound(cfg, c, p.progress)
    requires p.progress.phase == BalancesPhase && b == p.progress.lastPartyB + 1 < |cfg.tasks| && startB <= b
    requires TaskDone(c, cfg.tasks[b])
    ensures ProgressSound(cfg, c, FinishPartyB(p, b, startB).progress) && PcSound(cfg, c, FinishPartyB(p, b, startB))
  {
    if b + 1 < |cfg.tasks| {
      assert TaskChunks(cfg, b + 1)[..0] == [];
      assert PairIndexSound(cfg, c, b + 1, 0);
    }
  }

  lemma TaskStarted(cfg: Config, c: Chain, p: Process)
    requires cfg.chunkSize > 0 && ProgressSound(cfg, c, p.progress) && PcSound(cfg, c, p)
    requires p.pc.AtPartyB? && p.pc.b < |cfg.tasks|
    ensures ProgressSound(cfg, c, AfterAdvance(cfg, c, p).0.progress) && PcSound(cfg, c, AfterAdvance(cfg, c, p).0)
  {
    var b, startB := p.pc.b, p.pc.startB;
    PendingPairsMembers(c, cfg.tasks[b].partyB, Dedup(cfg.tasks[b].partyAs));
    if cfg.skipPreCheck {
      WholeTaskStarted(cfg, c, p);
    } else if |PendingOfTask(cfg, c, b)| == 0 {
      TaskFinished(cfg, c, p, b, startB);
    } else {
      PendingTaskStarted(cfg, c, p);
    }
  }

  lemma WholeTaskStarted(cfg: Config, c: Chain, p: Process)
    requires cfg.chunkSize > 0 && ProgressSound(cfg, c, p.progress) && PcSound(cfg, c, p)
    requires p.pc.AtPartyB? && p.pc.b < |cfg.tasks| && cfg.skipPreCheck
    ensures PcSound(cfg, c, AfterAdvance(cfg, c, p).0)
  {
    var b := p.pc.b;
    var j := if b == p.pc.startB then p.progress.lastPartyAChunk + 1 else 0;
    BehindAndAhead(Dedup(cfg.tasks[b].partyAs), cfg.chunkSize, j);
  }

  lemma PendingTaskStarted(cfg: Config, c: Chain, p: Process)
    requires cfg.chunkSize > 0 && ProgressSound(cfg, c, p.progress) && PcSound(cfg, c, p)
    requires p.pc.AtPartyB? && p.pc.b < |cfg.tasks| && !cfg.skipPreCheck && PendingOfTask(cfg, c, p.pc.b) != []
    ensures PcSound(cfg, c, AfterAdvance(cfg, c, p).0)
  {
    var b := p.pc.b;
    var pending := PendingOfTask(cfg, c, b);
    PendingPairsMembers(c, cfg.tasks[b].partyB, Dedup(cfg.tasks[b].partyAs));
    assert pending[0] in pending;
    BehindAndAhead(pending, cfg.chunkSize, 0);
  }

  lemma AfterAdvanceIsSound(cfg: Config, c: Chain, p: Process)
    requires cfg.chunkSize > 0 && ProgressSound(cfg, c, p.progress) && PcSound(cfg, c, p)
    requires CurrentTx(cfg, p.pc).None? && p.pc != Succeeded
    ensures ProgressSound(cfg, c, AfterAdvance(cfg, c, p).0.progress) && PcSound(cfg, c, AfterAdvance(cfg, c, p).0)
  {
    match p.pc
    case AtQuoteChunk(chunks, i) =>
      assert Ahead(chunks, i) == [];
    case AtPartyB(b, startB) =>
      if b < |cfg.tasks| {
        TaskStarted(cfg, c, p);
      }
    case AtPartyAChunk(b, startB, chunks, j) =>
      assert chunks[j..] == [];
      TaskFinished(cfg, c, p, b, startB);
  }

  lemma AdvanceIsSound(cfg: Config, w: World, p: Process, saved: bool)
    requires cfg.chunkSize > 0 && Inv(cfg, w) && w.process == Some(p)
    ensures Inv(cfg, RunningStep(cfg, w, p, Advance(saved)))
  {
    if CurrentTx(cfg, p.pc).None? && p.pc != Succeeded {
      AfterAdvanceIsSound(cfg, w.chain, p);
    }
  }

  lemma AttemptIsSound(cfg: Config, w: World, p: Process, outcome: TxOutcome, saved: bool)
    requires cfg.chunkSize > 0 && cfg.confirmations > 0 && Inv(cfg, w) && w.process == Some(p)
    ensures Inv(cfg, RunningStep(cfg, w, p, Attempt(outcome, saved)))
  {
    var tx := CurrentTx(cfg, p.pc);
    if tx.Some? && outcome == Mined && !Reverts(w.chain, tx.value) {
      var c' := Mine(w.chain, tx.value);
      MineEvolves(w.chain, tx.value);
      ChainEvolved(cfg, w, c');
      if p.pc.AtQuoteChunk? {
        QuoteChunkSent(cfg, w.chain, c', p);
      } else {
        PairChunkSent(cfg, w.chain, c', p);
      }
    }
  }

  lemma StepIsSound(cfg: Config, w: World, e: Event)
    requires cfg.chunkSize > 0 && cfg.confirmations > 0 && Inv(cfg, w)
    requires e == Start ==> SafeStart(cfg, w.chain, w.file)
    ensures Inv(cfg, Step(cfg, w, e))
  {
    match e
    case Start =>
      if w.process.None? {
        StartIsSound(cfg, w);
      }
    case Stop =>
    case LoseFile =>
    case Land(k) =>
      if k < |w.mempool| {
        MineEvolves(w.chain, w.mempool[k]);
        ChainEvolved(cfg, w, Mine(w.chain, w.mempool[k]));
      }
    case Advance(saved) =>
      if w.process.Some? {
        AdvanceIsSound(cfg, w, w.process.value, saved);
      }
    case Attempt(outcome, saved) =>
      if w.process.Some? {
        AttemptIsSound(cfg, w, w.process.value, outcome, saved);
      }
  }

  lemma {:induction false} RunIsSound(cfg: Config, w: World, events: seq<Event>)
    requires cfg.chunkSize > 0 && cfg.confirmations > 0 && Inv(cfg, w) && SafeRun(cfg, w, events)
    ensures Inv(cfg, Run(cfg, w, events))
    decreases |events|
  {
    if |events| > 0 {
      var n := |events| - 1;
      var init := events[..n];
      assert forall i :: 0 <= i < n ==> init[..i] == events[..i];
      RunIsSound(cfg, w, init);
      StepIsSound(cfg, Run(cfg, w, init), events[n]);
    }
  }

  lemma {:induction false} RunKeepsRecords(cfg: Config, w: World, events: seq<Event>)
    requires cfg.chunkSize > 0
    ensures Evolves(w.chain, Run(cfg, w, events).chain)
    decreases |events|
  {
    if |events| > 0 {
      RunKeepsRecords(cfg, w, events[..|events| - 1]);
      var v := Run(cfg, w, events[..|events| - 1]);
      match events[|events| - 1]
      case Land(k) =>
        if k < |v.mempool| {
          MineEvolves(v.chain, v.mempool[k]);
        }
      case Attempt(_, _) =>
        if v.process.Some? && CurrentTx(cfg, v.process.value.pc).Some? {
          MineEvolves(v.chain, CurrentTx(cfg, v.process.value.pc).value);
        }
      case _ =>
    }
  }

  // ---- Every effect exactly once ----

  /** A batch of quotes is always counted once, a batch of pairs if it does not add a nonempty bucket to itself. */
  ghost predicate HarmlessTx(c: Chain, tx: Tx) {
    tx.PairTx? ==> HarmlessPairs(c, tx.partyB, tx.partyAs)
  }

  lemma MineExactlyOnceIff(c: Chain, tx: Tx)
    requires ExactlyOnce(c)
    ensures ExactlyOnce(Mine(c, tx)) <==> HarmlessTx(c, tx)
    ensures ExactlyOnce(Mine(c, tx)) || exists b :: Doubled(Mine(c, tx), b)
  {
    match tx
    case QuoteTx(ids) =>
      if MigrateQuotes(c, ids).Some? {
        MigrateQuotesExactlyOnce(c, ids);
      }
    case PairTx(partyB, partyAs) => MigratePairsExactlyOnceIff(c, partyB, partyAs);
  }

  lemma MineStaysDoubled(c: Chain, tx: Tx, b: Address)
    requires Doubled(c, b)
    ensures Doubled(Mine(c, tx), b)
  {
    match tx
    case QuoteTx(ids) =>
      if MigrateQuotes(c, ids).Some? {
        MigrateQuotesSettles(c, ids);
      }
    case PairTx(partyB, partyAs) => StaysDoubled(c, partyB, partyAs, b);
  }

  /** A history of batches, whoever sent them. */
  function Replay(c: Chain, txs: seq<Tx>): Chain {
    if |txs| == 0 then c else Mine(Replay(c, txs[..|txs| - 1]), txs[|txs| - 1])
  }

  lemma {:induction false} OnceOrDoubled(c: Chain, txs: seq<Tx>)
    requires ExactlyOnce(c)
    ensures ExactlyOnce(Replay(c, txs)) || exists b :: Doubled(Replay(c, txs), b)
  {
    if |txs| > 0 {
      var before, last := Replay(c, txs[..|txs| - 1]), txs[|txs| - 1];
      OnceOrDoubled(c, txs[..|txs| - 1]);
      if ExactlyOnce(before) {
        MineExactlyOnceIff(before, last);
      } else {
        var b :| Doubled(before, b);
        MineStaysDoubled(before, last, b);
      }
    }
  }

  ghost predicate HarmlessAt(c: Chain, txs: seq<Tx>, i: nat)
    requires i < |txs|
  {
    HarmlessTx(Replay(c, txs[..i]), txs[i])
  }

  /**
   Over every history of batches each quote and each pair has its effect exactly once, if and only if no batch
   of it migrated a nonempty bucket into itself.
   */
  lemma {:induction false} ReplayIff(c: Chain, txs: seq<Tx>)
    requires ExactlyOnce(c)
    ensures ExactlyOnce(Replay(c, txs)) <==> forall i :: 0 <= i < |txs| ==> HarmlessAt(c, txs, i)
  {
    if |txs| > 0 {
      var n := |txs| - 1;
      ReplayIff(c, txs[..n]);
      assert forall i :: 0 <= i < n ==> txs[..n][..i] == txs[..i];
      assert forall i :: 0 <= i < n ==> (HarmlessAt(c, txs, i) <==> HarmlessAt(c, txs[..n], i));
      if ExactlyOnce(Replay(c, txs[..n])) {
        MineExactlyOnceIff(Replay(c, txs[..n]), txs[n]);
        assert HarmlessAt(c, txs, n) <==> HarmlessTx(Replay(c, txs[..n]), txs[n]);
      } else {
        OnceOrDoubled(c, txs[..n]);
        var b :| Doubled(Replay(c, txs[..n]), b);
        MineStaysDoubled(Replay(c, txs[..n]), txs[n], b);
      }
    }
  }

  /** What the runner sends has gone through the deduplication, which drops the zero address. */
  ghost predicate SendsNoZero(w: World) {
    && (forall k :: 0 <= k < |w.mempool| ==> NamesNoZero(w.mempool[k]))
    && (w.process.Some? && w.process.value.pc.AtPartyAChunk? ==> NoneIsZero(w.process.value.pc.partyAChunks))
  }

  predicate NamesNoZero(tx: Tx) {
    tx.PairTx? ==> ZERO_ADDRESS !in tx.partyAs
  }

  ghost predicate NoneIsZero(chunks: seq<seq<Address>>) {
    forall j :: 0 <= j < |chunks| ==> ZERO_ADDRESS !in chunks[j]
  }

  lemma AdvanceSendsNoZero(cfg: Config, w: World, p: Process, saved: bool)
    requires cfg.chunkSize > 0 && SendsNoZero(w) && w.process == Some(p)
    ensures SendsNoZero(RunningStep(cfg, w, p, Advance(saved)))
  {
    if p.pc.AtPartyB? && 0 <= p.pc.b < |cfg.tasks| {
      var task := cfg.tasks[p.pc.b];
      DedupMembers(task.partyAs);
      PendingPairsMembers(w.chain, task.partyB, Dedup(task.partyAs));
      var pending := if cfg.skipPreCheck then Dedup(task.partyAs)
                     else PendingPairs(w.chain, task.partyB, Dedup(task.partyAs));
      forall j | 0 <= j < |Chunks(pending, cfg.chunkSize)|
        ensures ZERO_ADDRESS !in Chunks(pending, cfg.chunkSize)[j]
      {
        ChunkMembers(pending, cfg.chunkSize, j);
      }
    }
  }

  lemma NoZeroIsHarmless(c: Chain, tx: Tx)
    requires ExactlyOnce(c) && NamesNoZero(tx)
    ensures ExactlyOnce(Mine(c, tx))
  {
    MineExactlyOnceIff(c, tx);
  }

  lemma StepExactlyOnce(cfg: Config, w: World, e: Event)
    requires cfg.chunkSize > 0 && ExactlyOnce(w.chain) && SendsNoZero(w)
    ensures ExactlyOnce(Step(cfg, w, e).chain) && SendsNoZero(Step(cfg, w, e))
  {
    match e
    case Start =>
    case Stop =>
    case LoseFile =>
    case Land(k) =>
      if k < |w.mempool| {
        NoZeroIsHarmless(w.chain, w.mempool[k]);
      }
    case Advance(saved) =>
      if w.process.Some? {
        AdvanceSendsNoZero(cfg, w, w.process.value, saved);
      }
    case Attempt(_, _) =>
      if w.process.Some? && CurrentTx(cfg, w.process.value.pc).Some? {
        NoZeroIsHarmless(w.chain, CurrentTx(cfg, w.process.value.pc).value);
      }
  }

  /** Whatever happens to the runner: its transactions never count a quote or a pair twice. */
  lemma {:induction false} RunExactlyOnce(cfg: Config, w: World, events: seq<Event>)
    requires cfg.chunkSize > 0 && ExactlyOnce(w.chain) && SendsNoZero(w)
    ensures ExactlyOnce(Run(cfg, w, events).chain) && SendsNoZero(Run(cfg, w, events))
    decreases |events|
  {
    if |events| > 0 {
      RunExactlyOnce(cfg, w, events[..|events| - 1]);
      StepExactlyOnce(cfg, Run(cfg, w, events[..|events| - 1]), events[|events| - 1]);
    }
  }

  // ---- Main results ----

  /**
   Whatever crashes, retries, lost saves and late transactions happen: with at least one
   confirmation and only safe starts, a reported success means everything is migrated, and at every
   moment each migrated quote and pair has had its effect exactly once.
   */
  lemma SuccessMeansComplete(cfg: Config, c: Chain, events: seq<Event>)
    requires cfg.chunkSize > 0 && cfg.confirmations > 0 && ExactlyOnce(c)
    requires SafeRun(cfg, Initial(c), events)
    ensures var w := Run(cfg, Initial(c), events);
            && ExactlyOnce(w.chain)
            && (w.process.Some? && w.process.value.pc == Succeeded ==> Complete(cfg, w.chain))
  {
    RunIsSound(cfg, Initial(c), events);
    RunExactlyOnce(cfg, Initial(c), events);
  }

  /** Without the pre-check no condition on the starts is left. */
  lemma SkippingThePreCheckIsAlwaysSafe(cfg: Config, c: Chain, events: seq<Event>)
    requires cfg.chunkSize > 0 && cfg.confirmations > 0 && ExactlyOnce(c) && cfg.skipPreCheck
    ensures var w := Run(cfg, Initial(c), events);
            w.process.Some? && w.process.value.pc == Succeeded ==> Complete(cfg, w.chain)
  {
    SuccessMeansComplete(cfg, c, events);
  }

  lemma {:induction false} RunConcat(cfg: Config, w: World, a: seq<Event>, b: seq<Event>)
    requires cfg.chunkSize > 0
    ensures Run(cfg, w, a + b) == Run(cfg, Run(cfg, w, a), b)
  {
    if |b| == 0 {
      assert a + b == a;
    } else {
      RunConcat(cfg, w, a, b[..|b| - 1]);
      assert (a + b)[..|a + b| - 1] == a + b[..|b| - 1];
    }
  }

  lemma RunSnoc(cfg: Config, w: World, events: seq<Event>, e: Event)
    requires cfg.chunkSize > 0
    ensures Run(cfg, w, events + [e]) == Step(cfg, Run(cfg, w, events), e)
  {
    assert (events + [e])[..|events|] == events;
  }
}
