/** One operation with its retries: what it does for a given list of the world's choices, and when it goes through. */
module MigrationRetries {
  import opened Collections
  import opened Diamond
  import opened MigrationContract
  import opened MigrationRun
  import opened MigrationSafety

  /** The chain, and the transactions sent but not mined. */
  datatype Net = Net(chain: Chain, mempool: seq<Tx>)

  /** What happens to one attempt: which transactions land before it, and what becomes of its own. */
  datatype Try = Try(lands: seq<int>, outcome: TxOutcome)

  /** An index out of range lands nothing. */
  function LandOne(n: Net, k: int): Net {
    if 0 <= k < |n.mempool| then Net(Mine(n.chain, n.mempool[k]), n.mempool[..k] + n.mempool[k + 1..]) else n
  }

  function Landed(n: Net, lands: seq<int>): Net {
    if |lands| == 0 then n else LandOne(Landed(n, lands[..|lands| - 1]), lands[|lands| - 1])
  }

  /** An attempt delivers when it is mined without a revert, or sent where no confirmation is waited for. */
  predicate Delivers(cfg: Config, n: Net, tx: Tx, outcome: TxOutcome) {
    (outcome == Mined && !Reverts(n.chain, tx)) || (outcome == Unconfirmed && cfg.confirmations == 0)
  }

  /** What an attempt that does not deliver leaves: a transaction that nobody saw confirmed may still land. */
  function Undelivered(n: Net, tx: Tx, outcome: TxOutcome): Net {
    if outcome == Unconfirmed then n.(mempool := n.mempool + [tx]) else n
  }

  function AfterDelivery(n: Net, tx: Tx, outcome: TxOutcome): Net {
    if outcome == Mined then n.(chain := Mine(n.chain, tx)) else Undelivered(n, tx, outcome)
  }

  /** The net after `k` attempts that did not deliver. */
  function AfterTries(n: Net, tx: Tx, tries: nat -> Try, k: nat): Net
    decreases k, 0
  {
    if k == 0 then n else Undelivered(AtTry(n, tx, tries, k - 1), tx, tries(k - 1).outcome)
  }

  /** The net at attempt `k`, counted from zero, after what lands before it. */
  function AtTry(n: Net, tx: Tx, tries: nat -> Try, k: nat): Net
    decreases k, 1
  {
    Landed(AfterTries(n, tx, tries, k), tries(k).lands)
  }

  predicate DeliversAt(cfg: Config, n: Net, tx: Tx, tries: nat -> Try, k: nat) {
    Delivers(cfg, AtTry(n, tx, tries, k), tx, tries(k).outcome)
  }

  ghost predicate NoneDelivers(cfg: Config, n: Net, tx: Tx, tries: nat -> Try, k: nat) {
    forall j: nat :: j < k ==> !DeliversAt(cfg, n, tx, tries, j)
  }

  ghost predicate FirstDelivers(cfg: Config, n: Net, tx: Tx, tries: nat -> Try, k: nat) {
    DeliversAt(cfg, n, tx, tries, k) && NoneDelivers(cfg, n, tx, tries, k)
  }

  // ---- When nothing reverts, the choices alone decide ----

  /** The world does its part: the attempt is mined, or sent and nobody waits. */
  predicate Willing(cfg: Config, t: Try) {
    t.outcome == Mined || (t.outcome == Unconfirmed && cfg.confirmations == 0)
  }

  ghost predicate SomeWilling(cfg: Config, tries: nat -> Try, maxRetries: nat) {
    exists k: nat :: k < maxRetries && Willing(cfg, tries(k))
  }

  ghost predicate SomeDelivers(cfg: Config, n: Net, tx: Tx, tries: nat -> Try, maxRetries: nat) {
    exists k: nat :: k < maxRetries && DeliversAt(cfg, n, tx, tries, k)
  }

  /** Nothing of the listed quotes can revert, whichever of them are migrated first. */
  ghost predicate RoomForAll(c: Chain, ids: seq<nat>) {
    (forall id | id in ids :: !Overclosed(c.QuoteAt(id))) && HasRoom(c.records, c.quoteLog + ids)
  }

  ghost predicate ListedQuotes(ids: seq<nat>, tx: Tx) {
    tx.QuoteTx? ==> forall id | id in tx.ids :: id in ids
  }

  /** The net has the stored records, counted once, and only listed quotes are migrated or on their way. */
  ghost predicate NetListed(c: Chain, ids: seq<nat>, n: Net) {
    && ExactlyOnce(n.chain) && n.chain.records == c.records
    && (forall id :: id in n.chain.quoteMigrated ==> id in c.quoteMigrated || id in ids)
    && (forall k :: 0 <= k < |n.mempool| ==> ListedQuotes(ids, n.mempool[k]) && NamesNoZero(n.mempool[k]))
  }

  lemma MineNetListed(c: Chain, ids: seq<nat>, n: Net, tx: Tx)
    requires NetListed(c, ids, n) && ListedQuotes(ids, tx) && NamesNoZero(tx)
    ensures NetListed(c, ids, Net(Mine(n.chain, tx), n.mempool))
  {
    NoZeroIsHarmless(n.chain, tx);
    MineEvolves(n.chain, tx);
    match tx
    case QuoteTx(quoteIds) =>
      if MigrateQuotes(n.chain, quoteIds).Some? {
        MigrateQuotesSettles(n.chain, quoteIds);
      }
    case PairTx(partyB, partyAs) => MigratePairsSettles(n.chain, partyB, partyAs);
  }

  lemma {:induction false} LandedNetListed(c: Chain, ids: seq<nat>, n: Net, lands: seq<int>)
    requires NetListed(c, ids, n)
    ensures NetListed(c, ids, Landed(n, lands))
  {
    if |lands| > 0 {
      LandedNetListed(c, ids, n, lands[..|lands| - 1]);
      var m, k := Landed(n, lands[..|lands| - 1]), lands[|lands| - 1];
      if 0 <= k < |m.mempool| {
        MineNetListed(c, ids, m, m.mempool[k]);
      }
    }
  }

  lemma {:induction false} TriesNetListed(c: Chain, ids: seq<nat>, n: Net, tx: Tx, tries: nat -> Try, k: nat)
    requires NetListed(c, ids, n) && ListedQuotes(ids, tx) && NamesNoZero(tx)
    ensures NetListed(c, ids, AfterTries(n, tx, tries, k)) && NetListed(c, ids, AtTry(n, tx, tries, k))
  {
    if k > 0 {
      TriesNetListed(c, ids, n, tx, tries, k - 1);
    }
    LandedNetListed(c, ids, AfterTries(n, tx, tries, k), tries(k).lands);
  }

  lemma {:induction false} HedgersMembers(quotes: Quotes, log: seq<nat>, a: Address, h: Address)
    ensures h in OpenHedgers(quotes, log, a) <==>
            exists id :: id in log && IsOpen(Stored(quotes, id)) && Stored(quotes, id).partyA == a
                         && Stored(quotes, id).partyB == h
  {
    if |log| > 0 {
      var init, last := log[..|log| - 1], log[|log| - 1];
      ConcatSnoc([], log);
      HedgersMembers(quotes, init, a, h);
      LongerLogHedgers(quotes, init, last, a);
      assert forall id :: id in log <==> id in init || id == last;
    }
  }

  /** Fewer quotes have no more hedgers. */
  lemma RoomForFewer(r: Records, log: seq<nat>, fewer: seq<nat>)
    requires HasRoom(r, log) && forall id | id in fewer :: id in log
    ensures HasRoom(r, fewer)
  {
    forall a
      ensures |Firsts(OpenHedgers(r.quotes, fewer, a))| <= r.connectionLimit
    {
      var x, y := OpenHedgers(r.quotes, fewer, a), OpenHedgers(r.quotes, log, a);
      FirstsMembers(x);
      FirstsMembers(y);
      forall h | h in x
        ensures h in y
      {
        HedgersMembers(r.quotes, fewer, a, h);
        HedgersMembers(r.quotes, log, a, h);
      }
      DistinctSubset(Firsts(x), Firsts(y));
      assert |Firsts(y)| <= r.connectionLimit;
    }
  }

  lemma ListedNeverReverts(c: Chain, ids: seq<nat>, n: Net, tx: Tx)
    requires FlagsAreHistory(c) && RoomForAll(c, ids) && NetListed(c, ids, n) && ListedQuotes(ids, tx)
    ensures !Reverts(n.chain, tx)
  {
    if tx.QuoteTx? {
      BatchRevertsIff(n.chain, tx.ids);
      forall id | id in n.chain.quoteLog + tx.ids
        ensures id in c.quoteLog + ids
      {
        assert id in n.chain.quoteLog ==> id in n.chain.quoteMigrated;
        assert id in c.quoteMigrated ==> id in c.quoteLog;
      }
      RoomForFewer(c.records, c.quoteLog + ids, n.chain.quoteLog + tx.ids);
    }
  }

  /**
   Over the choices alone: when the listed quotes have room, an operation goes through exactly when the world
   is willing at one of the attempts.
   */
  lemma DeliveryIff(cfg: Config, c: Chain, n: Net, tx: Tx, tries: nat -> Try, maxRetries: nat)
    requires FlagsAreHistory(c) && RoomForAll(c, cfg.quoteIds) && NetListed(c, cfg.quoteIds, n)
    requires ListedQuotes(cfg.quoteIds, tx) && NamesNoZero(tx)
    ensures SomeDelivers(cfg, n, tx, tries, maxRetries) <==> SomeWilling(cfg, tries, maxRetries)
  {
    forall k: nat
      ensures DeliversAt(cfg, n, tx, tries, k) <==> Willing(cfg, tries(k))
    {
      TriesNetListed(c, cfg.quoteIds, n, tx, tries, k);
      ListedNeverReverts(c, cfg.quoteIds, AtTry(n, tx, tries, k), tx);
    }
  }

  // ---- The runner's nets ----

  ghost predicate ChunksListed(ids: seq<nat>, chunks: seq<seq<nat>>) {
    forall i :: 0 <= i < |chunks| ==> ListedQuotes(ids, QuoteTx(chunks[i]))
  }

  /** All that is migrated, sent or about to be sent is listed. */
  ghost predicate WorldListed(cfg: Config, c: Chain, w: World) {
    && NetListed(c, cfg.quoteIds, Net(w.chain, w.mempool)) && SendsNoZero(w)
    && (w.process.Some? && w.process.value.pc.AtQuoteChunk? ==>
          ChunksListed(cfg.quoteIds, w.process.value.pc.quoteChunks))
  }

  lemma CurrentIsListed(cfg: Config, c: Chain, w: World)
    requires WorldListed(cfg, c, w) && w.process.Some? && CurrentTx(cfg, w.process.value.pc).Some?
    ensures var tx := CurrentTx(cfg, w.process.value.pc).value;
            ListedQuotes(cfg.quoteIds, tx) && NamesNoZero(tx)
  {
  }

  lemma StartListsQuotes(cfg: Config, c: Chain)
    requires cfg.chunkSize > 0
    ensures var ids := if cfg.skipPreCheck then cfg.quoteIds else PendingQuotes(c, cfg.quoteIds);
            ChunksListed(cfg.quoteIds, Chunks(ids, cfg.chunkSize))
  {
    var ids := if cfg.skipPreCheck then cfg.quoteIds else PendingQuotes(c, cfg.quoteIds);
    PendingQuotesMembers(c, cfg.quoteIds);
    forall i | 0 <= i < |Chunks(ids, cfg.chunkSize)|
      ensures ListedQuotes(cfg.quoteIds, QuoteTx(Chunks(ids, cfg.chunkSize)[i]))
    {
      ChunkMembers(ids, cfg.chunkSize, i);
    }
  }

  lemma StepWorldListed(cfg: Config, c: Chain, w: World, e: Event)
    requires cfg.chunkSize > 0 && WorldListed(cfg, c, w)
    ensures WorldListed(cfg, c, Step(cfg, w, e))
  {
    StepExactlyOnce(cfg, w, e);
    match e
    case Start => StartListsQuotes(cfg, w.chain);
    case Stop =>
    case LoseFile =>
    case Land(k) =>
      if k < |w.mempool| {
        MineNetListed(c, cfg.quoteIds, Net(w.chain, w.mempool), w.mempool[k]);
      }
    case Advance(_) =>
    case Attempt(_, _) =>
      if w.process.Some? && CurrentTx(cfg, w.process.value.pc).Some? {
        CurrentIsListed(cfg, c, w);
        MineNetListed(c, cfg.quoteIds, Net(w.chain, w.mempool), CurrentTx(cfg, w.process.value.pc).value);
      }
  }

  lemma {:induction false} RunWorldListed(cfg: Config, c: Chain, w: World, events: seq<Event>)
    requires cfg.chunkSize > 0 && WorldListed(cfg, c, w)
    ensures WorldListed(cfg, c, Run(cfg, w, events))
    decreases |events|
  {
    if |events| > 0 {
      RunWorldListed(cfg, c, w, events[..|events| - 1]);
      StepWorldListed(cfg, c, Run(cfg, w, events[..|events| - 1]), events[|events| - 1]);
    }
  }
}
