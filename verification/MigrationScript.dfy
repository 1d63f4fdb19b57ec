/** The migration script's own loops, run in a world whose choices are arbitrary, refine the machine of MigrationRun. */
module MigrationScript {
  import opened Collections
  import opened Diamond
  import opened MigrationContract
  import opened MigrationRun
  import opened MigrationSafety
  import opened MigrationResume
  import opened MigrationRetries

  /**
   What the world does over the session: to each attempt of each operation, after each operation, and
   whether each access to the progress file works.
   */
  datatype Choices = Choices(tries: nat -> nat -> Try, crash: nat -> bool, writes: nat -> bool)

  datatype Status = Success | Failed | Crashed

  /**
   The migration runner with everything it touches. `events` is the history of what happened; every
   method keeps the real state in step with the machine's run of that history.
   */
  class Session {
    const cfg: Config
    const maxRetries: nat
    const choices: Choices
    ghost const initial: Chain
    var chain: Chain
    var mempool: seq<Tx>
    var file: Option<Progress>
    var operations: nat // how many have been started
    var writes: nat // how often the progress file was to be written or removed
    ghost var events: seq<Event>

    constructor (cfg: Config, maxRetries: nat, choices: Choices, chain: Chain)
      requires cfg.chunkSize > 0
      ensures this.cfg == cfg && this.maxRetries == maxRetries && this.choices == choices
      ensures initial == chain && events == [] && operations == 0 && writes == 0
      ensures Synced(None)
    {
      this.cfg, this.maxRetries, this.choices := cfg, maxRetries, choices;
      this.initial, this.chain := chain, chain;
      mempool, file, operations, writes, events := [], None, 0, 0, [];
    }

    /** The listed quotes have room, the world is willing once per operation, and no process dies. */
    ghost predicate Favourable() {
      && ExactlyOnce(initial) && RoomForAll(initial, cfg.quoteIds)
      && forall k: nat :: SomeWilling(cfg, choices.tries(k), maxRetries) && !choices.crash(k)
    }

    ghost predicate WritesWork() {
      forall k: nat :: choices.writes(k)
    }

    ghost function CurrentNet(): Net
      reads this`chain, this`mempool
    {
      Net(chain, mempool)
    }

    /** The machine, run on the history, is where the real session is; and what could be saved was. */
    ghost predicate Synced(process: Option<Process>)
      reads this
    {
      && cfg.chunkSize > 0
      && Run(cfg, Initial(initial), events) == World(chain, mempool, file, process)
      && (file.Some? ==> IndicesValid(file.value))
      && (WritesWork() ==> AllSaved(events))
    }

    static predicate IndicesValid(p: Progress) {
      p.lastQuoteChunk >= -1 && p.lastPartyB >= -1 && p.lastPartyAChunk >= -1
    }

    /** Transactions left in the mempool may be mined at any await. */
    method Environment(ghost process: Option<Process>)
      requires Synced(process)
      modifies this`chain, this`mempool, this`events
      ensures Synced(process)
    {
      var rounds := |mempool|;
      while rounds > 0
        invariant Synced(process)
        decreases rounds
      {
        var k: int := *;
        LandIfThere(k, process);
        rounds := rounds - 1;
      }
    }

    /** Writing the progress file may fail, and the failure is swallowed. */
    method SaveProgress(progress: Progress) returns (saved: bool)
      modifies this`file, this`writes
      ensures writes == old(writes) + 1 && saved == choices.writes(old(writes))
      ensures file == if saved then Some(progress) else old(file)
    {
      saved := choices.writes(writes);
      writes := writes + 1;
      if saved {
        file := Some(progress);
      }
    }

    /** What the machine's world becomes once a successful operation is recorded, saved or not. */
    ghost predicate Delivered(p: Process, outcome: TxOutcome)
      reads this
    {
      && cfg.chunkSize > 0 && (file.Some? ==> IndicesValid(file.value)) && (WritesWork() ==> AllSaved(events))
      && forall saved :: Step(cfg, Run(cfg, Initial(initial), events), Attempt(outcome, saved))
                         == World(chain, mempool, if saved then Some(AfterSuccess(p).progress) else file,
                                  Some(AfterSuccess(p)))
    }

    method LandIfThere(k: int, ghost process: Option<Process>)
      requires Synced(process)
      modifies this`chain, this`mempool, this`events
      ensures Synced(process) && CurrentNet() == LandOne(old(CurrentNet()), k)
    {
      if 0 <= k < |mempool| {
        RunSnoc(cfg, Initial(initial), events, Land(k));
        chain, mempool := Mine(chain, mempool[k]), mempool[..k] + mempool[k + 1..];
        events := events + [Land(k)];
      }
    }

    /** The transactions that land before an attempt. */
    method LandAll(lands: seq<int>, ghost process: Option<Process>)
      requires Synced(process)
      modifies this`chain, this`mempool, this`events
      ensures Synced(process) && CurrentNet() == Landed(old(CurrentNet()), lands)
    {
      ghost var before := CurrentNet();
      for i := 0 to |lands|
        invariant Synced(process) && CurrentNet() == Landed(before, lands[..i])
      {
        assert lands[..i + 1][..i] == lands[..i];
        LandIfThere(lands[i], process);
      }
      assert lands[..|lands|] == lands;
    }

    /** One attempt, which delivers or leaves at most a transaction on its way. */
    method Try(tx: Tx, ghost p: Process, t: Try) returns (delivered: bool)
      requires Synced(Some(p)) && CurrentTx(cfg, p.pc) == Some(tx)
      modifies this`chain, this`mempool, this`events
      ensures var n := Landed(old(CurrentNet()), t.lands);
              && (delivered <==> Delivers(cfg, n, tx, t.outcome))
              && CurrentNet() == if delivered then AfterDelivery(n, tx, t.outcome) else Undelivered(n, tx, t.outcome)
      ensures if delivered then Delivered(p, t.outcome) else Synced(Some(p))
    {
      LandAll(t.lands, Some(p));
      match t.outcome
      case NotSent =>
        return false;
      case Mined =>
        if Reverts(chain, tx) {
          return false;
        }
        chain := Mine(chain, tx);
        return true;
      case Unconfirmed =>
        if cfg.confirmations > 0 {
          RunSnoc(cfg, Initial(initial), events, Attempt(Unconfirmed, true));
          events := events + [Attempt(Unconfirmed, true)];
        }
        mempool := mempool + [tx];
        return cfg.confirmations == 0;
    }

    /**
     One operation with retries; success leaves its event to be recorded together with the save. It goes
     through exactly when one of the attempts delivers, with the first that does; else all were made.
     */
    method ExecuteOperation(tx: Tx, ghost p: Process) returns (ok: bool, ghost outcome: TxOutcome, attempts: nat)
      requires Synced(Some(p)) && CurrentTx(cfg, p.pc) == Some(tx)
      modifies this`chain, this`mempool, this`operations, this`events
      ensures operations == old(operations) + 1
      ensures var tries, n := choices.tries(old(operations)), old(CurrentNet());
              && (ok <==> SomeDelivers(cfg, n, tx, tries, maxRetries))
              && (ok ==> 0 < attempts <= maxRetries && FirstDelivers(cfg, n, tx, tries, attempts - 1)
                         && outcome == tries(attempts - 1).outcome
                         && CurrentNet() == AfterDelivery(AtTry(n, tx, tries, attempts - 1), tx, outcome))
              && (!ok ==> attempts == maxRetries && CurrentNet() == AfterTries(n, tx, tries, maxRetries))
      ensures if ok then Delivered(p, outcome) else Synced(Some(p))
    {
      ghost var n := CurrentNet();
      var tries := choices.tries(operations);
      operations := operations + 1;
      outcome := NotSent;
      for attempt := 1 to maxRetries + 1
        invariant Synced(Some(p)) && operations == old(operations) + 1
        invariant CurrentNet() == AfterTries(n, tx, tries, attempt - 1)
        invariant NoneDelivers(cfg, n, tx, tries, attempt - 1)
      {
        var delivered := Try(tx, p, tries(attempt - 1));
        assert delivered <==> DeliversAt(cfg, n, tx, tries, attempt - 1);
        if delivered {
          return true, tries(attempt - 1).outcome, attempt;
        }
      }
      return false, NotSent, maxRetries;
    }

    /** In a favourable session every operation goes through. */
    lemma OperationDelivers(tx: Tx, p: Process)
      requires Synced(Some(p)) && CurrentTx(cfg, p.pc) == Some(tx) && Favourable()
      ensures SomeDelivers(cfg, CurrentNet(), tx, choices.tries(operations), maxRetries)
    {
      var w := World(chain, mempool, file, Some(p));
      RunWorldListed(cfg, initial, Initial(initial), events);
      CurrentIsListed(cfg, initial, w);
      DeliveryIff(cfg, initial, CurrentNet(), tx, choices.tries(operations), maxRetries);
    }

    /** Records a delivered operation together with the attempt to save. */
    method Conclude(ghost p: Process, ghost outcome: TxOutcome, progress: Progress)
      requires Delivered(p, outcome) && progress == AfterSuccess(p).progress && IndicesValid(progress)
      modifies this`file, this`writes, this`events
      ensures Synced(Some(AfterSuccess(p)))
    {
      var saved := SaveProgress(progress);
      RunSnoc(cfg, Initial(initial), events, Attempt(outcome, saved));
      events := events + [Attempt(outcome, saved)];
    }

    /** Records a step that sends nothing, with the attempt to save. */
    method Move(ghost p: Process, ghost p': Process, progress: Progress)
      requires Synced(Some(p)) && CurrentTx(cfg, p.pc).None? && p.pc != Succeeded
      requires AfterAdvance(cfg, chain, p) == (p', true) && progress == p'.progress && IndicesValid(progress)
      modifies this`file, this`writes, this`events
      ensures Synced(Some(p'))
    {
      var saved := SaveProgress(progress);
      RunSnoc(cfg, Initial(initial), events, Advance(saved));
      events := events + [Advance(saved)];
    }

    /** Records a step that sends and saves nothing. */
    ghost method Look(p: Process, p': Process)
      requires Synced(Some(p)) && CurrentTx(cfg, p.pc).None? && p.pc != Succeeded
      requires AfterAdvance(cfg, chain, p) == (p', false)
      modifies this`events
      ensures Synced(Some(p'))
    {
      RunSnoc(cfg, Initial(initial), events, Advance(true));
      events := events + [Advance(true)];
    }

    /** The process dies, or gives up. */
    method Die(ghost p: Process)
      requires Synced(Some(p))
      modifies this`events
      ensures Synced(None)
    {
      RunSnoc(cfg, Initial(initial), events, Stop);
      events := events + [Stop];
    }

    method FilterPendingQuotes() returns (pending: seq<nat>)
      ensures pending == PendingQuotes(chain, cfg.quoteIds)
    {
      pending := [];
      for i := 0 to |cfg.quoteIds|
        invariant pending + PendingQuotes(chain, cfg.quoteIds[i..]) == PendingQuotes(chain, cfg.quoteIds)
      {
        var id := cfg.quoteIds[i];
        assert cfg.quoteIds[i..][1..] == cfg.quoteIds[i + 1..];
        if id !in chain.quoteMigrated && MigratableStatus(chain.QuoteAt(id).status) {
          pending := pending + [id];
        }
      }
    }

    method FilterPendingPairs(partyB: Address, partyAs: seq<Address>) returns (pending: seq<Address>)
      ensures pending == PendingPairs(chain, partyB, partyAs)
    {
      pending := [];
      for i := 0 to |partyAs|
        invariant pending + PendingPairs(chain, partyB, partyAs[i..]) == PendingPairs(chain, partyB, partyAs)
      {
        assert partyAs[i..][1..] == partyAs[i + 1..];
        if Pair(partyB, partyAs[i]) !in chain.pairMigrated {
          pending := pending + [partyAs[i]];
        }
      }
    }

    /** One operation and its bookkeeping: giving up ends the process, and so may a crash after the save. */
    method Send(tx: Tx, ghost p: Process, progress: Progress) returns (status: Status)
      requires Synced(Some(p)) && CurrentTx(cfg, p.pc) == Some(tx)
      requires progress == AfterSuccess(p).progress && IndicesValid(progress)
      modifies this
      ensures Synced(if status == Success then Some(AfterSuccess(p)) else None)
      ensures status == Failed <==>
              !SomeDelivers(cfg, old(CurrentNet()), tx, choices.tries(old(operations)), maxRetries)
      ensures Favourable() ==> status == Success
    {
      if Favourable() {
        OperationDelivers(tx, p);
      }
      var ok, outcome, _ := ExecuteOperation(tx, p);
      if !ok {
        Die(p);
        return Failed;
      }
      Conclude(p, outcome, progress);
      if choices.crash(operations - 1) {
        Die(AfterSuccess(p));
        return Crashed;
      }
      return Success;
    }

    /** Phase 1. Returns at the start of phase 2, or with the process gone. */
    method MigrateQuotesPhase(progress0: Progress) returns (progress: Progress, status: Status)
      requires cfg.chunkSize > 0 && progress0.phase == QuotesPhase && IndicesValid(progress0)
      requires Synced(Some(Process(progress0, StartPc(cfg, chain, progress0))))
      modifies this
      ensures status == Success ==>
                IndicesValid(progress) && progress.phase == BalancesPhase
                && Synced(Some(Process(progress, AtPartyB(progress.lastPartyB + 1, progress.lastPartyB + 1))))
      ensures status != Success ==> Synced(None)
      ensures Favourable() ==> status == Success
    {
      progress := progress0;
      var quotesToMigrate := cfg.quoteIds;
      if !cfg.skipPreCheck {
        quotesToMigrate := FilterPendingQuotes();
      }
      var quoteChunks := ChunkArray(quotesToMigrate, cfg.chunkSize);
      var first := progress.lastQuoteChunk + 1;
      progress, status := SendQuoteChunks(progress, quoteChunks, first);
      if status != Success {
        return;
      }
      ghost var p := Process(progress, AtQuoteChunk(quoteChunks, Most(first, |quoteChunks|)));
      progress := progress.(phase := BalancesPhase);
      Move(p, Process(progress, AtPartyB(progress.lastPartyB + 1, progress.lastPartyB + 1)), progress);
    }

    /** The quote chunks from index `first` on. */
    method SendQuoteChunks(progress0: Progress, quoteChunks: seq<seq<nat>>, first: nat)
        returns (progress: Progress, status: Status)
      requires progress0.phase == QuotesPhase && IndicesValid(progress0)
      requires Synced(Some(Process(progress0, AtQuoteChunk(quoteChunks, first))))
      modifies this
      ensures status == Success ==>
                IndicesValid(progress) && progress.phase == QuotesPhase
                && Synced(Some(Process(progress, AtQuoteChunk(quoteChunks,
                                                              Most(first, |quoteChunks|)))))
      ensures status != Success ==> Synced(None)
      ensures Favourable() ==> status == Success
    {
      progress := progress0;
      var i := first;
      while i < |quoteChunks|
        invariant first <= i && (first < |quoteChunks| ==> i <= |quoteChunks|)
        invariant first >= |quoteChunks| ==> i == first
        invariant IndicesValid(progress) && progress.phase == QuotesPhase
        invariant Synced(Some(Process(progress, AtQuoteChunk(quoteChunks, i))))
      {
        ghost var p := Process(progress, AtQuoteChunk(quoteChunks, i));
        status := Send(QuoteTx(quoteChunks[i]), p, progress.(lastQuoteChunk := i));
        if status != Success {
          return;
        }
        progress := progress.(lastQuoteChunk := i);
        i := i + 1;
      }
      status := Success;
    }

    /** One partyB: deduplicate, filter, chunk and send what is left of it. */
    method MigratePartyB(progress0: Progress, b: nat, startPartyB: nat) returns (progress: Progress, status: Status)
      requires progress0.phase == BalancesPhase && IndicesValid(progress0) && b < |cfg.tasks|
      requires Synced(Some(Process(progress0, AtPartyB(b, startPartyB))))
      modifies this
      ensures status == Success ==>
                IndicesValid(progress) && progress.phase == BalancesPhase
                && Synced(Some(Process(progress, AtPartyB(b + 1, startPartyB))))
      ensures status != Success ==> Synced(None)
      ensures Favourable() ==> status == Success
    {
      progress := progress0;
      ghost var p := Process(progress, AtPartyB(b, startPartyB));
      var partyAs := DeduplicateAddresses(cfg.tasks[b].partyAs);
      if !cfg.skipPreCheck {
        partyAs := FilterPendingPairs(cfg.tasks[b].partyB, partyAs);
        if |partyAs| == 0 {
          progress := progress.(lastPartyB := b, lastPartyAChunk := -1);
          Move(p, Process(progress, AtPartyB(b + 1, startPartyB)), progress);
          return progress, Success;
        }
      }
      var partyAChunks := ChunkArray(partyAs, cfg.chunkSize);
      var j := if b == startPartyB then progress.lastPartyAChunk + 1 else 0;
      Look(p, Process(progress, AtPartyAChunk(b, startPartyB, partyAChunks, j)));
      progress, status := SendPartyAChunks(progress, b, startPartyB, partyAChunks, j);
      if status != Success {
        return;
      }
      p := Process(progress, AtPartyAChunk(b, startPartyB, partyAChunks, Most(j, |partyAChunks|)));
      progress := progress.(lastPartyB := b, lastPartyAChunk := -1);
      Move(p, Process(progress, AtPartyB(b + 1, startPartyB)), progress);
    }

    /** The chunks of one partyB from index `first` on. */
    method SendPartyAChunks(progress0: Progress, b: nat, ghost startPartyB: nat,
                            partyAChunks: seq<seq<Address>>, first: nat) returns (progress: Progress, status: Status)
      requires progress0.phase == BalancesPhase && IndicesValid(progress0) && b < |cfg.tasks|
      requires Synced(Some(Process(progress0, AtPartyAChunk(b, startPartyB, partyAChunks, first))))
      modifies this
      ensures status == Success ==>
                IndicesValid(progress) && progress.phase == BalancesPhase
                && Synced(Some(Process(progress,
                                       AtPartyAChunk(b, startPartyB, partyAChunks, Most(first, |partyAChunks|)))))
      ensures status != Success ==> Synced(None)
      ensures Favourable() ==> status == Success
    {
      progress := progress0;
      var j := first;
      while j < |partyAChunks|
        invariant first <= j && (first < |partyAChunks| ==> j <= |partyAChunks|)
        invariant first >= |partyAChunks| ==> j == first
        invariant IndicesValid(progress) && progress.phase == BalancesPhase
        invariant Synced(Some(Process(progress, AtPartyAChunk(b, startPartyB, partyAChunks, j))))
      {
        ghost var p := Process(progress, AtPartyAChunk(b, startPartyB, partyAChunks, j));
        status := Send(PairTx(cfg.tasks[b].partyB, partyAChunks[j]), p, progress.(lastPartyAChunk := j));
        if status != Success {
          return;
        }
        progress := progress.(lastPartyAChunk := j);
        j := j + 1;
      }
      status := Success;
    }

    /** Phase 2. */
    method MigrateBalancesPhase(progress0: Progress) returns (progress: Progress, status: Status)
      requires progress0.phase == BalancesPhase && IndicesValid(progress0)
      requires Synced(Some(Process(progress0, AtPartyB(progress0.lastPartyB + 1, progress0.lastPartyB + 1))))
      modifies this
      ensures status == Success ==> Synced(Some(Process(progress, Succeeded)))
      ensures status != Success ==> Synced(None)
      ensures Favourable() ==> status == Success
    {
      progress := progress0;
      var startPartyB := progress.lastPartyB + 1;
      var b := startPartyB;
      while b < |cfg.tasks|
        invariant 0 <= startPartyB <= b && IndicesValid(progress) && progress.phase == BalancesPhase
        invariant Synced(Some(Process(progress, AtPartyB(b, startPartyB))))
      {
        progress, status := MigratePartyB(progress, b, startPartyB);
        if status != Success {
          return progress, status;
        }
        b := b + 1;
      }
      ghost var p := Process(progress, AtPartyB(b, startPartyB));
      progress := progress.(phase := CompletePhase);
      Move(p, Process(progress, Succeeded), progress);
      status := Success;
    }

    /**
     One invocation of the script, from loading the progress file to deleting it. A success report
     means a complete migration, unless some start of the session resumed unsafely; and in a favourable
     session there is a success report. If it can be written, the file is gone then.
     */
    method Migrate() returns (status: Status)
      requires Synced(None) && cfg.confirmations > 0 && ExactlyOnce(initial)
      modifies this
      ensures Synced(None)
      ensures status == Success && SafeRun(cfg, Initial(initial), events) ==> Complete(cfg, chain)
      ensures Favourable() ==> status == Success
      ensures WritesWork() && status == Success ==> file == None
    {
      var progress := if file.Some? then file.value else FRESH;
      RunSnoc(cfg, Initial(initial), events, Start);
      events := events + [Start];
      status := Success;
      if progress.phase == QuotesPhase {
        progress, status := MigrateQuotesPhase(progress);
        if status != Success {
          return;
        }
      }
      if progress.phase == BalancesPhase {
        progress, status := MigrateBalancesPhase(progress);
        if status != Success {
          return;
        }
      }
      DeleteProgress(progress);
    }

    /** The success report has been made; the progress file is removed if that works. */
    method DeleteProgress(progress: Progress)
      requires Synced(Some(Process(progress, Succeeded))) && cfg.confirmations > 0 && ExactlyOnce(initial)
      modifies this`file, this`writes, this`events
      ensures Synced(None) && (WritesWork() ==> file == None)
      ensures SafeRun(cfg, Initial(initial), events) ==> Complete(cfg, chain)
    {
      ghost var before := events;
      var deleted := choices.writes(writes);
      writes := writes + 1;
      RunSnoc(cfg, Initial(initial), events, Advance(deleted));
      if deleted {
        file := None;
      }
      events := events + [Advance(deleted)];
      if SafeRun(cfg, Initial(initial), events) {
        SafePrefix(cfg, Initial(initial), before, Advance(deleted));
        SuccessMeansComplete(cfg, initial, before);
      }
    }

    /** Restarting the script any number of times, with anything happening in between. */
    method Operate(restarts: nat) returns (status: Status)
      requires Synced(None) && cfg.confirmations > 0 && ExactlyOnce(initial) && cfg.skipPreCheck
      modifies this
      ensures Synced(None)
      ensures status == Success ==> Complete(cfg, chain)
      ensures Favourable() && restarts > 0 ==> status == Success
      ensures WritesWork() && status == Success ==> file == None
    {
      status := Crashed;
      for n := 0 to restarts
        invariant Synced(None)
        invariant status != Success && (Favourable() ==> n == 0)
      {
        Environment(None);
        status := Migrate();
        if status == Success {
          return;
        }
      }
    }
  }

  lemma SafePrefix(cfg: Config, w: World, events: seq<Event>, e: Event)
    requires cfg.chunkSize > 0 && SafeRun(cfg, w, events + [e])
    ensures SafeRun(cfg, w, events)
  {
    forall i | 0 <= i < |events| && events[i] == Start
      ensures SafeStart(cfg, Run(cfg, w, events[..i]).chain, Run(cfg, w, events[..i]).file)
    {
      assert (events + [e])[i] == Start;
      assert (events + [e])[..i] == events[..i];
    }
  }
}
