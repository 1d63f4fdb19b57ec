/**
 The resumable migration runner against an adversarial world: transactions that fail, land late or
 never, a progress file that may not be written or may be lost, and crashes at any point.
 */
module MigrationRun {
  import opened Collections
  import opened Diamond
  import opened MigrationContract

  // ---- Input ----

  datatype Task = Task(partyB: Address, partyAs: seq<Address>)

  ghost predicate OneTaskPerPartyB(tasks: seq<Task>) {
    forall i, j :: 0 <= i < j < |tasks| ==> tasks[i].partyB != tasks[j].partyB
  }

  datatype Config = Config(quoteIds: seq<nat>, tasks: seq<Task>, chunkSize: nat, skipPreCheck: bool, confirmations: nat)

  /** The distinct non-zero addresses, in order of first occurrence. */
  function Dedup(addresses: seq<Address>): seq<Address> {
    if |addresses| == 0 then []
    else
      var last := addresses[|addresses| - 1];
      var unique := Dedup(addresses[..|addresses| - 1]);
      if last == ZERO_ADDRESS || last in unique then unique else unique + [last]
  }

  lemma {:induction false} DedupMembers(addresses: seq<Address>)
    ensures Distinct(Dedup(addresses))
    ensures forall a :: a in Dedup(addresses) <==> a in addresses && a != ZERO_ADDRESS
  {
    if |addresses| > 0 {
      DedupMembers(addresses[..|addresses| - 1]);
      assert addresses == addresses[..|addresses| - 1] + [addresses[|addresses| - 1]];
    }
  }

  method DeduplicateAddresses(addresses: seq<Address>) returns (unique: seq<Address>)
    ensures unique == Dedup(addresses)
    ensures Distinct(unique)
    ensures forall a :: a in unique <==> a in addresses && a != ZERO_ADDRESS
  {
    var seen: set<Address> := {};
    unique := [];
    for i := 0 to |addresses|
      invariant unique == Dedup(addresses[..i])
      invariant forall a :: a in seen <==> a in unique
    {
      assert addresses[..i + 1][..i] == addresses[..i];
      var address := addresses[i];
      if address == ZERO_ADDRESS {
        continue;
      }
      if address !in seen {
        seen := seen + {address};
        unique := unique + [address];
      }
    }
    assert addresses[..|addresses|] == addresses;
    DedupMembers(addresses);
  }

  // ---- The runner's pre-checks ----

  /** Statuses the script considers worth sending. */
  predicate MigratableStatus(status: nat) {
    status in {0, 1, 2, 4, 5, 6}
  }

  function PendingQuotes(c: Chain, ids: seq<nat>): seq<nat> {
    if |ids| == 0 then []
    else
      (if ids[0] !in c.quoteMigrated && MigratableStatus(c.QuoteAt(ids[0]).status) then [ids[0]] else [])
      + PendingQuotes(c, ids[1..])
  }

  function PendingPairs(c: Chain, partyB: Address, partyAs: seq<Address>): seq<Address> {
    if |partyAs| == 0 then []
    else
      (if Pair(partyB, partyAs[0]) !in c.pairMigrated then [partyAs[0]] else [])
      + PendingPairs(c, partyB, partyAs[1..])
  }

  /** The pre-check keeps the quotes with one of six statuses that are not migrated, and drops only what is done. */
  lemma {:induction false} PendingQuotesMembers(c: Chain, ids: seq<nat>)
    ensures forall id :: id in PendingQuotes(c, ids) <==>
                         id in ids && id !in c.quoteMigrated && c.QuoteAt(id).status in {0, 1, 2, 4, 5, 6}
    ensures forall id :: id in ids ==> id in PendingQuotes(c, ids) || QuoteDone(c, id)
  {
    if |ids| > 0 {
      PendingQuotesMembers(c, ids[1..]);
      assert ids == [ids[0]] + ids[1..];
    }
  }

  lemma {:induction false} PendingPairsMembers(c: Chain, partyB: Address, partyAs: seq<Address>)
    ensures forall a :: a in PendingPairs(c, partyB, partyAs) ==> a in partyAs && Pair(partyB, a) !in c.pairMigrated
    ensures forall a :: a in partyAs ==> a in PendingPairs(c, partyB, partyAs) || Pair(partyB, a) in c.pairMigrated
  {
    if |partyAs| > 0 {
      PendingPairsMembers(c, partyB, partyAs[1..]);
      assert partyAs == [partyAs[0]] + partyAs[1..];
    }
  }

  // ---- The machine ----

  datatype Phase = QuotesPhase | BalancesPhase | CompletePhase

  datatype Progress = Progress(phase: Phase, lastQuoteChunk: int, lastPartyB: int, lastPartyAChunk: int)

  const FRESH := Progress(QuotesPhase, -1, -1, -1)

  datatype Tx = QuoteTx(ids: seq<nat>) | PairTx(partyB: Address, partyAs: seq<Address>)

  /** Where a running process is: between operations, or done with a success report. */
  datatype Pc =
    | AtQuoteChunk(quoteChunks: seq<seq<nat>>, i: int)
    | AtPartyB(b: int, startB: int)
    | AtPartyAChunk(b: int, startB: int, partyAChunks: seq<seq<Address>>, j: int)
    | Succeeded

  datatype Process = Process(progress: Progress, pc: Pc)

  /** The chain, transactions sent but not mined, the progress file, and the running process. */
  datatype World = World(chain: Chain, mempool: seq<Tx>, file: Option<Progress>, process: Option<Process>)

  datatype TxOutcome = NotSent | Unconfirmed | Mined

  datatype Event =
    | Start                                    // a process starts and loads the progress file
    | Advance(saved: bool)                     // the next step that sends nothing
    | Attempt(outcome: TxOutcome, saved: bool) // one attempt at the current operation
    | Stop                                     // crash, kill, or giving up after the last retry
    | Land(k: nat)                             // a transaction left in the mempool is mined after all
    | LoseFile                                 // the progress file is deleted or left unreadable

  /** Executing a transaction; a revert changes nothing. */
  function Mine(c: Chain, tx: Tx): Chain {
    match tx
    case QuoteTx(ids) => (match MigrateQuotes(c, ids) case None => c case Some(c') => c')
    case PairTx(partyB, partyAs) => MigratePairs(c, partyB, partyAs)
  }

  predicate Reverts(c: Chain, tx: Tx) {
    tx.QuoteTx? && MigrateQuotes(c, tx.ids).None?
  }

  function StartPc(cfg: Config, c: Chain, p: Progress): Pc
    requires cfg.chunkSize > 0
  {
    match p.phase
    case QuotesPhase =>
      AtQuoteChunk(Chunks(if cfg.skipPreCheck then cfg.quoteIds else PendingQuotes(c, cfg.quoteIds), cfg.chunkSize),
                   p.lastQuoteChunk + 1)
    case BalancesPhase => AtPartyB(p.lastPartyB + 1, p.lastPartyB + 1)
    case CompletePhase => Succeeded
  }

  /** The operation the process is about to send, if it is at one. */
  function CurrentTx(cfg: Config, pc: Pc): Option<Tx> {
    match pc
    case AtQuoteChunk(chunks, i) => if 0 <= i < |chunks| then Some(QuoteTx(chunks[i])) else None
    case AtPartyAChunk(b, _, chunks, j) =>
      if 0 <= j < |chunks| && 0 <= b < |cfg.tasks| then Some(PairTx(cfg.tasks[b].partyB, chunks[j])) else None
    case _ => None
  }

  /** The process after its current operation succeeded. */
  function AfterSuccess(p: Process): Process {
    match p.pc
    case AtQuoteChunk(chunks, i) => Process(p.progress.(lastQuoteChunk := i), AtQuoteChunk(chunks, i + 1))
    case AtPartyAChunk(b, startB, chunks, j) =>
      Process(p.progress.(lastPartyAChunk := j), AtPartyAChunk(b, startB, chunks, j + 1))
    case _ => p
  }

  function FinishPartyB(p: Process, b: int, startB: int): Process {
    Process(p.progress.(lastPartyB := b, lastPartyAChunk := -1), AtPartyB(b + 1, startB))
  }

  /** A step that sends nothing; the flag says whether the process saves its progress with it. */
  function AfterAdvance(cfg: Config, c: Chain, p: Process): (Process, bool)
    requires cfg.chunkSize > 0
  {
    match p.pc
    case AtQuoteChunk(chunks, i) =>
      (Process(p.progress.(phase := BalancesPhase), AtPartyB(p.progress.lastPartyB + 1, p.progress.lastPartyB + 1)),
       true)
    case AtPartyB(b, startB) =>
      if !(0 <= b < |cfg.tasks|) then (Process(p.progress.(phase := CompletePhase), Succeeded), true)
      else
        var partyAs := Dedup(cfg.tasks[b].partyAs);
        var pending := if cfg.skipPreCheck then partyAs else PendingPairs(c, cfg.tasks[b].partyB, partyAs);
        if !cfg.skipPreCheck && |pending| == 0 then (FinishPartyB(p, b, startB), true)
        else
          (Process(p.progress, AtPartyAChunk(b, startB, Chunks(pending, cfg.chunkSize),
                                             if b == startB then p.progress.lastPartyAChunk + 1 else 0)), false)
    case AtPartyAChunk(b, startB, chunks, j) => (FinishPartyB(p, b, startB), true)
    case Succeeded => (p, false)
  }

  function Save(w: World, p: Process, saved: bool): World {
    w.(process := Some(p), file := if saved then Some(p.progress) else w.file)
  }

  function RunningStep(cfg: Config, w: World, p: Process, e: Event): World
    requires cfg.chunkSize > 0
  {
    var tx := CurrentTx(cfg, p.pc);
    match e
    case Advance(saved) =>
      if tx.Some? then w
      else if p.pc == Succeeded then w.(process := None, file := if saved then None else w.file)
      else
        var (p', saves) := AfterAdvance(cfg, w.chain, p);
        Save(w, p', saved && saves)
    case Attempt(outcome, saved) =>
      if tx.None? then w
      else
        (match outcome
         case NotSent => w
         case Unconfirmed =>
           var w' := w.(mempool := w.mempool + [tx.value]);
           if cfg.confirmations == 0 then Save(w', AfterSuccess(p), saved) else w'
         case Mined =>
           if Reverts(w.chain, tx.value) then w
           else Save(w.(chain := Mine(w.chain, tx.value)), AfterSuccess(p), saved))
    case _ => w
  }

  function Step(cfg: Config, w: World, e: Event): World
    requires cfg.chunkSize > 0
  {
    match e
    case Start =>
      if w.process.Some? then w
      else
        var p := if w.file.Some? then w.file.value else FRESH;
        w.(process := Some(Process(p, StartPc(cfg, w.chain, p))))
    case Stop => w.(process := None)
    case LoseFile => w.(file := None)
    case Land(k) =>
      if k < |w.mempool|
      then w.(chain := Mine(w.chain, w.mempool[k]), mempool := w.mempool[..k] + w.mempool[k + 1..])
      else w
    case _ => if w.process.None? then w else RunningStep(cfg, w, w.process.value, e)
  }

  function Run(cfg: Config, w: World, events: seq<Event>): World
    requires cfg.chunkSize > 0
  {
    if |events| == 0 then w else Step(cfg, Run(cfg, w, events[..|events| - 1]), events[|events| - 1])
  }

  function Initial(c: Chain): World {
    World(c, [], None, None)
  }

  // ---- What has been achieved ----

  ghost predicate QuotesDone(cfg: Config, c: Chain) {
    forall id :: id in cfg.quoteIds ==> QuoteDone(c, id)
  }

  ghost predicate TaskDone(c: Chain, task: Task) {
    forall a :: a in Dedup(task.partyAs) ==> Pair(task.partyB, a) in c.pairMigrated
  }

  ghost predicate TasksDone(cfg: Config, c: Chain, n: int) {
    forall b :: 0 <= b < n && b < |cfg.tasks| ==> TaskDone(c, cfg.tasks[b])
  }

  /** The migration is complete, with every effect applied exactly once. */
  ghost predicate Complete(cfg: Config, c: Chain) {
    ExactlyOnce(c) && QuotesDone(cfg, c) && TasksDone(cfg, c, |cfg.tasks|)
  }
}
