/** The post-migration verification, and why a completed migration of prepared input passes it. */
module MigrationVerify {
  import opened Collections
  import opened Diamond
  import opened MigrationContract
  import opened MigrationRun
  import opened MigrationSafety
  import opened MigrationResume
  import opened MigrationInput

  // ---- verifyMigration ----

  datatype VerifyError =
    | QuoteNotMigrated(id: nat) | PartyBNotMigrated(partyB: Address)
    | LockedMismatch(partyB: Address) | PendingLockedMismatch(partyB: Address)
    | LongMismatch(key: AggregateKey) | ShortMismatch(key: AggregateKey)

  function SumBalances(c: Chain, partyB: Address, partyAs: seq<Address>): Locked {
    if |partyAs| == 0 then NothingLocked()
    else SumBalances(c, partyB, partyAs[..|partyAs| - 1]).Plus(c.BalanceOf(Pair(partyB, partyAs[|partyAs| - 1])))
  }

  /** A listed quote may only be left out when its status says there is nothing to migrate. */
  predicate QuotePasses(c: Chain, id: nat) {
    id in c.quoteMigrated || !MigratableStatus(c.QuoteAt(id).status)
  }

  /** Only the first counterparty's flag is checked; the sums have to speak for the others. */
  predicate TaskPasses(c: Chain, task: Task) {
    && (|task.partyAs| == 0 || Pair(task.partyB, task.partyAs[0]) in c.pairMigrated)
    && SumBalances(c, task.partyB, task.partyAs) == c.CrossLocked(task.partyB)
  }

  function OnChain(c: Chain, k: AggregateKey): Aggregate {
    Aggregate(c.totals.Amount(Key(k.partyB, k.partyA, k.symbolId, Long)),
              c.totals.Amount(Key(k.partyB, k.partyA, k.symbolId, Short)))
  }

  method CheckTask(c: Chain, task: Task) returns (error: Option<VerifyError>)
    ensures error == None <==> TaskPasses(c, task)
  {
    if |task.partyAs| > 0 && Pair(task.partyB, task.partyAs[0]) !in c.pairMigrated {
      return Some(PartyBNotMigrated(task.partyB));
    }
    var expected := NothingLocked();
    for i := 0 to |task.partyAs|
      invariant expected == SumBalances(c, task.partyB, task.partyAs[..i])
    {
      assert task.partyAs[..i + 1][..i] == task.partyAs[..i];
      var info := c.BalanceOf(Pair(task.partyB, task.partyAs[i]));
      expected := Locked(expected.locked.Plus(info.locked), expected.pending.Plus(info.pending));
    }
    assert task.partyAs[..|task.partyAs|] == task.partyAs;
    var cross := c.CrossLocked(task.partyB);
    if expected.locked != cross.locked {
      return Some(LockedMismatch(task.partyB));
    }
    if expected.pending != cross.pending {
      return Some(PendingLockedMismatch(task.partyB));
    }
    return None;
  }

  /** The first listed quote that does not pass. */
  function FirstFailing(c: Chain, ids: seq<nat>): Option<nat> {
    if |ids| == 0 then None
    else if !QuotePasses(c, ids[0]) then Some(ids[0])
    else FirstFailing(c, ids[1..])
  }

  lemma {:induction false} NoneFailsIff(c: Chain, ids: seq<nat>)
    ensures FirstFailing(c, ids) == None <==> forall id | id in ids :: QuotePasses(c, id)
  {
    if |ids| > 0 {
      NoneFailsIff(c, ids[1..]);
      assert ids == [ids[0]] + ids[1..];
    }
  }

  method CheckQuotes(c: Chain, ids: seq<nat>) returns (error: Option<VerifyError>)
    ensures error == if FirstFailing(c, ids).Some? then Some(QuoteNotMigrated(FirstFailing(c, ids).value)) else None
  {
    for i := 0 to |ids|
      invariant FirstFailing(c, ids) == FirstFailing(c, ids[i..])
    {
      assert ids[i..][1..] == ids[i + 1..];
      if ids[i] !in c.quoteMigrated {
        if !MigratableStatus(c.QuoteAt(ids[i]).status) {
          continue;
        }
        return Some(QuoteNotMigrated(ids[i]));
      }
    }
    return None;
  }

  method CheckTasks(c: Chain, tasks: seq<Task>) returns (error: Option<VerifyError>)
    ensures error == None <==> forall i :: 0 <= i < |tasks| ==> TaskPasses(c, tasks[i])
  {
    for i := 0 to |tasks|
      invariant forall j :: 0 <= j < i ==> TaskPasses(c, tasks[j])
    {
      error := CheckTask(c, tasks[i]);
      if error.Some? {
        return;
      }
    }
    return None;
  }

  method CheckAggregates(c: Chain, expected: JsMap<AggregateKey, Aggregate>) returns (error: Option<VerifyError>)
    requires expected.Valid()
    ensures error == None <==> forall k | k in expected.at :: OnChain(c, k) == expected.at[k]
  {
    var order := expected.order;
    for i := 0 to |order|
      invariant forall j :: 0 <= j < i ==> OnChain(c, order[j]) == expected.at[order[j]]
    {
      var actual, want := OnChain(c, order[i]), expected.at[order[i]];
      if actual.long != want.long {
        return Some(LongMismatch(order[i]));
      }
      if actual.short != want.short {
        return Some(ShortMismatch(order[i]));
      }
    }
    return None;
  }

  method VerifyMigration(c: Chain, ids: seq<nat>, tasks: seq<Task>, expected: Option<JsMap<AggregateKey, Aggregate>>)
      returns (error: Option<VerifyError>)
    requires expected.Some? ==> expected.value.Valid()
    ensures error == None <==>
            && (forall id | id in ids :: QuotePasses(c, id))
            && (forall i :: 0 <= i < |tasks| ==> TaskPasses(c, tasks[i]))
            && (expected.Some? ==> forall k | k in expected.value.at :: OnChain(c, k) == expected.value.at[k])
    ensures FirstFailing(c, ids).Some? ==> error == Some(QuoteNotMigrated(FirstFailing(c, ids).value))
  {
    NoneFailsIff(c, ids);
    error := CheckQuotes(c, ids);
    if error.None? {
      error := CheckTasks(c, tasks);
    }
    if error.None? && expected.Some? {
      error := CheckAggregates(c, expected.value);
    }
  }

  // ---- Cross-locked values ----

  lemma {:induction false} LockedWithout(balances: Balances, pairs: seq<Pair>, i: nat, b: Address)
    requires i < |pairs| && pairs[i].partyB == b && pairs[i].partyA != ZERO_ADDRESS
    ensures SumLocked(balances, pairs, b) ==
            SumLocked(balances, pairs[..i] + pairs[i + 1..], b).Plus(Balance(balances, pairs[i]))
    decreases |pairs|
  {
    var n := |pairs| - 1;
    var init, last := pairs[..n], pairs[n];
    assert pairs == init + [last];
    LongerPairLog(balances, init, last, b);
    if i == n {
      assert pairs[..i] + pairs[i + 1..] == init;
    } else {
      var less := init[..i] + init[i + 1..];
      LockedWithout(balances, init, i, b);
      assert pairs[..i] + pairs[i + 1..] == less + [last];
      LongerPairLog(balances, less, last, b);
      PlusSwaps(SumLocked(balances, less, b), Balance(balances, pairs[i]), Balance(balances, last));
    }
  }

  lemma PlusSwaps(a: Locked, x: Locked, y: Locked)
    ensures a.Plus(x).Plus(y) == a.Plus(y).Plus(x)
  {
  }

  lemma {:induction false} NothingFor(balances: Balances, pairs: seq<Pair>, b: Address)
    requires forall p | p in pairs :: p.partyB != b || p.partyA == ZERO_ADDRESS
    ensures SumLocked(balances, pairs, b) == NothingLocked()
  {
    if |pairs| > 0 {
      assert pairs[|pairs| - 1] in pairs;
      NothingFor(balances, pairs[..|pairs| - 1], b);
    }
  }

  /** The hedger's pairs in the log, the bucket aside, are those with these counterparties. */
  ghost predicate PairsOf(log: seq<Pair>, partyB: Address, partyAs: seq<Address>) {
    && Distinct(log) && Distinct(partyAs) && ZERO_ADDRESS !in partyAs
    && (forall a | a in partyAs :: Pair(partyB, a) in log)
    && (forall p | p in log && p.partyB == partyB && p.partyA != ZERO_ADDRESS :: p.partyA in partyAs)
  }

  lemma PairsOfFewer(log: seq<Pair>, partyB: Address, partyAs: seq<Address>, i: nat)
    requires PairsOf(log, partyB, partyAs) && |partyAs| > 0
    requires i < |log| && log[i] == Pair(partyB, partyAs[|partyAs| - 1])
    ensures PairsOf(log[..i] + log[i + 1..], partyB, partyAs[..|partyAs| - 1])
  {
    var init, last := partyAs[..|partyAs| - 1], partyAs[|partyAs| - 1];
    WithoutMembers(log, i);
    assert partyAs == init + [last];
    DistinctSnoc(init, last);
    assert forall x :: x in partyAs <==> x in init || x == last;
  }

  /** A hedger's cross bucket is the sum over its counterparties when exactly those were migrated. */
  lemma {:induction false} CrossLockedMatches(c: Chain, log: seq<Pair>, partyB: Address, partyAs: seq<Address>)
    requires PairsOf(log, partyB, partyAs)
    ensures SumLocked(c.balances, log, partyB) == SumBalances(c, partyB, partyAs)
    decreases |partyAs|
  {
    if |partyAs| == 0 {
      NothingFor(c.balances, log, partyB);
    } else {
      var n := |partyAs| - 1;
      assert partyAs[n] in partyAs;
      var i :| 0 <= i < |log| && log[i] == Pair(partyB, partyAs[n]);
      PairsOfFewer(log, partyB, partyAs, i);
      LockedWithout(c.balances, log, i, partyB);
      CrossLockedMatches(c, log[..i] + log[i + 1..], partyB, partyAs[..n]);
    }
  }

  // ---- Only what was listed is migrated ----

  ghost predicate ListedPair(cfg: Config, p: Pair) {
    exists b :: 0 <= b < |cfg.tasks| && cfg.tasks[b].partyB == p.partyB && p.partyA in Dedup(cfg.tasks[b].partyAs)
  }

  ghost predicate ListedTx(cfg: Config, tx: Tx) {
    match tx
    case QuoteTx(ids) => forall id | id in ids :: id in cfg.quoteIds
    case PairTx(partyB, partyAs) => forall a | a in partyAs :: ListedPair(cfg, Pair(partyB, a))
  }

  ghost predicate ListedChain(cfg: Config, c: Chain) {
    ExactlyOnce(c) && OnlyListed(c, cfg.quoteIds) && forall p | p in c.pairMigrated :: ListedPair(cfg, p)
  }

  /** Nothing outside the input is migrated, in flight or about to be sent. */
  ghost predicate OnlyInput(cfg: Config, w: World) {
    && ListedChain(cfg, w.chain)
    && (forall k :: 0 <= k < |w.mempool| ==> ListedTx(cfg, w.mempool[k]))
    && (w.process.Some? ==>
          match w.process.value.pc
          case AtQuoteChunk(chunks, _) => forall i :: 0 <= i < |chunks| ==> ListedTx(cfg, QuoteTx(chunks[i]))
          case AtPartyAChunk(b, _, chunks, _) =>
            && 0 <= b < |cfg.tasks|
            && forall j :: 0 <= j < |chunks| ==> ListedTx(cfg, PairTx(cfg.tasks[b].partyB, chunks[j]))
          case _ => true)
  }

  lemma NoZeroListed(cfg: Config, partyB: Address, partyAs: seq<Address>)
    requires ListedTx(cfg, PairTx(partyB, partyAs))
    ensures ZERO_ADDRESS !in partyAs
  {
    if ZERO_ADDRESS in partyAs {
      assert ListedPair(cfg, Pair(partyB, ZERO_ADDRESS));
      var b :| 0 <= b < |cfg.tasks| && cfg.tasks[b].partyB == partyB && ZERO_ADDRESS in Dedup(cfg.tasks[b].partyAs);
      DedupMembers(cfg.tasks[b].partyAs);
      assert false;
    }
  }

  lemma MineListed(cfg: Config, c: Chain, tx: Tx)
    requires ListedChain(cfg, c) && ListedTx(cfg, tx)
    ensures ListedChain(cfg, Mine(c, tx))
  {
    match tx
    case QuoteTx(ids) =>
      if MigrateQuotes(c, ids).Some? {
        MigrateQuotesSettles(c, ids);
        MigrateQuotesExactlyOnce(c, ids);
      }
    case PairTx(partyB, partyAs) =>
      NoZeroListed(cfg, partyB, partyAs);
      MigratePairsSettles(c, partyB, partyAs);
      MigratePairsExactlyOnce(c, partyB, partyAs);
  }

  lemma StartListed(cfg: Config, w: World)
    requires cfg.chunkSize > 0 && OnlyInput(cfg, w)
    ensures OnlyInput(cfg, Step(cfg, w, Start))
  {
    var ids := if cfg.skipPreCheck then cfg.quoteIds else PendingQuotes(w.chain, cfg.quoteIds);
    PendingQuotesMembers(w.chain, cfg.quoteIds);
    forall i | 0 <= i < |Chunks(ids, cfg.chunkSize)|
      ensures ListedTx(cfg, QuoteTx(Chunks(ids, cfg.chunkSize)[i]))
    {
      ChunkMembers(ids, cfg.chunkSize, i);
    }
  }

  lemma AdvanceListed(cfg: Config, w: World, p: Process, saved: bool)
    requires cfg.chunkSize > 0 && OnlyInput(cfg, w) && w.process == Some(p)
    ensures OnlyInput(cfg, RunningStep(cfg, w, p, Advance(saved)))
  {
    if p.pc.AtPartyB? && 0 <= p.pc.b < |cfg.tasks| {
      var b := p.pc.b;
      var partyB, partyAs := cfg.tasks[b].partyB, Dedup(cfg.tasks[b].partyAs);
      var pending := if cfg.skipPreCheck then partyAs else PendingPairs(w.chain, partyB, partyAs);
      PendingPairsMembers(w.chain, partyB, partyAs);
      forall j | 0 <= j < |Chunks(pending, cfg.chunkSize)|
        ensures ListedTx(cfg, PairTx(partyB, Chunks(pending, cfg.chunkSize)[j]))
      {
        ChunkMembers(pending, cfg.chunkSize, j);
        forall a | a in Chunks(pending, cfg.chunkSize)[j]
          ensures ListedPair(cfg, Pair(partyB, a))
        {
          assert cfg.tasks[b].partyB == partyB && a in Dedup(cfg.tasks[b].partyAs);
        }
      }
    }
  }

  lemma StepListed(cfg: Config, w: World, e: Event)
    requires cfg.chunkSize > 0 && OnlyInput(cfg, w)
    ensures OnlyInput(cfg, Step(cfg, w, e))
  {
    match e
    case Start => StartListed(cfg, w);
    case Stop =>
    case LoseFile =>
    case Land(k) =>
      if k < |w.mempool| {
        MineListed(cfg, w.chain, w.mempool[k]);
      }
    case Advance(saved) =>
      if w.process.Some? {
        AdvanceListed(cfg, w, w.process.value, saved);
      }
    case Attempt(_, _) =>
      if w.process.Some? && CurrentTx(cfg, w.process.value.pc).Some? {
        MineListed(cfg, w.chain, CurrentTx(cfg, w.process.value.pc).value);
      }
  }

  lemma {:induction false} RunMigratesOnlyInput(cfg: Config, w: World, events: seq<Event>)
    requires cfg.chunkSize > 0 && OnlyInput(cfg, w)
    ensures OnlyInput(cfg, Run(cfg, w, events))
    decreases |events|
  {
    if |events| > 0 {
      var before := events[..|events| - 1];
      RunMigratesOnlyInput(cfg, w, before);
      StepListed(cfg, Run(cfg, w, before), events[|events| - 1]);
    }
  }

  // ---- What the check of a task finds ----

  function MigratedOf(c: Chain, partyB: Address, partyAs: seq<Address>): seq<Address> {
    if |partyAs| == 0 then []
    else
      var init, last := partyAs[..|partyAs| - 1], partyAs[|partyAs| - 1];
      MigratedOf(c, partyB, init) + if Pair(partyB, last) in c.pairMigrated then [last] else []
  }

  /** What the counterparties that are not migrated have locked with the hedger. */
  function Missing(c: Chain, partyB: Address, partyAs: seq<Address>): Locked {
    if |partyAs| == 0 then NothingLocked()
    else
      var rest, p := Missing(c, partyB, partyAs[..|partyAs| - 1]), Pair(partyB, partyAs[|partyAs| - 1]);
      if p in c.pairMigrated then rest else rest.Plus(c.BalanceOf(p))
  }

  lemma {:induction false} MigratedOfMembers(c: Chain, partyB: Address, partyAs: seq<Address>)
    ensures forall a :: a in MigratedOf(c, partyB, partyAs) <==> a in partyAs && Pair(partyB, a) in c.pairMigrated
    ensures Distinct(partyAs) ==> Distinct(MigratedOf(c, partyB, partyAs))
  {
    if |partyAs| > 0 {
      var init, last := partyAs[..|partyAs| - 1], partyAs[|partyAs| - 1];
      MigratedOfMembers(c, partyB, init);
      assert partyAs == init + [last];
      DistinctSnoc(init, last);
      DistinctSnoc(MigratedOf(c, partyB, init), last);
    }
  }

  lemma {:induction false} SumSplits(c: Chain, partyB: Address, partyAs: seq<Address>)
    ensures SumBalances(c, partyB, partyAs) ==
            SumBalances(c, partyB, MigratedOf(c, partyB, partyAs)).Plus(Missing(c, partyB, partyAs))
  {
    if |partyAs| > 0 {
      var init, p := partyAs[..|partyAs| - 1], Pair(partyB, partyAs[|partyAs| - 1]);
      SumSplits(c, partyB, init);
      var done := MigratedOf(c, partyB, init);
      assert MigratedOf(c, partyB, partyAs) == if p in c.pairMigrated then done + [p.partyA] else done;
      SumSnoc(c, partyB, done, p.partyA);
      PlusSwaps(SumBalances(c, partyB, done), Missing(c, partyB, init), c.BalanceOf(p));
      PlusAssociates(SumBalances(c, partyB, done), Missing(c, partyB, init), c.BalanceOf(p));
    }
  }

  lemma SumSnoc(c: Chain, partyB: Address, partyAs: seq<Address>, a: Address)
    ensures SumBalances(c, partyB, partyAs + [a]) == SumBalances(c, partyB, partyAs).Plus(c.BalanceOf(Pair(partyB, a)))
  {
    assert (partyAs + [a])[..|partyAs|] == partyAs;
  }

  lemma PlusAssociates(a: Locked, x: Locked, y: Locked)
    ensures a.Plus(x).Plus(y) == a.Plus(x.Plus(y))
  {
  }

  lemma {:induction false} NothingMissingIff(c: Chain, partyB: Address, partyAs: seq<Address>)
    ensures IsEmpty(Missing(c, partyB, partyAs)) <==> AllAddNothing(c, partyB, partyAs)
  {
    if |partyAs| > 0 {
      var init, p := partyAs[..|partyAs| - 1], Pair(partyB, partyAs[|partyAs| - 1]);
      NothingMissingIff(c, partyB, init);
      assert partyAs == init + [p.partyA];
      WeightsAdd(Missing(c, partyB, init), c.BalanceOf(p));
    }
  }

  lemma SumUnchangedIff(a: Locked, b: Locked)
    ensures a.Plus(b) == a <==> IsEmpty(b)
  {
    WeightsAdd(a, b);
  }

  /** The first counterparty is migrated, and no other that is not has anything locked. */
  ghost predicate NothingMissed(c: Chain, task: Task) {
    && (|task.partyAs| > 0 ==> Pair(task.partyB, task.partyAs[0]) in c.pairMigrated)
    && (forall a | a in task.partyAs ::
          Pair(task.partyB, a) in c.pairMigrated || IsEmpty(c.BalanceOf(Pair(task.partyB, a))))
  }

  /** The bucket holds what was migrated, so what the sum has beyond it is what was not. */
  lemma BucketTells(c: Chain, task: Task)
    requires BucketIs(c, task.partyB)
    requires PairsOf(c.pairLog, task.partyB, MigratedOf(c, task.partyB, task.partyAs))
    ensures SumBalances(c, task.partyB, task.partyAs) == c.CrossLocked(task.partyB) <==>
            AllAddNothing(c, task.partyB, task.partyAs)
  {
    var done := MigratedOf(c, task.partyB, task.partyAs);
    CrossLockedMatches(c, c.pairLog, task.partyB, done);
    SumSplits(c, task.partyB, task.partyAs);
    NothingMissingIff(c, task.partyB, task.partyAs);
    SumUnchangedIff(SumBalances(c, task.partyB, done), Missing(c, task.partyB, task.partyAs));
  }

  /** After any run, finished or not, a task passes exactly when it missed nothing: the bucket check finds omissions. */
  lemma TaskPassesIff(cfg: Config, w: World, events: seq<Event>, b: nat)
    requires cfg.chunkSize > 0 && OnlyInput(cfg, w) && WellFormedTasks(cfg.tasks) && b < |cfg.tasks|
    ensures var c := Run(cfg, w, events).chain; TaskPasses(c, cfg.tasks[b]) <==> NothingMissed(c, cfg.tasks[b])
  {
    RunMigratesOnlyInput(cfg, w, events);
    ListedTaskPassesIff(cfg, Run(cfg, w, events).chain, b);
  }

  lemma ListedTaskPassesIff(cfg: Config, c: Chain, b: nat)
    requires ListedChain(cfg, c) && WellFormedTasks(cfg.tasks) && b < |cfg.tasks|
    ensures TaskPasses(c, cfg.tasks[b]) <==> NothingMissed(c, cfg.tasks[b])
  {
    var task := cfg.tasks[b];
    MigratedAreListed(cfg, c, b);
    assert BucketIs(c, task.partyB);
    BucketTells(c, task);
    EmptyOrMigrated(c, task.partyB, task.partyAs);
  }

  lemma EmptyOrMigrated(c: Chain, partyB: Address, partyAs: seq<Address>)
    ensures AllAddNothing(c, partyB, partyAs) <==>
            forall a | a in partyAs :: Pair(partyB, a) in c.pairMigrated || IsEmpty(c.BalanceOf(Pair(partyB, a)))
  {
  }

  /** What is migrated of a listed hedger are counterparties of its task. */
  lemma MigratedAreListed(cfg: Config, c: Chain, b: nat)
    requires ListedChain(cfg, c) && WellFormedTasks(cfg.tasks) && b < |cfg.tasks|
    ensures PairsOf(c.pairLog, cfg.tasks[b].partyB, MigratedOf(c, cfg.tasks[b].partyB, cfg.tasks[b].partyAs))
  {
    var task := cfg.tasks[b];
    var done := MigratedOf(c, task.partyB, task.partyAs);
    MigratedOfMembers(c, task.partyB, task.partyAs);
    forall p | p in c.pairLog && p.partyB == task.partyB
      ensures p.partyA in done
    {
      ListedInTask(cfg, c, b, p);
    }
    forall a | a in done
      ensures Pair(task.partyB, a) in c.pairLog
    {
      assert Pair(task.partyB, a) in c.pairMigrated;
    }
  }

  lemma ListedInTask(cfg: Config, c: Chain, b: nat, p: Pair)
    requires ListedChain(cfg, c) && WellFormedTasks(cfg.tasks) && b < |cfg.tasks|
    requires p in c.pairLog && p.partyB == cfg.tasks[b].partyB
    ensures p.partyA in cfg.tasks[b].partyAs && p in c.pairMigrated
  {
    assert p in c.pairMigrated;
    var i :| 0 <= i < |cfg.tasks| && cfg.tasks[i].partyB == p.partyB && p.partyA in Dedup(cfg.tasks[i].partyAs);
    assert i == b;
    DedupMembers(cfg.tasks[b].partyAs);
  }

  // ---- A completed migration verifies ----

  lemma CompleteTaskPasses(cfg: Config, c: Chain, b: nat)
    requires ListedChain(cfg, c) && Complete(cfg, c) && WellFormedTasks(cfg.tasks) && b < |cfg.tasks|
    ensures TaskPasses(c, cfg.tasks[b])
  {
    var task := cfg.tasks[b];
    DedupMembers(task.partyAs);
    assert TaskDone(c, task);
    forall a | a in task.partyAs
      ensures Pair(task.partyB, a) in c.pairMigrated
    {
      assert a in Dedup(task.partyAs);
    }
    ListedTaskPassesIff(cfg, c, b);
  }

  /**
   A quote that the verifier expects to be migrated but the contract has nothing to do for: it was never
   stored, or it is open by its status and closed in full.
   */
  predicate Phantom(q: Quote) {
    || (q.partyA == ZERO_ADDRESS && MigratableStatus(q.status))
    || (q.status in {4, 5, 6} && q.quantity == q.closedAmount)
  }

  lemma PhantomIff(q: Quote)
    ensures Phantom(q) <==> TreatmentOf(q) == Skip && MigratableStatus(q.status)
  {
  }

  /** What a successful safe run leaves of the listed quotes: they verify exactly when none of them is a phantom. */
  lemma CompletedQuotesVerify(cfg: Config, c: Chain, events: seq<Event>)
    requires cfg.chunkSize > 0 && cfg.confirmations > 0 && ExactlyOnce(c) && SafeRun(cfg, Initial(c), events)
    requires Run(cfg, Initial(c), events).process.Some? && Run(cfg, Initial(c), events).process.value.pc == Succeeded
    ensures var c' := Run(cfg, Initial(c), events).chain;
            forall id | id in cfg.quoteIds :: QuotePasses(c', id) <==> !Phantom(c.QuoteAt(id))
  {
    SuccessMeansComplete(cfg, c, events);
    RunKeepsRecords(cfg, Initial(c), events);
    var c' := Run(cfg, Initial(c), events).chain;
    forall id | id in cfg.quoteIds
      ensures QuotePasses(c', id) <==> !Phantom(c.QuoteAt(id))
    {
      PhantomIff(c.QuoteAt(id));
      assert QuoteDone(c', id);
      assert id in c'.quoteMigrated ==> id in c'.quoteLog;
    }
  }

  /** The aggregates and buckets after a successful safe run on prepared input, and its quotes by the stored records. */
  lemma CompletedRunVerifies(cfg: Config, c: Chain, events: seq<Event>, quotes: seq<SubgraphQuote>)
    requires cfg.chunkSize > 0 && cfg.confirmations > 0 && ListedChain(cfg, c)
    requires SafeRun(cfg, Initial(c), events) && WellFormedTasks(cfg.tasks)
    requires multiset(cfg.quoteIds) == multiset(Ids(quotes)) && Distinct(Ids(quotes))
    requires Run(cfg, Initial(c), events).process.Some? && Run(cfg, Initial(c), events).process.value.pc == Succeeded
    ensures var c' := Run(cfg, Initial(c), events).chain;
            && (forall b :: 0 <= b < |cfg.tasks| ==> TaskPasses(c', cfg.tasks[b]))
            && ((forall id | id in cfg.quoteIds :: QuotePasses(c', id))
                <==> forall id | id in cfg.quoteIds :: !Phantom(c.QuoteAt(id)))
            && (Agrees(quotes, c.records.quotes) ==> forall k :: OnChain(c', k) == SumExpected(quotes, k))
  {
    SuccessMeansComplete(cfg, c, events);
    RunMigratesOnlyInput(cfg, Initial(c), events);
    RunKeepsRecords(cfg, Initial(c), events);
    CompletedQuotesVerify(cfg, c, events);
    var c' := Run(cfg, Initial(c), events).chain;
    if Agrees(quotes, c.records.quotes) {
      forall k
        ensures OnChain(c', k) == SumExpected(quotes, k)
      {
        AggregatesMatch(c', cfg.quoteIds, quotes, k);
      }
    }
    forall b | 0 <= b < |cfg.tasks|
      ensures TaskPasses(c', cfg.tasks[b])
    {
      CompleteTaskPasses(cfg, c', b);
    }
  }

  /**
   Prepare, migrate, verify: after a successful safe run on input prepared from quotes that agree with the chain,
   the verifier finds no error exactly when no listed quote is a phantom.
   */
  method VerifyPrepared(cfg: Config, ghost c: Chain, ghost events: seq<Event>, c': Chain, quotes: seq<SubgraphQuote>,
                        ghost collected: map<Address, set<Address>>)
      returns (error: Option<VerifyError>)
    requires cfg.chunkSize > 0 && cfg.confirmations > 0 && ListedChain(cfg, c) && SafeRun(cfg, Initial(c), events)
    requires var w := Run(cfg, Initial(c), events);
             w.process.Some? && w.process.value.pc == Succeeded && w.chain == c'
    requires multiset(cfg.quoteIds) == multiset(Ids(quotes)) && Distinct(Ids(quotes))
    requires Agrees(quotes, c.records.quotes) && RealParties(quotes)
    requires Collects(quotes, collected) && ListsTasks(collected, cfg.tasks)
    ensures error == None <==> forall id | id in cfg.quoteIds :: !Phantom(c.QuoteAt(id))
  {
    PreparedTasks(quotes, collected, cfg.tasks);
    CompletedRunVerifies(cfg, c, events, quotes);
    var expected := BuildExpectedAggregates(quotes);
    forall k | k in expected.at
      ensures OnChain(c', k) == expected.at[k]
    {
      assert EntryFor(expected, k) == SumExpected(quotes, k);
    }
    error := VerifyMigration(c', cfg.quoteIds, cfg.tasks, Some(expected));
  }

  // ---- A concrete phantom ----

  const EMPTY := Chain(Records(map[], 0), Totals(map[], map[], map[], map[]), map[], {}, {}, [], [])

  /** Quote 9 is listed but was never stored: the migration succeeds, and the verifier reports quote 9. */
  lemma PhantomCounterRun()
    ensures var cfg := Config([9], [], 1, false, 1);
            var w := Run(cfg, Initial(EMPTY), [Start, Attempt(Mined, true), Advance(true), Advance(true)]);
            && ExactlyOnce(EMPTY) && Phantom(EMPTY.QuoteAt(9))
            && w.process.Some? && w.process.value.pc == Succeeded
            && FirstFailing(w.chain, cfg.quoteIds) == Some(9)
  {
    var cfg := Config([9], [], 1, false, 1);
    PhantomSkipped(cfg);
    RunThree(cfg, Initial(EMPTY), Start, Attempt(Mined, true), Advance(true));
    RunSnoc(cfg, Initial(EMPTY), [Start, Attempt(Mined, true), Advance(true)], Advance(true));
    assert [Start, Attempt(Mined, true), Advance(true)] + [Advance(true)] ==
           [Start, Attempt(Mined, true), Advance(true), Advance(true)];
  }

  lemma PhantomSkipped(cfg: Config)
    requires cfg == Config([9], [], 1, false, 1)
    ensures var w2 := Step(cfg, Step(cfg, Initial(EMPTY), Start), Attempt(Mined, true));
            var w4 := Step(cfg, Step(cfg, w2, Advance(true)), Advance(true));
            && w4.process.Some? && w4.process.value.pc == Succeeded && w4.chain == EMPTY
  {
    assert [9][1..] == [];
    assert PendingQuotes(EMPTY, [9]) == [9];
    var w1 := Step(cfg, Initial(EMPTY), Start);
    assert w1.process == Some(Process(FRESH, AtQuoteChunk([[9]], 0)));
    assert MigrateQuotes(EMPTY, [9]) == Some(EMPTY);
    var w2 := Step(cfg, w1, Attempt(Mined, true));
    assert w2.process.value.pc == AtQuoteChunk([[9]], 1) && w2.chain == EMPTY;
    var w3 := Step(cfg, w2, Advance(true));
    assert w3.process.value.pc == AtPartyB(0, 0) && w3.chain == EMPTY;
    assert Step(cfg, w3, Advance(true)).process.value.pc == Succeeded;
  }
}
