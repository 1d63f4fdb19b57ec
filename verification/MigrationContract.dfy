/** The on-chain side of the migration: an idempotent backfill of derived state. */
module MigrationContract {
  import opened Collections
  import opened Diamond

  datatype Side = Long | Short

  /** A stored quote; statuses are the contract's enum values 0 (PENDING) to 10 (LIQUIDATED_PENDING). */
  datatype Quote = Quote(partyA: Address, partyB: Address, symbolId: nat, side: Side,
                         quantity: nat, closedAmount: nat, status: nat, openFee: nat)

  datatype Key = Key(partyB: Address, partyA: Address, symbolId: nat, side: Side)
  datatype Pair = Pair(partyB: Address, partyA: Address)

  datatype LockedValues = LockedValues(cva: nat, lf: nat, partyAmm: nat, partyBmm: nat) {
    function Plus(v: LockedValues): LockedValues {
      LockedValues(cva + v.cva, lf + v.lf, partyAmm + v.partyAmm, partyBmm + v.partyBmm)
    }
  }

  function NoValues(): LockedValues {
    LockedValues(0, 0, 0, 0)
  }

  /** Locked and pending-locked values of one bucket. */
  datatype Locked = Locked(locked: LockedValues, pending: LockedValues) {
    function Plus(v: Locked): Locked {
      Locked(locked.Plus(v.locked), pending.Plus(v.pending))
    }
  }

  function NothingLocked(): Locked {
    Locked(NoValues(), NoValues())
  }

  const NO_QUOTE := Quote(ZERO_ADDRESS, ZERO_ADDRESS, 0, Long, 0, 0, 0, 0)

  type Quotes = map<nat, Quote>
  type Balances = map<Pair, Locked>

  /** Mapping lookups: absent entries read as zero. */
  function Stored(quotes: Quotes, id: nat): Quote {
    if id in quotes then quotes[id] else NO_QUOTE
  }

  function Balance(balances: Balances, p: Pair): Locked {
    if p in balances then balances[p] else NothingLocked()
  }

  function CrossOf(partyB: Address): Pair {
    Pair(partyB, ZERO_ADDRESS)
  }

  /** The derived state that the migration backfills. */
  datatype Totals = Totals(
    amounts: map<Key, nat>, reservedFees: map<Address, nat>, positions: map<Address, nat>,
    connections: map<Address, seq<Address>>)
  {
    function Amount(k: Key): nat { if k in amounts then amounts[k] else 0 }
    function ReservedFee(a: Address): nat { if a in reservedFees then reservedFees[a] else 0 }
    function Positions(b: Address): nat { if b in positions then positions[b] else 0 }
    function Connected(a: Address): seq<Address> { if a in connections then connections[a] else [] }
  }

  /** What the migration reads and never changes. */
  datatype Records = Records(quotes: Quotes, connectionLimit: nat)

  /**
   The migrated state. A hedger's cross bucket is the balance it has with the zero address. `quoteLog` and
   `pairLog` are history: the quotes and pairs whose effect was applied, in order. They are not stored by
   the contract and decide nothing.
   */
  datatype Chain = Chain(
    records: Records, totals: Totals, balances: Balances,
    quoteMigrated: set<nat>, pairMigrated: set<Pair>, quoteLog: seq<nat>, pairLog: seq<Pair>)
  {
    function QuoteAt(id: nat): Quote { Stored(records.quotes, id) }
    function BalanceOf(p: Pair): Locked { Balance(balances, p) }
    function CrossLocked(b: Address): Locked { BalanceOf(CrossOf(b)) }
  }

  // ---- migrateQuotes ----

  datatype Treatment = Skip | Reserve | Open | Underflow

  /** What `migrateQuotes` does with a quote that is not migrated yet. */
  function TreatmentOf(q: Quote): Treatment {
    if q.partyA == ZERO_ADDRESS then Skip
    else if q.status == 0 || q.status == 1 || q.status == 2 then Reserve
    else if q.status != 4 && q.status != 5 && q.status != 6 then Skip
    else if q.quantity < q.closedAmount then Underflow
    else if q.quantity == q.closedAmount then Skip
    else Open
  }

  function KeyOf(q: Quote): Key {
    Key(q.partyB, q.partyA, q.symbolId, q.side)
  }

  /** The backfill of one quote; `None` is a revert. */
  function Backfill(t: Totals, q: Quote, limit: nat): Option<Totals> {
    match TreatmentOf(q)
    case Skip => Some(t)
    case Underflow => None
    case Reserve => Some(t.(reservedFees := t.reservedFees[q.partyA := t.ReservedFee(q.partyA) + q.openFee]))
    case Open =>
      if q.partyB !in t.Connected(q.partyA) && |t.Connected(q.partyA)| >= limit then None
      else
        Some(t.(amounts := t.amounts[KeyOf(q) := t.Amount(KeyOf(q)) + (q.quantity - q.closedAmount)],
                positions := t.positions[q.partyB := t.Positions(q.partyB) + 1],
                connections := if q.partyB in t.Connected(q.partyA) then t.connections
                               else t.connections[q.partyA := t.Connected(q.partyA) + [q.partyB]]))
  }

  /** One iteration of the contract's loop. */
  function MigrateQuote(c: Chain, id: nat): Option<Chain> {
    if id in c.quoteMigrated || TreatmentOf(c.QuoteAt(id)) == Skip then Some(c)
    else
      match Backfill(c.totals, c.QuoteAt(id), c.records.connectionLimit)
      case None => None
      case Some(t) => Some(c.(totals := t, quoteMigrated := c.quoteMigrated + {id}, quoteLog := c.quoteLog + [id]))
  }

  function MigrateQuotes(c: Chain, ids: seq<nat>): Option<Chain>
    decreases |ids|
  {
    if |ids| == 0 then Some(c)
    else
      match MigrateQuote(c, ids[0])
      case None => None
      case Some(c') => MigrateQuotes(c', ids[1..])
  }

  // ---- migrateCrossLockedValues ----

  function MigratePair(c: Chain, p: Pair): Chain {
    if p in c.pairMigrated then c
    else
      c.(balances := c.balances[CrossOf(p.partyB) := c.CrossLocked(p.partyB).Plus(c.BalanceOf(p))],
         pairMigrated := c.pairMigrated + {p}, pairLog := c.pairLog + [p])
  }

  function MigratePairs(c: Chain, partyB: Address, partyAs: seq<Address>): Chain
    decreases |partyAs|
  {
    if |partyAs| == 0 then c else MigratePairs(MigratePair(c, Pair(partyB, partyAs[0])), partyB, partyAs[1..])
  }

  // ---- The contract as deployed ----

  class MigrationFacet {
    const records: Records
    var totals: Totals
    var balances: Balances
    var quoteMigrated: set<nat>
    var pairMigrated: set<Pair>
    ghost var quoteLog: seq<nat>
    ghost var pairLog: seq<Pair>

    constructor (records: Records, balances: Balances)
      ensures State() == Chain(records, Totals(map[], map[], map[], map[]), balances, {}, {}, [], [])
    {
      this.records, this.balances := records, balances;
      totals := Totals(map[], map[], map[], map[]);
      quoteMigrated, pairMigrated := {}, {};
      quoteLog, pairLog := [], [];
    }

    ghost function State(): Chain
      reads this
    {
      Chain(records, totals, balances, quoteMigrated, pairMigrated, quoteLog, pairLog)
    }

    /** All quotes of the batch, or none when one of them reverts. */
    method MigrateBatch(quoteIds: seq<nat>) returns (ok: bool, migrated: nat)
      modifies this
      ensures ok == MigrateQuotes(old(State()), quoteIds).Some?
      ensures State() == if ok then MigrateQuotes(old(State()), quoteIds).value else old(State())
      ensures ok ==> migrated == |quoteLog| - |old(quoteLog)|
      ensures ExactlyOnce(old(State())) ==>
                (ok <==> NoneOverclosed(old(State()), quoteIds) && HasRoom(records, old(quoteLog) + quoteIds))
    {
      if ExactlyOnce(State()) {
        BatchRevertsIff(State(), quoteIds);
      }
      var totalsBefore, migratedBefore := totals, quoteMigrated;
      ghost var logBefore := quoteLog;
      migrated := 0;
      for i := 0 to |quoteIds|
        invariant MigrateQuotes(old(State()), quoteIds) == MigrateQuotes(State(), quoteIds[i..])
        invariant migrated == |quoteLog| - |logBefore|
        invariant balances == old(balances) && pairMigrated == old(pairMigrated) && pairLog == old(pairLog)
      {
        assert quoteIds[i..][1..] == quoteIds[i + 1..];
        var id := quoteIds[i];
        if id in quoteMigrated {
          continue;
        }
        var q := Stored(records.quotes, id);
        if TreatmentOf(q) == Skip {
          continue;
        }
        var ok := BackfillOne(q);
        if !ok {
          totals, quoteMigrated, quoteLog := totalsBefore, migratedBefore, logBefore;
          return false, 0;
        }
        quoteMigrated := quoteMigrated + {id};
        quoteLog := quoteLog + [id];
        migrated := migrated + 1;
      }
      return true, migrated;
    }

    /** Reserves a pending quote's fee or backfills an open one; a failure leaves the revert to the caller. */
    method BackfillOne(q: Quote) returns (ok: bool)
      requires TreatmentOf(q) != Skip
      modifies this`totals
      ensures ok == Backfill(old(totals), q, records.connectionLimit).Some?
      ensures ok ==> totals == Backfill(old(totals), q, records.connectionLimit).value
    {
      if q.status == 0 || q.status == 1 || q.status == 2 {
        totals := totals.(reservedFees := totals.reservedFees[q.partyA := totals.ReservedFee(q.partyA) + q.openFee]);
        return true;
      }
      if q.quantity < q.closedAmount {
        return false;
      }
      var openAmount := q.quantity - q.closedAmount;
      totals := totals.(amounts := totals.amounts[KeyOf(q) := totals.Amount(KeyOf(q)) + openAmount]);
      totals := totals.(positions := totals.positions[q.partyB := totals.Positions(q.partyB) + 1]);
      var connected := totals.Connected(q.partyA);
      if q.partyB !in connected {
        if |connected| >= records.connectionLimit {
          return false;
        }
        totals := totals.(connections := totals.connections[q.partyA := connected + [q.partyB]]);
      }
      return true;
    }

    /** One iteration: the bucket grows by what the pair has, which for the zero address is the bucket itself. */
    method MigrateOnePair(p: Pair)
      requires p !in pairMigrated
      modifies this
      ensures State() == MigratePair(old(State()), p)
    {
      var cross := CrossOf(p.partyB);
      AddLocked(cross, Balance(balances, p).locked);
      AddPending(cross, Balance(balances, p).pending);
      pairMigrated := pairMigrated + {p};
      pairLog := pairLog + [p];
    }

    method AddLocked(cross: Pair, v: LockedValues)
      modifies this`balances
      ensures var bucket := Balance(old(balances), cross);
              balances == old(balances)[cross := bucket.(locked := bucket.locked.Plus(v))]
    {
      var bucket := Balance(balances, cross);
      balances := balances[cross := bucket.(locked := bucket.locked.Plus(v))];
    }

    method AddPending(cross: Pair, v: LockedValues)
      modifies this`balances
      ensures var bucket := Balance(old(balances), cross);
              balances == old(balances)[cross := bucket.(pending := bucket.pending.Plus(v))]
    {
      var bucket := Balance(balances, cross);
      balances := balances[cross := bucket.(pending := bucket.pending.Plus(v))];
    }

    method MigrateCrossLocked(partyB: Address, partyAs: seq<Address>) returns (processed: nat)
      modifies this
      ensures State() == MigratePairs(old(State()), partyB, partyAs)
      ensures processed == |pairLog| - |old(pairLog)|
    {
      processed := 0;
      for i := 0 to |partyAs|
        invariant MigratePairs(old(State()), partyB, partyAs) == MigratePairs(State(), partyB, partyAs[i..])
        invariant processed == |pairLog| - |old(pairLog)|
      {
        assert partyAs[i..][1..] == partyAs[i + 1..];
        var p := Pair(partyB, partyAs[i]);
        if p in pairMigrated {
          continue;
        }
        MigrateOnePair(p);
        processed := processed + 1;
      }
    }
  }

  // ---- Every effect exactly once ----

  /** What migrating quote `id` adds to an aggregate, to a user's reserved fees and to a hedger's position count. */
  function Contribution(quotes: Quotes, id: nat, k: Key): nat {
    var q := Stored(quotes, id);
    if TreatmentOf(q) == Open && KeyOf(q) == k then q.quantity - q.closedAmount else 0
  }

  function FeeOf(quotes: Quotes, id: nat, a: Address): nat {
    var q := Stored(quotes, id);
    if TreatmentOf(q) == Reserve && q.partyA == a then q.openFee else 0
  }

  function PositionOf(quotes: Quotes, id: nat, b: Address): nat {
    var q := Stored(quotes, id);
    if TreatmentOf(q) == Open && q.partyB == b then 1 else 0
  }

  function SumAmounts(quotes: Quotes, ids: seq<nat>, k: Key): nat {
    if |ids| == 0 then 0 else SumAmounts(quotes, ids[..|ids| - 1], k) + Contribution(quotes, ids[|ids| - 1], k)
  }

  function SumFees(quotes: Quotes, ids: seq<nat>, a: Address): nat {
    if |ids| == 0 then 0 else SumFees(quotes, ids[..|ids| - 1], a) + FeeOf(quotes, ids[|ids| - 1], a)
  }

  function CountPositions(quotes: Quotes, ids: seq<nat>, b: Address): nat {
    if |ids| == 0 then 0 else CountPositions(quotes, ids[..|ids| - 1], b) + PositionOf(quotes, ids[|ids| - 1], b)
  }

  /** Open by its status, and not closed in full. */
  predicate IsOpen(q: Quote) {
    q.partyA != ZERO_ADDRESS && q.status in {4, 5, 6} && q.quantity > q.closedAmount
  }

  /** More was closed than there is. */
  predicate Overclosed(q: Quote) {
    q.partyA != ZERO_ADDRESS && q.status in {4, 5, 6} && q.quantity < q.closedAmount
  }

  /** The hedgers of a user's open quotes among `ids`, one per quote. */
  function OpenHedgers(quotes: Quotes, ids: seq<nat>, a: Address): seq<Address> {
    if |ids| == 0 then []
    else
      var q := Stored(quotes, ids[|ids| - 1]);
      OpenHedgers(quotes, ids[..|ids| - 1], a) + if IsOpen(q) && q.partyA == a then [q.partyB] else []
  }

  /** What a hedger has with its counterparties among the pairs; the bucket itself is none of them. */
  function SumLocked(balances: Balances, pairs: seq<Pair>, b: Address): Locked {
    if |pairs| == 0 then NothingLocked()
    else
      var last := pairs[|pairs| - 1];
      var rest := SumLocked(balances, pairs[..|pairs| - 1], b);
      if last.partyB == b && last.partyA != ZERO_ADDRESS then rest.Plus(Balance(balances, last)) else rest
  }

  /** The migrated flags are the history without repetition. */
  ghost predicate FlagsAreHistory(c: Chain) {
    && Distinct(c.quoteLog) && Distinct(c.pairLog)
    && (forall id :: id in c.quoteMigrated <==> id in c.quoteLog)
    && (forall p :: p in c.pairMigrated <==> p in c.pairLog)
    && (forall id :: id in c.quoteLog ==> TreatmentOf(c.QuoteAt(id)).Reserve? || TreatmentOf(c.QuoteAt(id)).Open?)
  }

  ghost predicate AmountsAre(t: Totals, quotes: Quotes, log: seq<nat>) {
    forall k :: t.Amount(k) == SumAmounts(quotes, log, k)
  }

  ghost predicate FeesAre(t: Totals, quotes: Quotes, log: seq<nat>) {
    forall a :: t.ReservedFee(a) == SumFees(quotes, log, a)
  }

  ghost predicate PositionsAre(t: Totals, quotes: Quotes, log: seq<nat>) {
    forall b :: t.Positions(b) == CountPositions(quotes, log, b)
  }

  ghost predicate BucketIs(c: Chain, b: Address) {
    c.CrossLocked(b) == SumLocked(c.balances, c.pairLog, b)
  }

  ghost predicate LockedAre(c: Chain) {
    forall b :: BucketIs(c, b)
  }

  /** Connected to a user are the hedgers of its migrated open quotes, each once, in order of first migration. */
  ghost predicate ConnectionsAre(t: Totals, quotes: Quotes, log: seq<nat>) {
    forall a :: t.Connected(a) == Firsts(OpenHedgers(quotes, log, a))
  }

  ghost predicate WithinLimit(t: Totals, limit: nat) {
    forall a :: |t.Connected(a)| <= limit
  }

  /** Every total is what the history adds up to. */
  ghost predicate TotalsAre(t: Totals, r: Records, log: seq<nat>) {
    && AmountsAre(t, r.quotes, log) && FeesAre(t, r.quotes, log) && PositionsAre(t, r.quotes, log)
    && ConnectionsAre(t, r.quotes, log) && WithinLimit(t, r.connectionLimit)
  }

  ghost predicate ExactlyOnce(c: Chain) {
    FlagsAreHistory(c) && TotalsAre(c.totals, c.records, c.quoteLog) && LockedAre(c)
  }

  /** What cannot change: the stored records and balances, the buckets aside. What only grows: the migrated sets. */
  ghost predicate Evolves(c: Chain, c': Chain) {
    && c'.records == c.records && SameBalances(c.balances, c'.balances)
    && c.quoteMigrated <= c'.quoteMigrated && c.pairMigrated <= c'.pairMigrated
  }

  ghost predicate SameBalances(balances: Balances, balances': Balances) {
    forall p: Pair :: p.partyA != ZERO_ADDRESS ==> Balance(balances', p) == Balance(balances, p)
  }

  lemma LongerLogAmounts(quotes: Quotes, ids: seq<nat>, id: nat, k: Key)
    ensures SumAmounts(quotes, ids + [id], k) == SumAmounts(quotes, ids, k) + Contribution(quotes, id, k)
  {
    assert (ids + [id])[..|ids|] == ids;
  }

  lemma LongerLogFees(quotes: Quotes, ids: seq<nat>, id: nat, a: Address)
    ensures SumFees(quotes, ids + [id], a) == SumFees(quotes, ids, a) + FeeOf(quotes, id, a)
  {
    assert (ids + [id])[..|ids|] == ids;
  }

  lemma LongerLogPositions(quotes: Quotes, ids: seq<nat>, id: nat, b: Address)
    ensures CountPositions(quotes, ids + [id], b) == CountPositions(quotes, ids, b) + PositionOf(quotes, id, b)
  {
    assert (ids + [id])[..|ids|] == ids;
  }

  lemma LongerPairLog(balances: Balances, pairs: seq<Pair>, p: Pair, b: Address)
    ensures SumLocked(balances, pairs + [p], b) ==
            if p.partyB == b && p.partyA != ZERO_ADDRESS then SumLocked(balances, pairs, b).Plus(Balance(balances, p))
            else SumLocked(balances, pairs, b)
  {
    assert (pairs + [p])[..|pairs|] == pairs;
  }

  lemma {:induction false} SameLockedSum(balances: Balances, balances': Balances, pairs: seq<Pair>, b: Address)
    requires SameBalances(balances, balances')
    ensures SumLocked(balances', pairs, b) == SumLocked(balances, pairs, b)
  {
    if |pairs| > 0 {
      SameLockedSum(balances, balances', pairs[..|pairs| - 1], b);
    }
  }

  /** A quote is settled when it is migrated or there is nothing to migrate. */
  predicate QuoteDone(c: Chain, id: nat) {
    id in c.quoteMigrated || TreatmentOf(c.QuoteAt(id)) == Skip
  }

  lemma BackfillKeepsAmounts(t: Totals, quotes: Quotes, log: seq<nat>, id: nat, limit: nat)
    requires AmountsAre(t, quotes, log) && Backfill(t, Stored(quotes, id), limit).Some?
    ensures AmountsAre(Backfill(t, Stored(quotes, id), limit).value, quotes, log + [id])
  {
    var t' := Backfill(t, Stored(quotes, id), limit).value;
    forall k
      ensures t'.Amount(k) == SumAmounts(quotes, log + [id], k)
    {
      LongerLogAmounts(quotes, log, id, k);
    }
  }

  lemma BackfillKeepsFees(t: Totals, quotes: Quotes, log: seq<nat>, id: nat, limit: nat)
    requires FeesAre(t, quotes, log) && Backfill(t, Stored(quotes, id), limit).Some?
    ensures FeesAre(Backfill(t, Stored(quotes, id), limit).value, quotes, log + [id])
  {
    var t' := Backfill(t, Stored(quotes, id), limit).value;
    forall a
      ensures t'.ReservedFee(a) == SumFees(quotes, log + [id], a)
    {
      LongerLogFees(quotes, log, id, a);
    }
  }

  lemma BackfillKeepsPositions(t: Totals, quotes: Quotes, log: seq<nat>, id: nat, limit: nat)
    requires PositionsAre(t, quotes, log) && Backfill(t, Stored(quotes, id), limit).Some?
    ensures PositionsAre(Backfill(t, Stored(quotes, id), limit).value, quotes, log + [id])
  {
    var t' := Backfill(t, Stored(quotes, id), limit).value;
    forall b
      ensures t'.Positions(b) == CountPositions(quotes, log + [id], b)
    {
      LongerLogPositions(quotes, log, id, b);
    }
  }

  lemma LongerLogHedgers(quotes: Quotes, ids: seq<nat>, id: nat, a: Address)
    ensures OpenHedgers(quotes, ids + [id], a) ==
            OpenHedgers(quotes, ids, a) +
            if IsOpen(Stored(quotes, id)) && Stored(quotes, id).partyA == a then [Stored(quotes, id).partyB] else []
  {
    assert (ids + [id])[..|ids|] == ids;
  }

  /** What the four treatments mean for the stored quote. */
  lemma TreatmentIff(q: Quote)
    ensures TreatmentOf(q) == Open <==> IsOpen(q)
    ensures TreatmentOf(q) == Underflow <==> Overclosed(q)
    ensures TreatmentOf(q) == Reserve <==> q.partyA != ZERO_ADDRESS && q.status in {0, 1, 2}
  {
  }

  /** What one quote does to a user's connections, and when it is refused for them. */
  lemma BackfillConnects(t: Totals, q: Quote, limit: nat, a: Address)
    requires Backfill(t, q, limit).Some?
    ensures var connects := IsOpen(q) && q.partyA == a && q.partyB !in t.Connected(a);
            && Backfill(t, q, limit).value.Connected(a) == t.Connected(a) + (if connects then [q.partyB] else [])
            && (connects ==> |t.Connected(a)| < limit)
  {
    TreatmentIff(q);
  }

  lemma BackfillKeepsConnections(t: Totals, quotes: Quotes, log: seq<nat>, id: nat, limit: nat)
    requires ConnectionsAre(t, quotes, log) && WithinLimit(t, limit)
    requires Backfill(t, Stored(quotes, id), limit).Some?
    ensures ConnectionsAre(Backfill(t, Stored(quotes, id), limit).value, quotes, log + [id])
    ensures WithinLimit(Backfill(t, Stored(quotes, id), limit).value, limit)
  {
    var q, t' := Stored(quotes, id), Backfill(t, Stored(quotes, id), limit).value;
    forall a
      ensures t'.Connected(a) == Firsts(OpenHedgers(quotes, log + [id], a)) && |t'.Connected(a)| <= limit
    {
      var before := OpenHedgers(quotes, log, a);
      BackfillConnects(t, q, limit, a);
      LongerLogHedgers(quotes, log, id, a);
      assert t.Connected(a) == Firsts(before) && |t.Connected(a)| <= limit;
      FirstsMembers(before);
      if IsOpen(q) && q.partyA == a {
        FirstsSnoc(before, q.partyB);
      } else {
        assert before + [] == before;
      }
    }
  }

  /** The condition under which a batch goes through, on the stored quotes and the history alone. */
  ghost predicate HasRoom(r: Records, log: seq<nat>) {
    forall a :: |Firsts(OpenHedgers(r.quotes, log, a))| <= r.connectionLimit
  }

  ghost predicate NoneOverclosed(c: Chain, ids: seq<nat>) {
    forall id | id in ids :: id in c.quoteMigrated || !Overclosed(c.QuoteAt(id))
  }

  lemma MigrateQuoteKeepsTotals(c: Chain, id: nat)
    requires TotalsAre(c.totals, c.records, c.quoteLog) && MigrateQuote(c, id).Some?
    ensures TotalsAre(MigrateQuote(c, id).value.totals, c.records, MigrateQuote(c, id).value.quoteLog)
  {
    if id !in c.quoteMigrated && TreatmentOf(c.QuoteAt(id)) != Skip {
      BackfillKeepsAmounts(c.totals, c.records.quotes, c.quoteLog, id, c.records.connectionLimit);
      BackfillKeepsFees(c.totals, c.records.quotes, c.quoteLog, id, c.records.connectionLimit);
      BackfillKeepsPositions(c.totals, c.records.quotes, c.quoteLog, id, c.records.connectionLimit);
      BackfillKeepsConnections(c.totals, c.records.quotes, c.quoteLog, id, c.records.connectionLimit);
    }
  }

  lemma MigrateQuoteKeepsFlags(c: Chain, id: nat)
    requires FlagsAreHistory(c) && MigrateQuote(c, id).Some?
    ensures FlagsAreHistory(MigrateQuote(c, id).value)
  {
    var c' := MigrateQuote(c, id).value;
    if c'.quoteLog != c.quoteLog {
      assert c'.quoteLog == c.quoteLog + [id] && id !in c.quoteLog;
      DistinctSnoc(c.quoteLog, id);
      assert forall x :: x in c'.quoteLog <==> x in c.quoteLog || x == id;
    }
  }

  /** Whatever the state, a batch settles its quotes and touches no other. */
  lemma {:induction false} MigrateQuotesSettles(c: Chain, ids: seq<nat>)
    requires MigrateQuotes(c, ids).Some?
    ensures Evolves(c, MigrateQuotes(c, ids).value)
    ensures forall id :: id in ids ==> QuoteDone(MigrateQuotes(c, ids).value, id)
    ensures forall id :: id in MigrateQuotes(c, ids).value.quoteMigrated ==> id in c.quoteMigrated || id in ids
    ensures MigrateQuotes(c, ids).value.pairMigrated == c.pairMigrated
    ensures MigrateQuotes(c, ids).value.pairLog == c.pairLog && MigrateQuotes(c, ids).value.balances == c.balances
    decreases |ids|
  {
    if |ids| > 0 {
      MigrateQuotesSettles(MigrateQuote(c, ids[0]).value, ids[1..]);
      forall id | id in ids
        ensures QuoteDone(MigrateQuotes(c, ids).value, id)
      {
        if id != ids[0] {
          assert id in ids[1..];
        }
      }
    }
  }

  /** A batch applies the effect of each of its quotes that was not settled, once, and settles all of them. */
  lemma {:induction false} MigrateQuotesExactlyOnce(c: Chain, ids: seq<nat>)
    requires ExactlyOnce(c) && MigrateQuotes(c, ids).Some?
    ensures ExactlyOnce(MigrateQuotes(c, ids).value) && Evolves(c, MigrateQuotes(c, ids).value)
    ensures forall id :: id in ids ==> QuoteDone(MigrateQuotes(c, ids).value, id)
    decreases |ids|
  {
    MigrateQuotesSettles(c, ids);
    MigrateQuotesKeeps(c, ids);
    var c' := MigrateQuotes(c, ids).value;
    forall b
      ensures BucketIs(c', b)
    {
      assert BucketIs(c, b);
    }
  }

  lemma {:induction false} MigrateQuotesKeeps(c: Chain, ids: seq<nat>)
    requires FlagsAreHistory(c) && TotalsAre(c.totals, c.records, c.quoteLog) && MigrateQuotes(c, ids).Some?
    ensures var c' := MigrateQuotes(c, ids).value;
            FlagsAreHistory(c') && TotalsAre(c'.totals, c.records, c'.quoteLog)
    decreases |ids|
  {
    if |ids| > 0 {
      MigrateQuoteKeepsTotals(c, ids[0]);
      MigrateQuoteKeepsFlags(c, ids[0]);
      MigrateQuotesKeeps(MigrateQuote(c, ids[0]).value, ids[1..]);
    }
  }

  // ---- When a batch of quotes reverts ----

  lemma {:induction false} HedgersConcat(quotes: Quotes, x: seq<nat>, y: seq<nat>, a: Address)
    ensures OpenHedgers(quotes, x + y, a) == OpenHedgers(quotes, x, a) + OpenHedgers(quotes, y, a)
  {
    if |y| == 0 {
      assert x + y == x;
    } else {
      var init, last := y[..|y| - 1], y[|y| - 1];
      HedgersConcat(quotes, x, init, a);
      ConcatSnoc(x, y);
      LongerLogHedgers(quotes, x + init, last, a);
    }
  }

  lemma {:induction false} HedgerOfLogged(quotes: Quotes, log: seq<nat>, id: nat)
    requires id in log && IsOpen(Stored(quotes, id))
    ensures Stored(quotes, id).partyB in OpenHedgers(quotes, log, Stored(quotes, id).partyA)
  {
    var init, last := log[..|log| - 1], log[|log| - 1];
    ConcatSnoc([], log);
    LongerLogHedgers(quotes, init, last, Stored(quotes, id).partyA);
    if id != last {
      assert id in init;
      HedgerOfLogged(quotes, init, id);
    }
  }

  /** A quote that is migrated, or not open, adds no hedger. */
  lemma NoNewHedger(quotes: Quotes, log: seq<nat>, id: nat, rest: seq<nat>, a: Address)
    requires id in log || !IsOpen(Stored(quotes, id))
    ensures Firsts(OpenHedgers(quotes, log + [id] + rest, a)) == Firsts(OpenHedgers(quotes, log + rest, a))
  {
    var q, x, y := Stored(quotes, id), OpenHedgers(quotes, log, a), OpenHedgers(quotes, rest, a);
    HedgersConcat(quotes, log + [id], rest, a);
    HedgersConcat(quotes, log, rest, a);
    LongerLogHedgers(quotes, log, id, a);
    if IsOpen(q) && q.partyA == a {
      HedgerOfLogged(quotes, log, id);
      FirstsAgain(x, q.partyB, y);
    } else {
      assert x + [] == x;
    }
  }

  lemma FewerHedgers(r: Records, log: seq<nat>, more: seq<nat>)
    requires HasRoom(r, log + more)
    ensures HasRoom(r, log)
  {
    forall a
      ensures |Firsts(OpenHedgers(r.quotes, log, a))| <= r.connectionLimit
    {
      HedgersConcat(r.quotes, log, more, a);
      FirstsGrow(OpenHedgers(r.quotes, log, a), OpenHedgers(r.quotes, more, a));
      assert |Firsts(OpenHedgers(r.quotes, log + more, a))| <= r.connectionLimit;
    }
  }

  lemma SameRoom(r: Records, log: seq<nat>, id: nat, rest: seq<nat>)
    requires id in log || !IsOpen(Stored(r.quotes, id))
    ensures HasRoom(r, log + [id] + rest) <==> HasRoom(r, log + rest)
  {
    forall a
      ensures Firsts(OpenHedgers(r.quotes, log + [id] + rest, a)) == Firsts(OpenHedgers(r.quotes, log + rest, a))
    {
      NoNewHedger(r.quotes, log, id, rest, a);
    }
  }

  lemma HedgersWithOne(t: Totals, quotes: Quotes, log: seq<nat>, id: nat, a: Address)
    requires ConnectionsAre(t, quotes, log) && IsOpen(Stored(quotes, id))
    ensures var q := Stored(quotes, id);
            |Firsts(OpenHedgers(quotes, log + [id], a))| ==
            |t.Connected(a)| + if a == q.partyA && q.partyB !in t.Connected(a) then 1 else 0
  {
    var q, before := Stored(quotes, id), OpenHedgers(quotes, log, a);
    LongerLogHedgers(quotes, log, id, a);
    FirstsSnoc(before, q.partyB);
    FirstsMembers(before);
    assert t.Connected(a) == Firsts(before) && before + [] == before;
  }

  /** An open quote that is new goes through for the limit exactly when its hedger is connected or there is room. */
  lemma RoomForOne(t: Totals, r: Records, log: seq<nat>, id: nat)
    requires ConnectionsAre(t, r.quotes, log) && WithinLimit(t, r.connectionLimit)
    requires IsOpen(Stored(r.quotes, id))
    ensures var q := Stored(r.quotes, id);
            HasRoom(r, log + [id]) <==> q.partyB in t.Connected(q.partyA) || |t.Connected(q.partyA)| < r.connectionLimit
  {
    var q := Stored(r.quotes, id);
    HedgersWithOne(t, r.quotes, log, id, q.partyA);
    if q.partyB in t.Connected(q.partyA) || |t.Connected(q.partyA)| < r.connectionLimit {
      forall a
        ensures |Firsts(OpenHedgers(r.quotes, log + [id], a))| <= r.connectionLimit
      {
        HedgersWithOne(t, r.quotes, log, id, a);
        assert |t.Connected(a)| <= r.connectionLimit;
      }
    }
  }

  lemma AlreadyRoom(c: Chain)
    requires TotalsAre(c.totals, c.records, c.quoteLog)
    ensures HasRoom(c.records, c.quoteLog)
  {
    assert forall a :: c.totals.Connected(a) == Firsts(OpenHedgers(c.records.quotes, c.quoteLog, a));
  }

  lemma QuoteRevertsIff(c: Chain, id: nat)
    requires FlagsAreHistory(c) && TotalsAre(c.totals, c.records, c.quoteLog)
    ensures MigrateQuote(c, id).Some? <==>
            (id in c.quoteMigrated || !Overclosed(c.QuoteAt(id))) && HasRoom(c.records, c.quoteLog + [id])
  {
    TreatmentIff(c.QuoteAt(id));
    if id in c.quoteMigrated || !IsOpen(c.QuoteAt(id)) {
      AlreadyRoom(c);
      SameRoom(c.records, c.quoteLog, id, []);
      assert c.quoteLog + [id] + [] == c.quoteLog + [id] && c.quoteLog + [] == c.quoteLog;
    } else {
      RoomForOne(c.totals, c.records, c.quoteLog, id);
    }
  }

  /** The rest of a batch meets the condition after the first quote exactly when the batch does before it. */
  lemma ConditionGoesOn(c: Chain, ids: seq<nat>)
    requires FlagsAreHistory(c) && |ids| > 0 && MigrateQuote(c, ids[0]).Some?
    requires ids[0] in c.quoteMigrated || !Overclosed(c.QuoteAt(ids[0]))
    ensures var c' := MigrateQuote(c, ids[0]).value;
            && (NoneOverclosed(c', ids[1..]) <==> NoneOverclosed(c, ids))
            && (HasRoom(c'.records, c'.quoteLog + ids[1..]) <==> HasRoom(c.records, c.quoteLog + ids))
  {
    var id, rest, c' := ids[0], ids[1..], MigrateQuote(c, ids[0]).value;
    assert ids == [id] + rest;
    assert c.quoteLog + [id] + rest == c.quoteLog + ids;
    TreatmentIff(c.QuoteAt(id));
    if c' == c {
      SameRoom(c.records, c.quoteLog, id, rest);
    }
  }

  /**
   A batch goes through exactly when none of its new quotes has more closed than there is, and with all of
   its quotes no user has more distinct hedgers than the limit. The order within the batch does not matter.
   */
  lemma {:induction false} BatchRevertsIff(c: Chain, ids: seq<nat>)
    requires FlagsAreHistory(c) && TotalsAre(c.totals, c.records, c.quoteLog)
    ensures MigrateQuotes(c, ids).Some? <==> NoneOverclosed(c, ids) && HasRoom(c.records, c.quoteLog + ids)
    decreases |ids|
  {
    if |ids| == 0 {
      AlreadyRoom(c);
      assert c.quoteLog + ids == c.quoteLog;
    } else {
      QuoteRevertsIff(c, ids[0]);
      if MigrateQuote(c, ids[0]).Some? {
        MigrateQuoteKeepsTotals(c, ids[0]);
        MigrateQuoteKeepsFlags(c, ids[0]);
        ConditionGoesOn(c, ids);
        BatchRevertsIff(MigrateQuote(c, ids[0]).value, ids[1..]);
      } else {
        FirstReverts(c, ids);
      }
    }
  }

  lemma FirstReverts(c: Chain, ids: seq<nat>)
    requires |ids| > 0
    requires (ids[0] !in c.quoteMigrated && Overclosed(c.QuoteAt(ids[0]))) || !HasRoom(c.records, c.quoteLog + [ids[0]])
    ensures !(NoneOverclosed(c, ids) && HasRoom(c.records, c.quoteLog + ids))
  {
    assert ids[0] in ids;
    if HasRoom(c.records, c.quoteLog + ids) {
      assert c.quoteLog + ids == c.quoteLog + [ids[0]] + ids[1..];
      FewerHedgers(c.records, c.quoteLog + [ids[0]], ids[1..]);
    }
  }

  // ---- Cross buckets, and the counterparty that is the bucket itself ----

  /** Whatever the state, a batch migrates its pairs and touches no other. */
  lemma {:induction false} MigratePairsSettles(c: Chain, partyB: Address, partyAs: seq<Address>)
    ensures Evolves(c, MigratePairs(c, partyB, partyAs))
    ensures forall a :: a in partyAs ==> Pair(partyB, a) in MigratePairs(c, partyB, partyAs).pairMigrated
    ensures forall p :: p in MigratePairs(c, partyB, partyAs).pairMigrated ==>
              p in c.pairMigrated || (p.partyB == partyB && p.partyA in partyAs)
    ensures var c' := MigratePairs(c, partyB, partyAs);
            c'.totals == c.totals && c'.quoteMigrated == c.quoteMigrated && c'.quoteLog == c.quoteLog
    decreases |partyAs|
  {
    if |partyAs| > 0 {
      MigratePairsSettles(MigratePair(c, Pair(partyB, partyAs[0])), partyB, partyAs[1..]);
    }
  }

  lemma MigratePairKeepsFlags(c: Chain, p: Pair)
    requires FlagsAreHistory(c)
    ensures FlagsAreHistory(MigratePair(c, p))
  {
    if p !in c.pairMigrated {
      DistinctSnoc(c.pairLog, p);
    }
  }

  lemma PlusCancels(a: Locked, b: Locked, v: Locked)
    ensures a.Plus(v) == b.Plus(v) <==> a == b
  {
    assert a.Plus(v).locked == a.locked.Plus(v.locked) && b.Plus(v).locked == b.locked.Plus(v.locked);
    assert a.Plus(v).pending == a.pending.Plus(v.pending) && b.Plus(v).pending == b.pending.Plus(v.pending);
  }

  /** All that is in a bucket. */
  function Weight(a: Locked): nat {
    a.locked.cva + a.locked.lf + a.locked.partyAmm + a.locked.partyBmm
    + a.pending.cva + a.pending.lf + a.pending.partyAmm + a.pending.partyBmm
  }

  predicate IsEmpty(a: Locked) {
    Weight(a) == 0
  }

  lemma WeightsAdd(a: Locked, b: Locked)
    ensures Weight(a.Plus(b)) == Weight(a) + Weight(b)
  {
  }

  lemma AddNothing(a: LockedValues)
    ensures a.Plus(NoValues()) == a
  {
  }

  lemma EmptyHasNoValues(a: Locked)
    requires IsEmpty(a)
    ensures a.locked == NoValues() && a.pending == NoValues()
  {
  }

  lemma PlusItself(a: Locked)
    ensures a.Plus(a) == a <==> IsEmpty(a)
  {
    if IsEmpty(a) {
      EmptyHasNoValues(a);
      AddNothing(a.locked);
      AddNothing(a.pending);
    } else {
      WeightsAdd(a, a);
    }
  }

  lemma SumAfterPair(c: Chain, p: Pair, b: Address)
    requires p !in c.pairMigrated
    ensures var c' := MigratePair(c, p);
            SumLocked(c'.balances, c'.pairLog, b) ==
            if p.partyB == b && p.partyA != ZERO_ADDRESS
            then SumLocked(c.balances, c.pairLog, b).Plus(c.BalanceOf(p)) else SumLocked(c.balances, c.pairLog, b)
  {
    SameLockedSum(c.balances, MigratePair(c, p).balances, c.pairLog + [p], b);
    LongerPairLog(c.balances, c.pairLog, p, b);
  }

  lemma BucketAfterPair(c: Chain, p: Pair, b: Address)
    requires p !in c.pairMigrated
    ensures MigratePair(c, p).CrossLocked(b) ==
            if p.partyB == b then c.CrossLocked(b).Plus(c.BalanceOf(p)) else c.CrossLocked(b)
  {
  }

  /** Nothing but migrating the bucket into itself brings it off its sum, or back. */
  lemma OtherPair(c: Chain, p: Pair, b: Address)
    requires p in c.pairMigrated || p != CrossOf(b)
    ensures BucketIs(MigratePair(c, p), b) <==> BucketIs(c, b)
  {
    if p !in c.pairMigrated {
      SumAfterPair(c, p, b);
      BucketAfterPair(c, p, b);
      PlusCancels(c.CrossLocked(b), SumLocked(c.balances, c.pairLog, b), c.BalanceOf(p));
    }
  }

  /** That doubles the bucket: it stays its sum only when it is empty. */
  lemma BucketIntoItself(c: Chain, b: Address)
    requires BucketIs(c, b) && CrossOf(b) !in c.pairMigrated
    ensures BucketIs(MigratePair(c, CrossOf(b)), b) <==> IsEmpty(c.CrossLocked(b))
  {
    SumAfterPair(c, CrossOf(b), b);
    BucketAfterPair(c, CrossOf(b), b);
    PlusItself(c.CrossLocked(b));
  }

  /** Which pairs can be migrated: any but the bucket, and the bucket when it is empty. */
  predicate HarmlessPair(c: Chain, p: Pair) {
    p in c.pairMigrated || p.partyA != ZERO_ADDRESS || IsEmpty(c.CrossLocked(p.partyB))
  }

  lemma MigratePairExactlyOnce(c: Chain, p: Pair)
    requires ExactlyOnce(c) && HarmlessPair(c, p)
    ensures ExactlyOnce(MigratePair(c, p))
  {
    MigratePairKeepsFlags(c, p);
    forall b
      ensures BucketIs(MigratePair(c, p), b)
    {
      PairKeepsBucket(c, p, b);
    }
  }

  lemma PairKeepsBucket(c: Chain, p: Pair, b: Address)
    requires BucketIs(c, b) && HarmlessPair(c, p)
    ensures BucketIs(MigratePair(c, p), b)
  {
    if p == CrossOf(b) && p !in c.pairMigrated {
      BucketIntoItself(c, b);
    } else {
      OtherPair(c, p, b);
    }
  }

  /** The bucket was migrated into itself and is off its sum. */
  ghost predicate Doubled(c: Chain, b: Address) {
    CrossOf(b) in c.pairMigrated && !BucketIs(c, b)
  }

  lemma MigratePairDoubles(c: Chain, p: Pair)
    requires BucketIs(c, p.partyB) && !HarmlessPair(c, p)
    ensures Doubled(MigratePair(c, p), p.partyB)
  {
    assert p == CrossOf(p.partyB);
    BucketIntoItself(c, p.partyB);
  }

  /** A doubled bucket stays off its sum. */
  lemma {:induction false} StaysDoubled(c: Chain, partyB: Address, partyAs: seq<Address>, b: Address)
    requires Doubled(c, b)
    ensures Doubled(MigratePairs(c, partyB, partyAs), b)
    decreases |partyAs|
  {
    if |partyAs| > 0 {
      OtherPair(c, Pair(partyB, partyAs[0]), b);
      StaysDoubled(MigratePair(c, Pair(partyB, partyAs[0])), partyB, partyAs[1..], b);
    }
  }

  /** The addresses in front of the first zero address. */
  function BeforeZero(partyAs: seq<Address>): seq<Address> {
    if |partyAs| == 0 || partyAs[0] == ZERO_ADDRESS then [] else [partyAs[0]] + BeforeZero(partyAs[1..])
  }

  predicate AddsNothing(c: Chain, p: Pair) {
    p in c.pairMigrated || IsEmpty(c.BalanceOf(p))
  }

  /** A batch does not migrate the zero address anew, or comes to it while the bucket is still empty. */
  ghost predicate HarmlessPairs(c: Chain, partyB: Address, partyAs: seq<Address>) {
    ZERO_ADDRESS !in partyAs || CrossOf(partyB) in c.pairMigrated
    || (IsEmpty(c.CrossLocked(partyB)) && AllAddNothing(c, partyB, BeforeZero(partyAs)))
  }

  lemma HarmlessStep(c: Chain, partyB: Address, partyAs: seq<Address>)
    requires |partyAs| > 0
    ensures var first := Pair(partyB, partyAs[0]);
            HarmlessPairs(c, partyB, partyAs) <==>
            HarmlessPair(c, first) && HarmlessPairs(MigratePair(c, first), partyB, partyAs[1..])
  {
    var first, rest := Pair(partyB, partyAs[0]), partyAs[1..];
    assert partyAs == [partyAs[0]] + rest;
    if partyAs[0] != ZERO_ADDRESS && CrossOf(partyB) !in c.pairMigrated {
      StillEmpty(c, first);
      assert BeforeZero(partyAs) == [partyAs[0]] + BeforeZero(rest);
      BeforeZeroHasNoZero(rest);
      EmptyBefore(c, partyB, partyAs[0], BeforeZero(rest));
    }
  }

  ghost predicate AllAddNothing(c: Chain, partyB: Address, partyAs: seq<Address>) {
    forall a | a in partyAs :: AddsNothing(c, Pair(partyB, a))
  }

  lemma EmptyBefore(c: Chain, partyB: Address, first: Address, rest: seq<Address>)
    requires ZERO_ADDRESS !in rest
    ensures AllAddNothing(c, partyB, [first] + rest) <==>
            AddsNothing(c, Pair(partyB, first)) && AllAddNothing(MigratePair(c, Pair(partyB, first)), partyB, rest)
  {
  }

  lemma StillEmpty(c: Chain, p: Pair)
    requires p.partyA != ZERO_ADDRESS
    ensures IsEmpty(MigratePair(c, p).CrossLocked(p.partyB)) <==>
            IsEmpty(c.CrossLocked(p.partyB)) && AddsNothing(c, p)
  {
    if p !in c.pairMigrated {
      BucketAfterPair(c, p, p.partyB);
      WeightsAdd(c.CrossLocked(p.partyB), c.BalanceOf(p));
    }
  }

  lemma {:induction false} BeforeZeroHasNoZero(partyAs: seq<Address>)
    ensures ZERO_ADDRESS !in BeforeZero(partyAs)
  {
    if |partyAs| > 0 && partyAs[0] != ZERO_ADDRESS {
      BeforeZeroHasNoZero(partyAs[1..]);
    }
  }

  /**
   A batch keeps every bucket the sum over the distinct migrated pairs exactly when it does not add a
   nonempty bucket to itself, which is what migrating the zero address does.
   */
  lemma {:induction false} MigratePairsExactlyOnceIff(c: Chain, partyB: Address, partyAs: seq<Address>)
    requires ExactlyOnce(c)
    ensures ExactlyOnce(MigratePairs(c, partyB, partyAs)) <==> HarmlessPairs(c, partyB, partyAs)
    ensures !HarmlessPairs(c, partyB, partyAs) ==> Doubled(MigratePairs(c, partyB, partyAs), partyB)
    decreases |partyAs|
  {
    if |partyAs| > 0 {
      var first := Pair(partyB, partyAs[0]);
      HarmlessStep(c, partyB, partyAs);
      if HarmlessPair(c, first) {
        MigratePairExactlyOnce(c, first);
        MigratePairsExactlyOnceIff(MigratePair(c, first), partyB, partyAs[1..]);
      } else {
        FirstDoubles(c, partyB, partyAs);
      }
    }
  }

  lemma FirstDoubles(c: Chain, partyB: Address, partyAs: seq<Address>)
    requires LockedAre(c) && |partyAs| > 0 && !HarmlessPair(c, Pair(partyB, partyAs[0]))
    ensures Doubled(MigratePairs(c, partyB, partyAs), partyB) && !LockedAre(MigratePairs(c, partyB, partyAs))
  {
    assert BucketIs(c, partyB);
    MigratePairDoubles(c, Pair(partyB, partyAs[0]));
    StaysDoubled(MigratePair(c, Pair(partyB, partyAs[0])), partyB, partyAs[1..], partyB);
    assert !BucketIs(MigratePairs(c, partyB, partyAs), partyB);
  }

  /** A contract that is about to migrate one pair. */
  function OnePair(p: Pair, v: Locked): Chain {
    Chain(Records(map[], 0), Totals(map[], map[], map[], map[]), map[p := v], {}, {}, [], [])
  }

  /** Whatever a user has locked with a hedger: migrating the user and then the zero address puts it in twice. */
  lemma ZeroAddressDoubles(partyB: Address, partyA: Address, v: Locked)
    requires partyA != ZERO_ADDRESS && !IsEmpty(v)
    ensures var c := OnePair(Pair(partyB, partyA), v);
            && ExactlyOnce(c)
            && MigratePairs(c, partyB, [partyA, ZERO_ADDRESS]).CrossLocked(partyB) == v.Plus(v)
            && !ExactlyOnce(MigratePairs(c, partyB, [partyA, ZERO_ADDRESS]))
  {
    var c, first := OnePair(Pair(partyB, partyA), v), Pair(partyB, partyA);
    var partyAs := [partyA, ZERO_ADDRESS];
    assert partyAs[1..] == [ZERO_ADDRESS] && [ZERO_ADDRESS][1..] == [];
    assert BeforeZero(partyAs)[0] == partyA && ZERO_ADDRESS == partyAs[1];
    assert !AddsNothing(c, first);
    MigratePairsExactlyOnceIff(c, partyB, partyAs);
    BucketAfterPair(c, first, partyB);
    AddToNothing(v);
    var c' := MigratePair(c, first);
    BucketAfterPair(c', CrossOf(partyB), partyB);
    assert MigratePairs(c, partyB, partyAs) == MigratePairs(c', partyB, [ZERO_ADDRESS]);
    assert MigratePairs(c', partyB, [ZERO_ADDRESS]) == MigratePair(c', CrossOf(partyB));
  }

  lemma AddToNothing(v: Locked)
    ensures NothingLocked().Plus(v) == v
  {
  }

  /** Without the zero address in it a batch is always counted once. */
  lemma MigratePairsExactlyOnce(c: Chain, partyB: Address, partyAs: seq<Address>)
    requires ExactlyOnce(c) && ZERO_ADDRESS !in partyAs
    ensures ExactlyOnce(MigratePairs(c, partyB, partyAs))
  {
    MigratePairsExactlyOnceIff(c, partyB, partyAs);
  }
}
