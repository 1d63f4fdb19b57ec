/** What every run of bridge calls keeps. */
module BridgeSafety {
  import opened Collections
  import opened Diamond
  import opened BridgeContract

  // ---- Runs ----

  datatype Event =
    | ToBridge(user: Address, amount: nat, bridge: Address, now: nat)
    | Claim(id: nat, sender: Address, now: nat)
    | ClaimMany(ids: seq<nat>, sender: Address, now: nat)
    | Suspend(id: nat)
    | Restore(id: nat, validAmount: nat)
    | Configure(bridges: set<Address>, pool: Address, cooldown: nat)
    | Elsewhere(balances: map<Address, nat>, others: nat, collateral: nat) // any other facet's effect on the money

  function Call(l: Ledger, e: Event): Outcome {
    match e
    case ToBridge(user, amount, bridge, now) => TransferToBridge(l, user, amount, bridge, now)
    case Claim(id, sender, now) => WithdrawReceived(l, id, sender, now)
    case ClaimMany(ids, sender, now) => WithdrawReceivedMany(l, ids, sender, now)
    case Suspend(id) => SuspendTransaction(l, id)
    case Restore(id, validAmount) => RestoreTransaction(l, id, validAmount)
    case Configure(bridges, pool, cooldown) =>
      Done(l.(settings := Settings(l.settings.decimals, bridges, pool, cooldown)))
    case Elsewhere(balances, others, collateral) => OtherFacet(l, balances, others, collateral)
  }

  /** Other facets share the lock; they are taken to keep it covered and to release only their own part. */
  function OtherFacet(l: Ledger, balances: map<Address, nat>, others: nat, collateral: nat): Outcome {
    var locked := l.money.locked - l.money.others + others;
    if locked < 0 || collateral < locked then Reverted(InsufficientCollateral)
    else Done(l.(money := Money(balances, locked, collateral, l.money.paid, others)))
  }

  function Step(l: Ledger, e: Event): Ledger {
    match Call(l, e)
    case Done(l') => l'
    case Reverted(_) => l
  }

  function Run(l: Ledger, events: seq<Event>): Ledger {
    if |events| == 0 then l else Step(Run(l, events[..|events| - 1]), events[|events| - 1])
  }

  // ---- The lock and the payouts ----

  function Open(tx: Transaction): nat {
    if tx.status == Withdrawn then 0 else tx.amount
  }

  function PaidTo(tx: Transaction, bridge: Address): nat {
    if tx.status == Withdrawn && tx.bridge == bridge then tx.amount else 0
  }

  /** The amounts of the transactions below `n` that are still received or suspended. */
  function OpenSum(txs: Transactions, n: nat): nat {
    if n == 0 then 0 else OpenSum(txs, n - 1) + Open(At(txs, n - 1))
  }

  /** The amounts of a bridge's withdrawn transactions below `n`. */
  function PaidSum(txs: Transactions, n: nat, bridge: Address): nat {
    if n == 0 then 0 else PaidSum(txs, n - 1, bridge) + PaidTo(At(txs, n - 1), bridge)
  }

  /** Nothing is recorded beyond the last id, and the slot of id 0 never holds money. */
  ghost predicate BookSound(b: Book) {
    (forall id | id in b.transactions :: id <= b.lastId) && At(b.transactions, 0).amount == 0
  }

  /** The bridges' own share of the lock is exactly what they may still claim. */
  ghost predicate LockIsOpenSum(l: Ledger) {
    l.money.locked == OpenSum(l.book.transactions, l.book.lastId + 1) + l.money.others
  }

  /** Every bridge was paid exactly its withdrawn transactions. */
  ghost predicate PaidIsWithdrawn(l: Ledger) {
    forall b :: Amount(l.money.paid, b) == PaidSum(l.book.transactions, l.book.lastId + 1, b)
  }

  ghost predicate Sound(l: Ledger) {
    BookSound(l.book) && LockIsOpenSum(l) && PaidIsWithdrawn(l) && l.money.locked <= l.money.collateral
  }

  lemma {:induction false} OpenSumUpdate(txs: Transactions, n: nat, id: nat, tx: Transaction)
    ensures OpenSum(txs[id := tx], n) ==
            if id < n then OpenSum(txs, n) - Open(At(txs, id)) + Open(tx) else OpenSum(txs, n)
  {
    if n > 0 {
      OpenSumUpdate(txs, n - 1, id, tx);
    }
  }

  lemma {:induction false} PaidSumUpdate(txs: Transactions, n: nat, id: nat, tx: Transaction, b: Address)
    ensures PaidSum(txs[id := tx], n, b) ==
            if id < n then PaidSum(txs, n, b) - PaidTo(At(txs, id), b) + PaidTo(tx, b) else PaidSum(txs, n, b)
  {
    if n > 0 {
      PaidSumUpdate(txs, n - 1, id, tx, b);
    }
  }

  lemma {:induction false} OpenIsInSum(txs: Transactions, n: nat, id: nat)
    requires id < n
    ensures Open(At(txs, id)) <= OpenSum(txs, n)
  {
    if id < n - 1 {
      OpenIsInSum(txs, n - 1, id);
    }
  }

  lemma TransferSound(l: Ledger, user: Address, amount: nat, bridge: Address, now: nat)
    requires Sound(l) && TransferToBridge(l, user, amount, bridge, now).Done?
    ensures Sound(TransferToBridge(l, user, amount, bridge, now).ledger)
  {
    var l' := TransferToBridge(l, user, amount, bridge, now).ledger;
    var id := l.book.lastId + 1;
    OpenSumUpdate(l.book.transactions, id, id, l'.Tx(id));
    forall b
      ensures Amount(l'.money.paid, b) == PaidSum(l'.book.transactions, id + 1, b)
    {
      PaidSumUpdate(l.book.transactions, id, id, l'.Tx(id), b);
    }
  }

  /** Rewriting one transaction without withdrawing it: the lock has to follow its amount. */
  lemma RewriteSound(l: Ledger, id: nat, tx: Transaction, money: Money)
    requires Sound(l) && id <= l.book.lastId && tx.status != Withdrawn && l.Tx(id).status != Withdrawn
    requires tx.amount <= l.Tx(id).amount && money.paid == l.money.paid && money.others == l.money.others
    requires money.locked == l.money.locked - (l.Tx(id).amount - tx.amount) && money.collateral == l.money.collateral
    ensures Sound(Ledger(l.settings, l.book.(transactions := l.book.transactions[id := tx]), money))
  {
    var n := l.book.lastId + 1;
    OpenSumUpdate(l.book.transactions, n, id, tx);
    forall b
      ensures PaidSum(l.book.transactions[id := tx], n, b) == PaidSum(l.book.transactions, n, b)
    {
      PaidSumUpdate(l.book.transactions, n, id, tx, b);
    }
  }

  /** In a sound ledger a withdrawal fails for none but the five stated reasons, and keeps it sound. */
  lemma WithdrawSound(l: Ledger, id: nat, sender: Address, now: nat)
    requires Sound(l)
    requires WithdrawalError(l.settings, l.book.transactions, l.book.lastId, id, sender, now) == None
    ensures WithdrawReceived(l, id, sender, now).Done?
    ensures Sound(WithdrawReceived(l, id, sender, now).ledger)
  {
    var n := l.book.lastId + 1;
    var tx := l.Tx(id);
    OpenIsInSum(l.book.transactions, n, id);
    OpenSumUpdate(l.book.transactions, n, id, tx.(status := Withdrawn));
    var l' := WithdrawReceived(l, id, sender, now).ledger;
    forall b
      ensures Amount(l'.money.paid, b) == PaidSum(l'.book.transactions, n, b)
    {
      PaidSumUpdate(l.book.transactions, n, id, tx.(status := Withdrawn), b);
      assert Amount(l.money.paid, b) == PaidSum(l.book.transactions, n, b);
      assert PaidTo(tx, b) == 0;
      assert PaidTo(tx.(status := Withdrawn), b) == if b == tx.bridge then tx.amount else 0;
    }
  }

  // ---- The batch is its single withdrawals ----

  /** One withdrawal per id, from the last to the first, stopping at the first that fails. */
  function OneByOne(l: Ledger, ids: seq<nat>, sender: Address, now: nat): Outcome
    decreases |ids|
  {
    if |ids| == 0 then Done(l)
    else
      match WithdrawReceived(l, ids[|ids| - 1], sender, now)
      case Reverted(e) => Reverted(e)
      case Done(l') => OneByOne(l', ids[..|ids| - 1], sender, now)
  }

  /** `m'` is `m` after paying `total` out of the lock; a payout of zero may or may not have left an entry. */
  ghost predicate Paid(m: Money, m': Money, bridge: Address, total: nat) {
    && total <= m.locked && m'.locked == m.locked - total
    && total <= m.collateral && m'.collateral == m.collateral - total
    && m'.balances == m.balances && m'.others == m.others
    && forall x :: Amount(m'.paid, x) == Amount(m.paid, x) + if x == bridge then total else 0
  }

  /** The batch's loop and the single withdrawals agree: on the error, or on the book and the money owed. */
  ghost predicate Settles(m: Money, c: Collected, singles: Outcome, book: Book, sender: Address) {
    match singles
    case Reverted(e) => c == Rejected(e)
    case Done(l) =>
      c.Collected? && Sound(l) && l.book == book.(transactions := c.txs) && Paid(m, l.money, sender, c.total)
  }

  /**
   All or nothing, a batch is the same as withdrawing its transactions one by one: it fails exactly when
   one of them would, with the same error, and otherwise leaves the same book and owes what they paid.
   */
  lemma {:induction false} BatchIsOneByOne(m: Money, l: Ledger, ids: seq<nat>, sender: Address, now: nat, total: nat)
    requires Sound(l) && Paid(m, l.money, sender, total)
    ensures Settles(m, Collect(l.settings, l.book.transactions, l.book.lastId, ids, sender, now, total),
                    OneByOne(l, ids, sender, now), l.book, sender)
    decreases |ids|
  {
    if |ids| > 0 {
      var id, init := ids[|ids| - 1], ids[..|ids| - 1];
      if WithdrawalError(l.settings, l.book.transactions, l.book.lastId, id, sender, now) == None {
        var next := OneMorePaid(m, l, id, sender, now, total);
        BatchIsOneByOne(m, next, init, sender, now, total + l.Tx(id).amount);
        BothGoOn(l, ids, sender, now, total, next);
        SameBookAfter(m, Collect(l.settings, l.book.transactions, l.book.lastId, ids, sender, now, total),
                      OneByOne(l, ids, sender, now), next.book, l.book, sender);
      }
    }
  }

  lemma BothGoOn(l: Ledger, ids: seq<nat>, sender: Address, now: nat, total: nat, next: Ledger)
    requires |ids| > 0 && WithdrawReceived(l, ids[|ids| - 1], sender, now) == Done(next)
    requires WithdrawalError(l.settings, l.book.transactions, l.book.lastId, ids[|ids| - 1], sender, now) == None
    requires next.settings == l.settings
    requires next.book == l.book.(transactions := MarkWithdrawn(l.book.transactions, ids[|ids| - 1]))
    ensures var init, more := ids[..|ids| - 1], total + l.Tx(ids[|ids| - 1]).amount;
            && OneByOne(l, ids, sender, now) == OneByOne(next, init, sender, now)
            && Collect(l.settings, l.book.transactions, l.book.lastId, ids, sender, now, total)
               == Collect(next.settings, next.book.transactions, next.book.lastId, init, sender, now, more)
  {
  }

  lemma SameBookAfter(m: Money, c: Collected, singles: Outcome, book: Book, book': Book, sender: Address)
    requires Settles(m, c, singles, book, sender)
    requires book.lastId == book'.lastId && book.byBridge == book'.byBridge
    ensures Settles(m, c, singles, book', sender)
  {
  }

  lemma OneMorePaid(m: Money, l: Ledger, id: nat, sender: Address, now: nat, total: nat) returns (next: Ledger)
    requires Sound(l) && Paid(m, l.money, sender, total)
    requires WithdrawalError(l.settings, l.book.transactions, l.book.lastId, id, sender, now) == None
    ensures WithdrawReceived(l, id, sender, now) == Done(next) && Sound(next) && next.settings == l.settings
    ensures next.book == l.book.(transactions := MarkWithdrawn(l.book.transactions, id))
    ensures Paid(m, next.money, sender, total + l.Tx(id).amount)
  {
    WithdrawSound(l, id, sender, now);
    next := WithdrawReceived(l, id, sender, now).ledger;
  }

  lemma SplitLast(ids: seq<nat>)
    requires |ids| > 0
    ensures var last, init := ids[|ids| - 1], ids[..|ids| - 1];
            && (forall id :: id in ids <==> id in init || id == last)
            && (Distinct(ids) <==> Distinct(init) && last !in init)
  {
    assert ids == ids[..|ids| - 1] + [ids[|ids| - 1]];
  }

  /**
   A batch goes through exactly when its ids are distinct and each could be withdrawn by itself; it then
   withdraws these and nothing else. The order of the ids therefore does not matter.
   */
  lemma {:induction false} BatchSucceedsIff(s: Settings, txs: Transactions, lastId: nat, ids: seq<nat>, sender: Address,
                                            now: nat, total: nat)
    ensures var c := Collect(s, txs, lastId, ids, sender, now, total);
            && (c.Collected? <==>
                  Distinct(ids) && forall id | id in ids :: WithdrawalError(s, txs, lastId, id, sender, now) == None)
            && (c.Collected? ==>
                  forall id :: At(c.txs, id) == if id in ids then At(txs, id).(status := Withdrawn) else At(txs, id))
    decreases |ids|
  {
    if |ids| > 0 {
      var last, init := ids[|ids| - 1], ids[..|ids| - 1];
      SplitLast(ids);
      if WithdrawalError(s, txs, lastId, last, sender, now) == None {
        var marked := MarkWithdrawn(txs, last);
        BatchSucceedsIff(s, marked, lastId, init, sender, now, total + At(txs, last).amount);
        assert WithdrawalError(s, marked, lastId, last, sender, now) != None;
        OtherErrorsStay(s, txs, lastId, last, sender, now);
      }
    }
  }

  lemma OtherErrorsStay(s: Settings, txs: Transactions, lastId: nat, done: nat, sender: Address, now: nat)
    ensures forall id :: id != done ==>
              WithdrawalError(s, MarkWithdrawn(txs, done), lastId, id, sender, now) ==
              WithdrawalError(s, txs, lastId, id, sender, now)
  {
  }

  lemma BatchSound(l: Ledger, ids: seq<nat>, sender: Address, now: nat)
    requires Sound(l)
    ensures var batch := WithdrawReceivedMany(l, ids, sender, now);
            match OneByOne(l, ids, sender, now)
            case Reverted(e) => batch == Reverted(e)
            case Done(l') =>
              && batch.Done? && Sound(batch.ledger)
              && batch.ledger.book == l'.book && Paid(l'.money, batch.ledger.money, sender, 0)
  {
    BatchIsOneByOne(l.money, l, ids, sender, now, 0);
    var singles := OneByOne(l, ids, sender, now);
    if singles.Done? {
      var batch := WithdrawReceivedMany(l, ids, sender, now).ledger;
      assert forall x :: Amount(batch.money.paid, x) == Amount(singles.ledger.money.paid, x);
    }
  }

  /** In a sound ledger the call goes through exactly when its ids are distinct and each could be withdrawn alone. */
  lemma BatchDoneIff(l: Ledger, ids: seq<nat>, sender: Address, now: nat)
    requires Sound(l)
    ensures WithdrawReceivedMany(l, ids, sender, now).Done? <==>
            Distinct(ids) && forall id | id in ids :: WithdrawReceived(l, id, sender, now).Done?
  {
    BatchSound(l, ids, sender, now);
    BatchIsOneByOne(l.money, l, ids, sender, now, 0);
    BatchSucceedsIff(l.settings, l.book.transactions, l.book.lastId, ids, sender, now, 0);
    forall id | id in ids
      ensures WithdrawReceived(l, id, sender, now).Done? <==>
              WithdrawalError(l.settings, l.book.transactions, l.book.lastId, id, sender, now) == None
    {
      DoneWithoutError(l, id, sender, now);
    }
  }

  lemma DoneWithoutError(l: Ledger, id: nat, sender: Address, now: nat)
    requires Sound(l)
    ensures WithdrawReceived(l, id, sender, now).Done? <==>
            WithdrawalError(l.settings, l.book.transactions, l.book.lastId, id, sender, now) == None
  {
    if WithdrawalError(l.settings, l.book.transactions, l.book.lastId, id, sender, now) == None {
      WithdrawSound(l, id, sender, now);
    }
  }

  // ---- Every run ----

  lemma StepSound(l: Ledger, e: Event)
    requires Sound(l)
    ensures Sound(Step(l, e))
  {
    match e
    case ToBridge(user, amount, bridge, now) =>
      if Call(l, e).Done? {
        TransferSound(l, user, amount, bridge, now);
      }
    case Claim(id, sender, now) =>
      if WithdrawalError(l.settings, l.book.transactions, l.book.lastId, id, sender, now) == None {
        WithdrawSound(l, id, sender, now);
      }
    case ClaimMany(ids, sender, now) => BatchSound(l, ids, sender, now);
    case Suspend(id) =>
      if Call(l, e).Done? {
        RewriteSound(l, id, l.Tx(id).(status := Suspended), l.money);
      }
    case Restore(id, validAmount) =>
      if Call(l, e).Done? {
        RewriteSound(l, id, l.Tx(id).(status := Received, amount := validAmount), Call(l, e).ledger.money);
      }
    case Configure(_, _, _) =>
    case Elsewhere(_, _, _) =>
  }

  /** From the empty ledger on, the lock is what is open, bridges got what is withdrawn, and all of it is covered. */
  lemma {:induction false} RunSound(l: Ledger, events: seq<Event>)
    requires Sound(l)
    ensures Sound(Run(l, events))
  {
    if |events| > 0 {
      RunSound(l, events[..|events| - 1]);
      StepSound(Run(l, events[..|events| - 1]), events[|events| - 1]);
    }
  }

  lemma EmptyIsSound(settings: Settings, collateral: nat, balances: map<Address, nat>)
    ensures Sound(Ledger(settings, Book(map[], 0, map[]), Money(balances, 0, collateral, map[], 0)))
  {
    var l := Ledger(settings, Book(map[], 0, map[]), Money(balances, 0, collateral, map[], 0));
    assert OpenSum(l.book.transactions, 1) == 0 by {
      assert OpenSum(l.book.transactions, 0) == 0;
    }
    forall b
      ensures PaidSum(l.book.transactions, 1, b) == 0
    {
      assert PaidSum(l.book.transactions, 0, b) == 0;
    }
  }

  // ---- What a record keeps ----

  /** A record, once written, keeps its parties and time; its amount only falls, and not once it is withdrawn. */
  ghost predicate RecordKept(before: Transaction, after: Transaction) {
    && after.id == before.id && after.user == before.user && after.bridge == before.bridge
    && after.timestamp == before.timestamp && after.amount <= before.amount
    && (before.status == Withdrawn ==> after == before)
  }

  ghost predicate RecordsKept(before: Book, after: Book) {
    && before.lastId <= after.lastId
    && forall id :: 0 <= id <= before.lastId ==> RecordKept(At(before.transactions, id), At(after.transactions, id))
  }

  lemma StepKeepsRecords(l: Ledger, e: Event)
    ensures RecordsKept(l.book, Step(l, e).book)
  {
    if e.ClaimMany? {
      BatchSucceedsIff(l.settings, l.book.transactions, l.book.lastId, e.ids, e.sender, e.now, 0);
    }
  }

  lemma {:induction false} RunKeepsRecords(l: Ledger, events: seq<Event>)
    ensures RecordsKept(l.book, Run(l, events).book)
  {
    if |events| > 0 {
      RunKeepsRecords(l, events[..|events| - 1]);
      var before := Run(l, events[..|events| - 1]);
      StepKeepsRecords(before, events[|events| - 1]);
      assert forall id :: 0 <= id <= l.book.lastId ==>
                            RecordKept(At(l.book.transactions, id), At(before.book.transactions, id));
    }
  }

  /** A bridge's list names exactly the transactions sent to it. */
  ghost predicate Indexed(b: Book) {
    forall bridge, id :: id in b.Of(bridge) <==> 1 <= id <= b.lastId && At(b.transactions, id).bridge == bridge
  }

  lemma StepKeepsLists(l: Ledger, e: Event, b: Address)
    ensures var after := Step(l, e).book;
            || (after.lastId == l.book.lastId && after.Of(b) == l.book.Of(b))
            || (after.lastId == l.book.lastId + 1
                && after.Of(b) == if At(after.transactions, after.lastId).bridge == b then l.book.Of(b) + [after.lastId]
                                  else l.book.Of(b))
  {
  }

  /** An old id stays in its list, and the new one comes into that of its bridge. */
  lemma IndexKept(before: Book, after: Book, b: Address, id: int)
    requires Indexed(before) && RecordsKept(before, after)
    requires || (after.lastId == before.lastId && after.Of(b) == before.Of(b))
             || (after.lastId == before.lastId + 1
                 && after.Of(b) == if At(after.transactions, after.lastId).bridge == b
                                   then before.Of(b) + [after.lastId] else before.Of(b))
    ensures id in after.Of(b) <==> 1 <= id <= after.lastId && At(after.transactions, id).bridge == b
  {
    assert id in before.Of(b) <==> 1 <= id <= before.lastId && At(before.transactions, id).bridge == b;
    if 0 <= id <= before.lastId {
      assert RecordKept(At(before.transactions, id), At(after.transactions, id));
    }
  }

  lemma StepKeepsIndex(l: Ledger, e: Event)
    requires Indexed(l.book)
    ensures Indexed(Step(l, e).book)
  {
    StepKeepsRecords(l, e);
    forall b, id
      ensures id in Step(l, e).book.Of(b) <==>
              1 <= id <= Step(l, e).book.lastId && At(Step(l, e).book.transactions, id).bridge == b
    {
      StepKeepsLists(l, e, b);
      IndexKept(l.book, Step(l, e).book, b, id);
    }
  }

  lemma {:induction false} RunKeepsIndex(l: Ledger, events: seq<Event>)
    requires Indexed(l.book)
    ensures Indexed(Run(l, events).book)
  {
    if |events| > 0 {
      RunKeepsIndex(l, events[..|events| - 1]);
      StepKeepsIndex(Run(l, events[..|events| - 1]), events[|events| - 1]);
    }
  }
}
