/** The bridge ledger: fast withdrawals through trusted bridges. */
module BridgeContract {
  import opened Collections
  import opened Diamond

  datatype Status = Received | Suspended | Withdrawn

  datatype Transaction =
    Transaction(id: nat, amount: nat, user: Address, bridge: Address, timestamp: nat, status: Status)

  /** What a storage mapping holds before the first write. */
  const NO_TRANSACTION := Transaction(0, 0, ZERO_ADDRESS, ZERO_ADDRESS, 0, Received)

  type Transactions = map<nat, Transaction>

  function At(txs: Transactions, id: nat): Transaction {
    if id in txs then txs[id] else NO_TRANSACTION
  }

  function Amount(amounts: map<Address, nat>, a: Address): nat {
    if a in amounts then amounts[a] else 0
  }

  function Credit(amounts: map<Address, nat>, a: Address, amount: nat): map<Address, nat> {
    amounts[a := Amount(amounts, a) + amount]
  }

  /** What other facets configure; `decimals` belongs to the collateral token. */
  datatype Settings = Settings(decimals: nat, bridges: set<Address>, pool: Address, cooldown: nat)

  /**
   Internal balances have 18 decimals; the lock, the contract's collateral and what bridges were paid
   have the token's. `others` is history: the part of the lock that other facets put there.
   */
  datatype Money =
    Money(balances: map<Address, nat>, locked: nat, collateral: nat, paid: map<Address, nat>, others: nat)

  datatype Book = Book(transactions: Transactions, lastId: nat, byBridge: map<Address, seq<nat>>) {
    function Of(bridge: Address): seq<nat> { if bridge in byBridge then byBridge[bridge] else [] }
  }

  datatype Ledger = Ledger(settings: Settings, book: Book, money: Money) {
    function Tx(id: nat): Transaction { At(book.transactions, id) }
  }

  datatype Error =
    | InvalidBridge | SameAddress | InsufficientBalance | InsufficientCollateral
    | InvalidId | AlreadyWithdrawn | CooldownNotReached | NotTheBridge | InvalidStatus | ZeroPool | HighValidAmount
    | Underflow | TransferFailed

  datatype Outcome = Done(ledger: Ledger) | Reverted(error: Error)

  function Pow10(n: nat): (p: nat)
    ensures p > 0
  {
    if n == 0 then 1 else 10 * Pow10(n - 1)
  }

  /** From collateral decimals to 18, rounding down. */
  function To18(amount: nat, decimals: nat): nat {
    Quotient(amount * 1_000_000_000_000_000_000, Pow10(decimals))
  }

  function Quotient(a: nat, b: nat): nat
    requires b > 0
  {
    a / b
  }

  function TransferToBridge(l: Ledger, user: Address, amount: nat, bridge: Address, now: nat): Outcome {
    var debit := To18(amount, l.settings.decimals);
    if bridge !in l.settings.bridges then Reverted(InvalidBridge)
    else if bridge == user then Reverted(SameAddress)
    else if Amount(l.money.balances, user) < debit then Reverted(InsufficientBalance)
    else if l.money.collateral < l.money.locked then Reverted(Underflow)
    else if l.money.collateral - l.money.locked < amount then Reverted(InsufficientCollateral)
    else
      var id := l.book.lastId + 1;
      var tx := Transaction(id, amount, user, bridge, now, Received);
      Done(l.(book := Book(l.book.transactions[id := tx], id, l.book.byBridge[bridge := l.book.Of(bridge) + [id]]),
              money := l.money.(balances := l.money.balances[user := Amount(l.money.balances, user) - debit],
                                locked := l.money.locked + amount)))
  }

  /** The checks before a withdrawal, in order. */
  function WithdrawalError(s: Settings, txs: Transactions, lastId: nat, id: nat, sender: Address, now: nat)
      : Option<Error>
  {
    var tx := At(txs, id);
    if id > lastId then Some(InvalidId)
    else if tx.status != Received then Some(AlreadyWithdrawn)
    else if now < s.cooldown + tx.timestamp then Some(CooldownNotReached)
    else if tx.bridge !in s.bridges then Some(InvalidBridge)
    else if sender != tx.bridge then Some(NotTheBridge)
    else None
  }

  /** Pays an amount out of the lock. */
  function Payout(m: Money, bridge: Address, amount: nat): Option<Money> {
    if m.collateral < amount || m.locked < amount then None
    else
      Some(m.(locked := m.locked - amount, collateral := m.collateral - amount, paid := Credit(m.paid, bridge, amount)))
  }

  function PayoutError(m: Money, amount: nat): Error {
    if m.collateral < amount then TransferFailed else Underflow
  }

  function MarkWithdrawn(txs: Transactions, id: nat): Transactions {
    txs[id := At(txs, id).(status := Withdrawn)]
  }

  function WithdrawReceived(l: Ledger, id: nat, sender: Address, now: nat): Outcome {
    var error := WithdrawalError(l.settings, l.book.transactions, l.book.lastId, id, sender, now);
    if error.Some? then Reverted(error.value)
    else
      match Payout(l.money, l.Tx(id).bridge, l.Tx(id).amount)
      case None => Reverted(PayoutError(l.money, l.Tx(id).amount))
      case Some(money) =>
        Done(l.(book := l.book.(transactions := MarkWithdrawn(l.book.transactions, id)), money := money))
  }

  datatype Collected = Collected(txs: Transactions, total: nat) | Rejected(error: Error)

  /** The batch's loop, from the last id to the first. */
  function Collect(s: Settings, txs: Transactions, lastId: nat, ids: seq<nat>, sender: Address, now: nat, total: nat)
      : Collected
    decreases |ids|
  {
    if |ids| == 0 then Collected(txs, total)
    else
      var id := ids[|ids| - 1];
      match WithdrawalError(s, txs, lastId, id, sender, now)
      case Some(e) => Rejected(e)
      case None => Collect(s, MarkWithdrawn(txs, id), lastId, ids[..|ids| - 1], sender, now, total + At(txs, id).amount)
  }

  function WithdrawReceivedMany(l: Ledger, ids: seq<nat>, sender: Address, now: nat): Outcome {
    match Collect(l.settings, l.book.transactions, l.book.lastId, ids, sender, now, 0)
    case Rejected(e) => Reverted(e)
    case Collected(txs, total) =>
      if l.money.locked < total then Reverted(Underflow)
      else if l.money.collateral < total then Reverted(TransferFailed)
      else Done(l.(book := l.book.(transactions := txs), money := Payout(l.money, sender, total).value))
  }

  function SuspendTransaction(l: Ledger, id: nat): Outcome {
    if id > l.book.lastId then Reverted(InvalidId)
    else if l.Tx(id).status != Received then Reverted(InvalidStatus)
    else Done(l.(book := l.book.(transactions := l.book.transactions[id := l.Tx(id).(status := Suspended)])))
  }

  function RestoreTransaction(l: Ledger, id: nat, validAmount: nat): Outcome {
    var tx := l.Tx(id);
    if tx.status != Suspended then Reverted(InvalidStatus)
    else if l.settings.pool == ZERO_ADDRESS then Reverted(ZeroPool)
    else if validAmount > tx.amount then Reverted(HighValidAmount)
    else if l.money.locked < tx.amount - validAmount then Reverted(Underflow)
    else
      var invalid := tx.amount - validAmount;
      var restored := tx.(status := Received, amount := validAmount);
      var credited := Credit(l.money.balances, l.settings.pool, To18(invalid, l.settings.decimals));
      Done(l.(book := l.book.(transactions := l.book.transactions[id := restored]),
              money := l.money.(balances := credited, locked := l.money.locked - invalid)))
  }

  /** A call either has its effect or reports its error and changes nothing. */
  ghost predicate Follows(outcome: Outcome, before: Ledger, after: Ledger, error: Option<Error>) {
    match outcome
    case Done(l) => after == l && error == None
    case Reverted(e) => after == before && error == Some(e)
  }

  class BridgeFacet {
    var settings: Settings
    var transactions: Transactions
    var lastId: nat
    var byBridge: map<Address, seq<nat>>
    var money: Money

    constructor (settings: Settings, collateral: nat, balances: map<Address, nat>)
      ensures State() == Ledger(settings, Book(map[], 0, map[]), Money(balances, 0, collateral, map[], 0))
    {
      this.settings := settings;
      transactions, lastId, byBridge := map[], 0, map[];
      money := Money(balances, 0, collateral, map[], 0);
    }

    ghost function State(): Ledger
      reads this
    {
      Ledger(settings, Book(transactions, lastId, byBridge), money)
    }

    method Transfer(user: Address, amount: nat, bridge: Address, now: nat)
        returns (currentId: nat, error: Option<Error>)
      modifies this
      ensures Follows(TransferToBridge(old(State()), user, amount, bridge, now), old(State()), State(), error)
      ensures error == None ==> currentId == lastId == old(lastId) + 1
    {
      if bridge !in settings.bridges {
        return 0, Some(InvalidBridge);
      }
      if bridge == user {
        return 0, Some(SameAddress);
      }
      var amountWith18Decimals := To18(amount, settings.decimals);
      if Amount(money.balances, user) < amountWith18Decimals {
        return 0, Some(InsufficientBalance);
      }
      if money.collateral < money.locked {
        return 0, Some(Underflow);
      }
      if money.collateral - money.locked < amount {
        return 0, Some(InsufficientCollateral);
      }
      lastId := lastId + 1;
      currentId := lastId;
      money := money.(balances := money.balances[user := Amount(money.balances, user) - amountWith18Decimals]);
      money := money.(locked := money.locked + amount);
      transactions := transactions[currentId := Transaction(currentId, amount, user, bridge, now, Received)];
      byBridge := byBridge[bridge := (if bridge in byBridge then byBridge[bridge] else []) + [currentId]];
      return currentId, None;
    }

    method Withdraw(id: nat, sender: Address, now: nat) returns (error: Option<Error>)
      modifies this
      ensures Follows(WithdrawReceived(old(State()), id, sender, now), old(State()), State(), error)
    {
      error := WithdrawalError(settings, transactions, lastId, id, sender, now);
      if error.Some? {
        return;
      }
      var tx := At(transactions, id);
      if money.collateral < tx.amount {
        return Some(TransferFailed);
      }
      if money.locked < tx.amount {
        return Some(Underflow);
      }
      money := money.(collateral := money.collateral - tx.amount, paid := Credit(money.paid, tx.bridge, tx.amount));
      money := money.(locked := money.locked - tx.amount);
      transactions := transactions[id := tx.(status := Withdrawn)];
    }

    /** Marks the batch from its last id to its first; a bad id undoes the marks. */
    method WithdrawMany(ids: seq<nat>, sender: Address, now: nat) returns (error: Option<Error>)
      modifies this
      ensures Follows(WithdrawReceivedMany(old(State()), ids, sender, now), old(State()), State(), error)
    {
      var before, i := transactions, |ids|;
      var totalAmount: nat := 0;
      assert ids[..i] == ids;
      while i != 0
        invariant 0 <= i <= |ids|
        invariant Collect(settings, before, lastId, ids, sender, now, 0)
               == Collect(settings, transactions, lastId, ids[..i], sender, now, totalAmount)
        invariant State() == old(State()).(book := old(State()).book.(transactions := transactions))
      {
        assert ids[..i][..i - 1] == ids[..i - 1];
        error := WithdrawalError(settings, transactions, lastId, ids[i - 1], sender, now);
        if error.Some? {
          transactions := before;
          return;
        }
        totalAmount := totalAmount + At(transactions, ids[i - 1]).amount;
        transactions := MarkWithdrawn(transactions, ids[i - 1]);
        i := i - 1;
      }
      if money.locked < totalAmount {
        transactions := before;
        return Some(Underflow);
      }
      if money.collateral < totalAmount {
        transactions := before;
        return Some(TransferFailed);
      }
      money := money.(locked := money.locked - totalAmount);
      money := money.(collateral := money.collateral - totalAmount, paid := Credit(money.paid, sender, totalAmount));
      return None;
    }

    method Suspend(id: nat) returns (error: Option<Error>)
      modifies this
      ensures Follows(SuspendTransaction(old(State()), id), old(State()), State(), error)
    {
      if id > lastId {
        return Some(InvalidId);
      }
      var tx := At(transactions, id);
      if tx.status != Received {
        return Some(InvalidStatus);
      }
      transactions := transactions[id := tx.(status := Suspended)];
      return None;
    }

    method Restore(id: nat, validAmount: nat) returns (error: Option<Error>)
      modifies this
      ensures Follows(RestoreTransaction(old(State()), id, validAmount), old(State()), State(), error)
    {
      var tx := At(transactions, id);
      if tx.status != Suspended {
        return Some(InvalidStatus);
      }
      if settings.pool == ZERO_ADDRESS {
        return Some(ZeroPool);
      }
      if validAmount > tx.amount {
        return Some(HighValidAmount);
      }
      var invalidAmount := tx.amount - validAmount;
      if money.locked < invalidAmount {
        return Some(Underflow);
      }
      money := money.(balances := Credit(money.balances, settings.pool, To18(invalidAmount, settings.decimals)));
      money := money.(locked := money.locked - invalidAmount);
      transactions := transactions[id := tx.(status := Received, amount := validAmount)];
      return None;
    }
  }
}
