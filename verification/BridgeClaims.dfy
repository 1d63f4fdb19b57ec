/** When a bridge call goes through, what it does to each record and balance, and when a bridge is paid. */
module BridgeClaims {
  import opened Collections
  import opened Diamond
  import opened BridgeContract
  import opened BridgeSafety

  // ---- The calls ----

  /** A received transaction that its own, registered bridge claims after the cooldown. */
  ghost predicate Due(l: Ledger, id: nat, sender: Address, now: nat) {
    && id <= l.book.lastId && l.Tx(id).status == Received
    && sender == l.Tx(id).bridge && sender in l.settings.bridges
    && l.Tx(id).timestamp + l.settings.cooldown <= now
  }

  /** What a call asks for; of the lock it is only asked that the new amount fits beside it. */
  ghost predicate Allowed(l: Ledger, e: Event) {
    match e
    case ToBridge(user, amount, bridge, _) =>
      && bridge in l.settings.bridges && bridge != user
      && To18(amount, l.settings.decimals) <= Amount(l.money.balances, user)
      && l.money.locked + amount <= l.money.collateral
    case Claim(id, sender, now) => Due(l, id, sender, now)
    case ClaimMany(ids, sender, now) => Distinct(ids) && forall id | id in ids :: Due(l, id, sender, now)
    case Suspend(id) => id <= l.book.lastId && l.Tx(id).status == Received
    case Restore(id, validAmount) =>
      l.Tx(id).status == Suspended && l.settings.pool != ZERO_ADDRESS && validAmount <= l.Tx(id).amount
    case Configure(_, _, _) => true
    case Elsewhere(_, others, collateral) => 0 <= l.money.locked - l.money.others + others <= collateral
  }

  /** A call that goes through leaves record `id` like this. */
  ghost predicate RecordMoves(l: Ledger, e: Event, id: nat, after: Transaction) {
    match e
    case ToBridge(user, amount, bridge, now) =>
      after == if id == l.book.lastId + 1 then Transaction(id, amount, user, bridge, now, Received) else l.Tx(id)
    case Claim(claimed, _, _) => after == if id == claimed then l.Tx(id).(status := Withdrawn) else l.Tx(id)
    case ClaimMany(ids, _, _) => after == if id in ids then l.Tx(id).(status := Withdrawn) else l.Tx(id)
    case Suspend(suspended) => after == if id == suspended then l.Tx(id).(status := Suspended) else l.Tx(id)
    case Restore(restored, validAmount) =>
      after == if id == restored then l.Tx(id).(status := Received, amount := validAmount) else l.Tx(id)
    case Configure(_, _, _) => after == l.Tx(id)
    case Elsewhere(_, _, _) => after == l.Tx(id)
  }

  /** What a call that goes through adds to the internal balance of `x`: only senders and the pool have any. */
  function BalanceChange(l: Ledger, e: Event, x: Address): int {
    match e
    case ToBridge(user, amount, _, _) => if x == user then 0 - To18(amount, l.settings.decimals) else 0
    case Restore(id, validAmount) =>
      if x == l.settings.pool && validAmount <= l.Tx(id).amount
      then To18(l.Tx(id).amount - validAmount, l.settings.decimals) else 0
    case Elsewhere(balances, _, _) => Amount(balances, x) - Amount(l.money.balances, x)
    case _ => 0
  }

  /** In a sound ledger a call goes through exactly when it is allowed. */
  lemma CallDoneIff(l: Ledger, e: Event)
    requires Sound(l)
    ensures Call(l, e).Done? <==> Allowed(l, e)
  {
    match e
    case Claim(id, sender, now) => DoneWithoutError(l, id, sender, now);
    case ClaimMany(ids, sender, now) =>
      BatchDoneIff(l, ids, sender, now);
      forall id | id in ids
        ensures WithdrawReceived(l, id, sender, now).Done? <==> Due(l, id, sender, now)
      {
        DoneWithoutError(l, id, sender, now);
      }
    case Restore(id, _) => OpenRecordIsLocked(l, id);
    case _ =>
  }

  lemma OpenRecordIsLocked(l: Ledger, id: nat)
    requires Sound(l)
    ensures l.Tx(id).status == Suspended ==> id <= l.book.lastId && l.Tx(id).amount <= l.money.locked
  {
    if l.Tx(id).status == Suspended {
      assert id in l.book.transactions;
      OpenIsInSum(l.book.transactions, l.book.lastId + 1, id);
    }
  }

  /** Which records and balances a call moves, and how; a call that is not allowed moves nothing. */
  lemma CallMoves(l: Ledger, e: Event, id: nat, x: Address)
    requires Sound(l)
    ensures Allowed(l, e) ==> RecordMoves(l, e, id, Step(l, e).Tx(id))
    ensures Allowed(l, e) ==>
              Amount(Step(l, e).money.balances, x) == Amount(l.money.balances, x) + BalanceChange(l, e, x)
    ensures !Allowed(l, e) ==> Step(l, e) == l
  {
    CallDoneIff(l, e);
    if e.ClaimMany? {
      BatchSucceedsIff(l.settings, l.book.transactions, l.book.lastId, e.ids, e.sender, e.now, 0);
    }
  }

  // ---- Why a call is refused ----

  /** The call is about transaction `id`. */
  ghost predicate Concerns(e: Event, id: int) {
    match e
    case Claim(claimed, _, _) => id == claimed
    case ClaimMany(ids, _, _) => id in ids
    case Suspend(suspended) => id == suspended
    case Restore(restored, _) => id == restored
    case _ => false
  }

  /** What an error says of the call; the two that no sound ledger reports say nothing. */
  ghost predicate Justified(l: Ledger, e: Event, error: Error) {
    match error
    case InvalidId => exists id: nat :: Concerns(e, id) && id > l.book.lastId
    case AlreadyWithdrawn =>
      (e.ClaimMany? && !Distinct(e.ids)) || exists id: nat :: Concerns(e, id) && l.Tx(id).status != Received
    case CooldownNotReached =>
      && (e.Claim? || e.ClaimMany?)
      && exists id: nat :: Concerns(e, id) && e.now < l.Tx(id).timestamp + l.settings.cooldown
    case NotTheBridge => (e.Claim? || e.ClaimMany?) && exists id: nat :: Concerns(e, id) && e.sender != l.Tx(id).bridge
    case InvalidBridge =>
      if e.ToBridge? then e.bridge !in l.settings.bridges
      else exists id: nat :: Concerns(e, id) && l.Tx(id).bridge !in l.settings.bridges
    case SameAddress => e.ToBridge? && e.bridge == e.user
    case InsufficientBalance =>
      e.ToBridge? && Amount(l.money.balances, e.user) < To18(e.amount, l.settings.decimals)
    case InsufficientCollateral =>
      || (e.ToBridge? && l.money.collateral < l.money.locked + e.amount)
      || (e.Elsewhere? && !Allowed(l, e))
    case InvalidStatus =>
      exists id: nat :: Concerns(e, id) && l.Tx(id).status != if e.Suspend? then Received else Suspended
    case ZeroPool => e.Restore? && l.settings.pool == ZERO_ADDRESS
    case HighValidAmount => e.Restore? && e.validAmount > l.Tx(e.id).amount
    case Underflow => false
    case TransferFailed => false
  }

  /** A batch is refused for one of its ids, or because an id comes twice. */
  lemma {:induction false} RejectedFor(s: Settings, txs: Transactions, lastId: nat, ids: seq<nat>, sender: Address,
                                       now: nat, total: nat)
    ensures var c := Collect(s, txs, lastId, ids, sender, now, total);
            c.Rejected? ==>
              || (c.error == AlreadyWithdrawn && !Distinct(ids))
              || exists id :: id in ids && WithdrawalError(s, txs, lastId, id, sender, now) == Some(c.error)
    decreases |ids|
  {
    if |ids| > 0 {
      var last, init := ids[|ids| - 1], ids[..|ids| - 1];
      SplitLast(ids);
      if WithdrawalError(s, txs, lastId, last, sender, now) == None {
        RejectedFor(s, MarkWithdrawn(txs, last), lastId, init, sender, now, total + At(txs, last).amount);
        OtherErrorsStay(s, txs, lastId, last, sender, now);
      }
    }
  }

  /** In a sound ledger every refusal names a true reason. */
  lemma RefusalIsJustified(l: Ledger, e: Event)
    requires Sound(l) && Call(l, e).Reverted?
    ensures Justified(l, e, Call(l, e).error)
  {
    match e
    case Claim(id, sender, now) =>
      DoneWithoutError(l, id, sender, now);
      assert Concerns(e, id);
    case ClaimMany(ids, sender, now) => BatchRefusal(l, ids, sender, now);
    case Suspend(id) => assert Concerns(e, id);
    case Restore(id, _) =>
      OpenRecordIsLocked(l, id);
      assert Concerns(e, id);
    case _ =>
  }

  lemma BatchRefusal(l: Ledger, ids: seq<nat>, sender: Address, now: nat)
    requires Sound(l) && WithdrawReceivedMany(l, ids, sender, now).Reverted?
    ensures Justified(l, ClaimMany(ids, sender, now), WithdrawReceivedMany(l, ids, sender, now).error)
  {
    var txs, lastId := l.book.transactions, l.book.lastId;
    RejectedFor(l.settings, txs, lastId, ids, sender, now, 0);
    BatchIsOneByOne(l.money, l, ids, sender, now, 0);
    BatchSound(l, ids, sender, now);
    var c := Collect(l.settings, txs, lastId, ids, sender, now, 0);
    if id :| id in ids && WithdrawalError(l.settings, txs, lastId, id, sender, now) == Some(c.error) {
      assert Concerns(ClaimMany(ids, sender, now), id);
    }
  }

  // ---- When a bridge is paid ----

  /** The event claims transaction `id` in this state, alone or in a batch, and is owed it. */
  ghost predicate Collects(l: Ledger, e: Event, id: nat) {
    && Allowed(l, e)
    && match e {
         case Claim(claimed, sender, now) => claimed == id && Due(l, id, sender, now)
         case ClaimMany(ids, sender, now) => id in ids && Due(l, id, sender, now)
         case _ => false
       }
  }

  /** A step withdraws a transaction exactly when it is a claim of it that is due. */
  lemma WithdrawnIff(l: Ledger, e: Event, id: nat)
    requires Sound(l) && l.Tx(id).status != Withdrawn
    ensures Step(l, e).Tx(id).status == Withdrawn <==> Collects(l, e, id)
  {
    CallMoves(l, e, id, ZERO_ADDRESS);
  }

  function Before(l: Ledger, events: seq<Event>, k: nat): Ledger
    requires k <= |events|
  {
    Run(l, events[..k])
  }

  lemma RunSteps(l: Ledger, events: seq<Event>)
    requires |events| > 0
    ensures var init := events[..|events| - 1];
            && Run(l, events) == Step(Run(l, init), events[|events| - 1])
            && forall k | 0 <= k <= |init| :: Before(l, init, k) == Before(l, events, k)
  {
    var init := events[..|events| - 1];
    forall k | 0 <= k <= |init|
      ensures init[..k] == events[..k]
    {
    }
  }

  /** Over every run: what is withdrawn at its end was due when it was collected. */
  lemma {:induction false} PayoutWasDue(l: Ledger, events: seq<Event>, id: nat) returns (k: nat)
    requires Sound(l) && l.Tx(id).status != Withdrawn && Run(l, events).Tx(id).status == Withdrawn
    ensures k < |events| && Collects(Before(l, events, k), events[k], id)
    ensures forall i | k < i <= |events| :: Before(l, events, i).Tx(id) == Run(l, events).Tx(id)
  {
    var init := events[..|events| - 1];
    RunSteps(l, events);
    RunSound(l, init);
    assert events[..|events|] == events;
    if Run(l, init).Tx(id).status == Withdrawn {
      k := PayoutWasDue(l, init, id);
      assert Before(l, events, |init|) == Run(l, init);
      CallMoves(Run(l, init), events[|init|], id, ZERO_ADDRESS);
    } else {
      k := |init|;
      WithdrawnIff(Run(l, init), events[k], id);
    }
  }

  /** The event opened transaction `id` in this state. */
  ghost predicate Opens(l: Ledger, e: Event, id: nat, tx: Transaction) {
    && Allowed(l, e) && id == l.book.lastId + 1
    && e.ToBridge? && e.user == tx.user && e.bridge == tx.bridge && e.now == tx.timestamp && tx.amount <= e.amount
  }

  lemma LastIdMoves(l: Ledger, e: Event)
    requires Sound(l)
    ensures Step(l, e).book.lastId == l.book.lastId + if e.ToBridge? && Allowed(l, e) then 1 else 0
  {
    CallDoneIff(l, e);
  }

  /** Over every run: each record was opened by an allowed transfer from its user to its bridge. */
  lemma {:induction false} RecordWasOpened(l: Ledger, events: seq<Event>, id: nat) returns (j: nat)
    requires Sound(l) && l.book.lastId < id <= Run(l, events).book.lastId
    ensures j < |events| && Opens(Before(l, events, j), events[j], id, Run(l, events).Tx(id))
  {
    var init := events[..|events| - 1];
    RunSteps(l, events);
    RunSound(l, init);
    LastIdMoves(Run(l, init), events[|init|]);
    CallMoves(Run(l, init), events[|init|], id, ZERO_ADDRESS);
    if id <= Run(l, init).book.lastId {
      j := RecordWasOpened(l, init, id);
      StepKeepsRecords(Run(l, init), events[|init|]);
    } else {
      j := |init|;
      assert Before(l, events, j) == Run(l, init);
    }
  }

  /**
   The whole story of a payout: the user's transfer opened it, and later, when at least the cooldown of
   that moment had passed, its registered bridge collected it.
   */
  lemma EveryPayoutHasItsStory(l: Ledger, events: seq<Event>, id: nat) returns (j: nat, k: nat)
    requires Sound(l) && l.book.lastId < id && Run(l, events).Tx(id).status == Withdrawn
    ensures j < k < |events|
    ensures Opens(Before(l, events, j), events[j], id, Run(l, events).Tx(id))
    ensures Collects(Before(l, events, k), events[k], id)
    ensures events[k].sender == events[j].bridge
    ensures events[k].now >= events[j].now + Before(l, events, k).settings.cooldown
  {
    RunSound(l, events);
    assert id in Run(l, events).book.transactions;
    j := RecordWasOpened(l, events, id);
    assert l.Tx(id) == NO_TRANSACTION;
    k := PayoutWasDue(l, events, id);
    var last := Run(l, events);
    var at := Before(l, events, k);
    RunSound(l, events[..k]);
    RunFrom(l, events, k);
    RunKeepsRecords(at, events[k..]);
    if k <= j {
      RunFrom(l, events[..j], k);
      assert events[..j][..k] == events[..k];
      RunKeepsRecords(at, events[..j][k..]);
    }
  }

  lemma {:induction false} RunFrom(l: Ledger, events: seq<Event>, k: nat)
    requires k <= |events|
    ensures Run(l, events) == Run(Before(l, events, k), events[k..])
  {
    if k == |events| {
      assert events[..k] == events;
    } else {
      var init := events[..|events| - 1];
      RunFrom(l, init, k);
      assert init[..k] == events[..k];
      assert events[k..][..|events| - k - 1] == init[k..];
    }
  }
}
