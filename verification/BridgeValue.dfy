/** Conservation of value across bridge calls, and the decimals of the token that it depends on. */
module BridgeValue {
  import opened Collections
  import opened Diamond
  import opened BridgeContract
  import opened BridgeSafety

  // ---- Totals ----

  ghost function Total(amounts: map<Address, nat>): nat {
    if amounts == map[] then 0
    else
      var a :| a in amounts;
      amounts[a] + Total(amounts - {a})
  }

  lemma {:induction false} TotalSplit(amounts: map<Address, nat>, a: Address)
    requires a in amounts
    ensures Total(amounts) == amounts[a] + Total(amounts - {a})
  {
    var b :| b in amounts && Total(amounts) == amounts[b] + Total(amounts - {b});
    if b != a {
      TotalSplit(amounts - {b}, a);
      TotalSplit(amounts - {a}, b);
      assert amounts - {b} - {a} == amounts - {a} - {b};
    }
  }

  lemma TotalUpdate(amounts: map<Address, nat>, a: Address, v: nat)
    ensures Total(amounts[a := v]) == Total(amounts) - Amount(amounts, a) + v
  {
    TotalSplit(amounts[a := v], a);
    if a in amounts {
      TotalSplit(amounts, a);
      assert amounts[a := v] - {a} == amounts - {a};
    } else {
      assert amounts[a := v] - {a} == amounts;
    }
  }

  lemma {:induction false} ZerosTotal(amounts: map<Address, nat>)
    requires forall a | a in amounts :: amounts[a] == 0
    ensures Total(amounts) == 0
  {
    if amounts != map[] {
      var a :| a in amounts && Total(amounts) == amounts[a] + Total(amounts - {a});
      ZerosTotal(amounts - {a});
    }
  }

  lemma TakeOut(amounts: map<Address, nat>, a: Address)
    ensures Total(amounts) == Amount(amounts, a) + Total(amounts - {a})
    ensures forall x :: Amount(amounts - {a}, x) == if x == a then 0 else Amount(amounts, x)
  {
    if a in amounts {
      TotalSplit(amounts, a);
    } else {
      assert amounts - {a} == amounts;
    }
  }

  /** Entries of zero do not matter. */
  lemma {:induction false} TotalByAmounts(m: map<Address, nat>, n: map<Address, nat>)
    requires forall a :: Amount(m, a) == Amount(n, a)
    ensures Total(m) == Total(n)
    decreases m.Keys
  {
    if a :| a in m {
      TakeOut(m, a);
      TakeOut(n, a);
      assert (m - {a}).Keys == m.Keys - {a};
      TotalByAmounts(m - {a}, n - {a});
    } else {
      forall a | a in n
        ensures n[a] == 0
      {
        assert Amount(n, a) == Amount(m, a);
      }
      ZerosTotal(n);
    }
  }

  // ---- Decimals ----

  lemma {:induction false} PowAdd(a: nat, b: nat)
    ensures Pow10(a + b) == Pow10(a) * Pow10(b)
  {
    if a > 0 {
      PowAdd(a - 1, b);
      TimesTen(Pow10(a - 1), Pow10(b));
    }
  }

  lemma TimesTen(x: int, y: int)
    ensures 10 * (x * y) == 10 * x * y
  {
  }

  lemma TenTo18()
    ensures Pow10(18) == 1_000_000_000_000_000_000
  {
    assert Pow10(3) == 1_000;
    PowAdd(3, 3);
    PowAdd(6, 6);
    PowAdd(6, 12);
  }

  /** One token unit in internal units. */
  function Scale(decimals: nat): nat
    requires decimals <= 18
  {
    Pow10(18 - decimals)
  }

  lemma To18IsExact(amount: nat, decimals: nat)
    requires decimals <= 18
    ensures To18(amount, decimals) == amount * Scale(decimals)
  {
    TenTo18();
    PowAdd(decimals, 18 - decimals);
    ExactQuotient(amount, Pow10(decimals), Scale(decimals));
  }

  lemma ExactQuotient(amount: nat, p: nat, q: nat)
    requires p > 0
    ensures Quotient(amount * (p * q), p) == amount * q
  {
    assert amount * (p * q) == p * (amount * q);
    DivideProduct(amount * q, p);
  }

  lemma DivideProduct(x: nat, p: nat)
    requires p > 0
    ensures Quotient(p * x, p) == x
  {
    DivisionIsUnique(p * x, p, x);
  }

  lemma DivisionIsUnique(a: nat, p: nat, q: nat)
    requires p > 0 && a == p * q
    ensures a / p == q
  {
    if a / p < q {
      LessProduct(p, a / p, q);
    } else if q < a / p {
      LessProduct(p, q, a / p);
    }
  }

  lemma {:induction false} LessProduct(p: nat, x: nat, y: nat)
    requires p > 0 && x < y
    ensures p * x + p <= p * y
    decreases y
  {
    OneMoreFactor(p, y);
    if x < y - 1 {
      LessProduct(p, x, y - 1);
    }
  }

  lemma OneMoreFactor(p: nat, y: nat)
    requires y > 0
    ensures p * y == p * (y - 1) + p
  {
  }

  // ---- Conservation ----

  /** The finer of the internal unit and the token's: how many of it make one internal unit, and one token unit. */
  function PerInternalUnit(decimals: nat): nat {
    Pow10(Most(decimals, 18) - 18)
  }

  function PerTokenUnit(decimals: nat): nat {
    Pow10(Most(decimals, 18) - decimals)
  }

  /** What bridges were paid or can still be paid. */
  ghost function Owed(l: Ledger): nat {
    OpenSum(l.book.transactions, l.book.lastId + 1) + Total(l.money.paid)
  }

  /** What everybody owns: balances, open bridge transactions, and what bridges were paid. */
  ghost function Value(l: Ledger): nat {
    Total(l.money.balances) * PerInternalUnit(l.settings.decimals)
    + Owed(l) * PerTokenUnit(l.settings.decimals)
  }

  lemma ValueUpTo18(l: Ledger)
    requires l.settings.decimals <= 18
    ensures Value(l) ==
            Total(l.money.balances) + Owed(l) * Scale(l.settings.decimals)
  {
    assert PerInternalUnit(l.settings.decimals) == 1 && PerTokenUnit(l.settings.decimals) == Scale(l.settings.decimals);
  }

  /** Tokens held by the contract and by the bridges it paid. */
  ghost function Tokens(l: Ledger): nat {
    l.money.collateral + Total(l.money.paid)
  }

  ghost predicate Conserved(before: Ledger, after: Ledger) {
    && after.settings.decimals == before.settings.decimals
    && Value(after) == Value(before) && Tokens(after) == Tokens(before)
  }

  lemma Products(owed: int, x: int, scale: int)
    ensures x * scale + (owed - x) * scale == owed * scale
  {
  }

  /** Moving `x` token units from what is owed to the balances, or back, keeps the value. */
  lemma MovedOver(l: Ledger, l': Ledger, x: int)
    requires l.settings.decimals == l'.settings.decimals <= 18
    requires Total(l'.money.balances) == Total(l.money.balances) + x * Scale(l.settings.decimals)
    requires Owed(l') == Owed(l) - x
    ensures Value(l') == Value(l)
  {
    ValueUpTo18(l);
    ValueUpTo18(l');
    Products(Owed(l), x, Scale(l.settings.decimals));
  }

  lemma TransferMoves(l: Ledger, user: Address, amount: nat, bridge: Address, now: nat)
    requires TransferToBridge(l, user, amount, bridge, now).Done?
    ensures var l' := TransferToBridge(l, user, amount, bridge, now).ledger;
            && l'.settings == l.settings && Owed(l') == Owed(l) + amount && Tokens(l') == Tokens(l)
            && Total(l'.money.balances) == Total(l.money.balances) - To18(amount, l.settings.decimals)
  {
    var l' := TransferToBridge(l, user, amount, bridge, now).ledger;
    OpenSumUpdate(l.book.transactions, l'.book.lastId, l'.book.lastId, l'.Tx(l'.book.lastId));
    TotalUpdate(l.money.balances, user, Amount(l'.money.balances, user));
  }

  lemma Negated(x: int, scale: int)
    ensures -x * scale == -(x * scale)
  {
  }

  lemma TransferConserves(l: Ledger, user: Address, amount: nat, bridge: Address, now: nat)
    requires l.settings.decimals <= 18 && TransferToBridge(l, user, amount, bridge, now).Done?
    ensures Conserved(l, TransferToBridge(l, user, amount, bridge, now).ledger)
  {
    var bridged: int := amount;
    TransferMoves(l, user, amount, bridge, now);
    To18IsExact(amount, l.settings.decimals);
    Negated(bridged, Scale(l.settings.decimals));
    MovedOver(l, TransferToBridge(l, user, amount, bridge, now).ledger, -bridged);
  }

  lemma WithdrawConserves(l: Ledger, id: nat, sender: Address, now: nat)
    requires l.settings.decimals <= 18 && WithdrawReceived(l, id, sender, now).Done?
    ensures Conserved(l, WithdrawReceived(l, id, sender, now).ledger)
  {
    var tx := l.Tx(id);
    OpenSumUpdate(l.book.transactions, l.book.lastId + 1, id, tx.(status := Withdrawn));
    TotalUpdate(l.money.paid, tx.bridge, Amount(l.money.paid, tx.bridge) + tx.amount);
    MovedOver(l, WithdrawReceived(l, id, sender, now).ledger, 0);
  }

  lemma {:induction false} OneByOneConserves(l: Ledger, ids: seq<nat>, sender: Address, now: nat)
    requires l.settings.decimals <= 18 && OneByOne(l, ids, sender, now).Done?
    ensures Conserved(l, OneByOne(l, ids, sender, now).ledger)
    decreases |ids|
  {
    if |ids| > 0 {
      WithdrawConserves(l, ids[|ids| - 1], sender, now);
      OneByOneConserves(WithdrawReceived(l, ids[|ids| - 1], sender, now).ledger, ids[..|ids| - 1], sender, now);
    }
  }

  lemma BatchConserves(l: Ledger, ids: seq<nat>, sender: Address, now: nat)
    requires Sound(l) && l.settings.decimals <= 18 && WithdrawReceivedMany(l, ids, sender, now).Done?
    ensures Conserved(l, WithdrawReceivedMany(l, ids, sender, now).ledger)
  {
    BatchSound(l, ids, sender, now);
    OneByOneConserves(l, ids, sender, now);
    var singles, batch := OneByOne(l, ids, sender, now).ledger, WithdrawReceivedMany(l, ids, sender, now).ledger;
    TotalByAmounts(singles.money.paid, batch.money.paid);
  }

  lemma RestoreConserves(l: Ledger, id: nat, validAmount: nat)
    requires Sound(l) && l.settings.decimals <= 18 && RestoreTransaction(l, id, validAmount).Done?
    ensures Conserved(l, RestoreTransaction(l, id, validAmount).ledger)
  {
    var l' := RestoreTransaction(l, id, validAmount).ledger;
    var invalid := l.Tx(id).amount - validAmount;
    var pool := l.settings.pool;
    assert id <= l.book.lastId;
    To18IsExact(invalid, l.settings.decimals);
    OpenSumUpdate(l.book.transactions, l.book.lastId + 1, id, l'.Tx(id));
    TotalUpdate(l.money.balances, pool, Amount(l'.money.balances, pool));
    MovedOver(l, l', invalid);
  }

  lemma StepConserves(l: Ledger, e: Event)
    requires Sound(l) && l.settings.decimals <= 18 && !e.Elsewhere?
    ensures Conserved(l, Step(l, e))
  {
    if Call(l, e).Done? {
      match e
      case ToBridge(user, amount, bridge, now) => TransferConserves(l, user, amount, bridge, now);
      case Claim(id, sender, now) => WithdrawConserves(l, id, sender, now);
      case ClaimMany(ids, sender, now) => BatchConserves(l, ids, sender, now);
      case Suspend(id) => OpenSumUpdate(l.book.transactions, l.book.lastId + 1, id, l.Tx(id).(status := Suspended));
      case Restore(id, validAmount) => RestoreConserves(l, id, validAmount);
      case Configure(_, _, _) =>
    }
  }

  /** However bridge calls follow each other, no value and no token appears or disappears. */
  lemma {:induction false} RunConserves(l: Ledger, events: seq<Event>)
    requires Sound(l) && l.settings.decimals <= 18
    requires forall i :: 0 <= i < |events| ==> !events[i].Elsewhere?
    ensures Conserved(l, Run(l, events))
  {
    if |events| > 0 {
      RunConserves(l, events[..|events| - 1]);
      RunSound(l, events[..|events| - 1]);
      StepConserves(Run(l, events[..|events| - 1]), events[|events| - 1]);
    }
  }

  /** With more decimals the debit rounds down: a single unit is bridged for nothing. */
  lemma DustIsBridgedForFree(l: Ledger, user: Address, bridge: Address, now: nat)
    requires l.settings.decimals > 18 && bridge in l.settings.bridges && bridge != user
    requires l.money.locked < l.money.collateral
    ensures var outcome := TransferToBridge(l, user, 1, bridge, now);
            && outcome.Done? && outcome.ledger.money.locked == l.money.locked + 1
            && Total(outcome.ledger.money.balances) == Total(l.money.balances)
  {
    TenTo18();
    PowAdd(18, l.settings.decimals - 18);
    SmallQuotient(Pow10(18), Pow10(l.settings.decimals - 19));
    assert Pow10(l.settings.decimals - 18) == 10 * Pow10(l.settings.decimals - 19);
    TotalUpdate(l.money.balances, user, Amount(l.money.balances, user));
  }

  /** Nothing is lost or gained by any run of bridge calls, whatever sound ledger it starts from. */
  ghost predicate AlwaysConserved(decimals: nat) {
    forall l, events | Sound(l) && l.settings.decimals == decimals && NoneElsewhere(events) ::
      Conserved(l, Run(l, events))
  }

  ghost predicate NoneElsewhere(events: seq<Event>) {
    forall i :: 0 <= i < |events| ==> !events[i].Elsewhere?
  }

  /** A contract that holds one token unit and owes nothing. */
  function OneToken(decimals: nat): Ledger {
    Ledger(Settings(decimals, {2}, 0, 0), Book(map[], 0, map[]), Money(map[], 0, 1, map[], 0))
  }

  lemma OneTokenGained(decimals: nat)
    requires decimals > 18
    ensures Sound(OneToken(decimals))
    ensures !Conserved(OneToken(decimals), Run(OneToken(decimals), [ToBridge(1, 1, 2, 0)]))
  {
    var l, e := OneToken(decimals), ToBridge(1, 1, 2, 0);
    EmptyIsSound(l.settings, 1, map[]);
    DustIsBridgedForFree(l, 1, 2, 0);
    var l' := TransferToBridge(l, 1, 1, 2, 0).ledger;
    assert [e][..0] == [] && Run(l, [e]) == Step(l, e) == l';
    OpenSumUpdate(l.book.transactions, 1, 1, l'.Tx(1));
    OpenOfOne(l.book.transactions, l'.book.transactions);
    assert PerTokenUnit(decimals) == 1;
  }

  lemma OpenOfOne(none: Transactions, one: Transactions)
    requires none == map[] && one.Keys == {1} && one[1].status == Received && one[1].amount == 1
    ensures OpenSum(none, 1) == 0 && OpenSum(one, 2) == 1
  {
    assert OpenSum(none, 0) == 0 && OpenSum(one, 0) == 0 && OpenSum(one, 1) == 0;
  }

  /** Value is conserved, over every run from every sound ledger, exactly for tokens of at most 18 decimals. */
  lemma ConservedIff(decimals: nat)
    ensures AlwaysConserved(decimals) <==> decimals <= 18
  {
    if decimals <= 18 {
      forall l, events | Sound(l) && l.settings.decimals == decimals && NoneElsewhere(events)
        ensures Conserved(l, Run(l, events))
      {
        RunConserves(l, events);
      }
    } else {
      OneTokenGained(decimals);
      assert NoneElsewhere([ToBridge(1, 1, 2, 0)]);
    }
  }

  lemma SmallQuotient(a: nat, p: nat)
    requires p > 0 && a > 0
    ensures Quotient(a, a * (10 * p)) == 0
  {
    assert a < a * (10 * p);
  }
}
