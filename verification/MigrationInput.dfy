/** Preparing the migration input from the subgraph, and verifying the migration against it. */
module MigrationInput {
  import opened Collections
  import opened Strings
  import opened Diamond
  import opened MigrationContract
  import opened MigrationRun
  import opened MigrationSafety

  // ---- prepareMigrationInput ----

  datatype SubgraphQuote = SubgraphQuote(id: nat, quote: Quote)

  /** The key of the expected aggregates, before it is joined into a string. */
  datatype AggregateKey = AggregateKey(partyB: Address, partyA: Address, symbolId: nat)
  datatype Aggregate = Aggregate(long: nat, short: nat)

  const ZERO_AGGREGATE := Aggregate(0, 0)

  /** Quotes beyond the chain's last id are leftovers of a fork. */
  function WithinBoundary(quotes: seq<SubgraphQuote>, lastId: nat): seq<SubgraphQuote> {
    if |quotes| == 0 then []
    else
      var last := quotes[|quotes| - 1];
      WithinBoundary(quotes[..|quotes| - 1], lastId) + if last.id <= lastId then [last] else []
  }

  function Ids(quotes: seq<SubgraphQuote>): seq<nat> {
    seq(|quotes|, i requires 0 <= i < |quotes| => quotes[i].id)
  }

  /** What a quote adds to the expected aggregate of a key, per side. */
  function Expected(q: Quote, k: AggregateKey): Aggregate {
    if (q.status == 4 || q.status == 5 || q.status == 6) && q.quantity > q.closedAmount
       && AggregateKey(q.partyB, q.partyA, q.symbolId) == k
    then
      if q.side == Long then Aggregate(q.quantity - q.closedAmount, 0) else Aggregate(0, q.quantity - q.closedAmount)
    else ZERO_AGGREGATE
  }

  function SumExpected(quotes: seq<SubgraphQuote>, k: AggregateKey): Aggregate {
    if |quotes| == 0 then ZERO_AGGREGATE
    else
      var rest := SumExpected(quotes[..|quotes| - 1], k);
      var one := Expected(quotes[|quotes| - 1].quote, k);
      Aggregate(rest.long + one.long, rest.short + one.short)
  }

  /** A quote with a known hedger puts its pair among the migration tasks. */
  predicate HasPair(q: Quote, p: Pair) {
    q.partyB != ZERO_ADDRESS && p == Pair(q.partyB, q.partyA)
  }

  /** How many of the first `n` quotes the chain knows of. */
  ghost function KnownBefore(quotes: seq<SubgraphQuote>, lastId: nat, n: nat): nat
    requires n <= |quotes|
  {
    |set i | 0 <= i < n && quotes[i].id <= lastId|
  }

  /** Each quote up to the last id keeps its place among those, and there is nothing else. */
  ghost predicate KeepsKnown(quotes: seq<SubgraphQuote>, lastId: nat, kept: seq<SubgraphQuote>) {
    && |kept| == KnownBefore(quotes, lastId, |quotes|)
    && (forall q | q in kept :: q in quotes && q.id <= lastId)
    && (forall i | 0 <= i < |quotes| && quotes[i].id <= lastId ::
          var at := KnownBefore(quotes, lastId, i);
          at < |kept| && kept[at] == quotes[i])
  }

  lemma {:induction false} BoundaryKeepsKnown(quotes: seq<SubgraphQuote>, lastId: nat)
    ensures KeepsKnown(quotes, lastId, WithinBoundary(quotes, lastId))
  {
    if |quotes| > 0 {
      var n := |quotes| - 1;
      var init, last := quotes[..n], quotes[n];
      BoundaryKeepsKnown(init, lastId);
      forall k | 0 <= k <= n
        ensures KnownBefore(quotes, lastId, k) == KnownBefore(init, lastId, k)
      {
        assert (set i | 0 <= i < k && quotes[i].id <= lastId) == set i | 0 <= i < k && init[i].id <= lastId;
      }
      var before := set i | 0 <= i < n && quotes[i].id <= lastId;
      assert (set i | 0 <= i < n + 1 && quotes[i].id <= lastId) == before + if last.id <= lastId then {n} else {};
    }
  }

  method FilterBoundary(quotes: seq<SubgraphQuote>, lastId: nat) returns (kept: seq<SubgraphQuote>)
    ensures kept == WithinBoundary(quotes, lastId) && KeepsKnown(quotes, lastId, kept)
  {
    var maxId := 0;
    for i := 0 to |quotes|
      invariant forall j :: 0 <= j < i ==> quotes[j].id <= maxId
    {
      if quotes[i].id > maxId {
        maxId := quotes[i].id;
      }
    }
    kept := quotes;
    if maxId > lastId {
      kept := [];
      for i := 0 to |quotes|
        invariant kept == WithinBoundary(quotes[..i], lastId)
      {
        assert quotes[..i + 1][..i] == quotes[..i];
        if quotes[i].id <= lastId {
          kept := kept + [quotes[i]];
        }
      }
      assert quotes[..|quotes|] == quotes;
    } else {
      NothingBeyond(quotes, lastId);
    }
    BoundaryKeepsKnown(quotes, lastId);
  }

  lemma {:induction false} NothingBeyond(quotes: seq<SubgraphQuote>, lastId: nat)
    requires forall q | q in quotes :: q.id <= lastId
    ensures WithinBoundary(quotes, lastId) == quotes
  {
    if |quotes| > 0 {
      var init, last := quotes[..|quotes| - 1], quotes[|quotes| - 1];
      assert last in quotes && forall q | q in init :: q in quotes;
      NothingBeyond(init, lastId);
      assert init + [last] == quotes;
    }
  }

  /** Exactly the listed pairs with a known hedger. */
  ghost predicate Collects(quotes: seq<SubgraphQuote>, tasks: map<Address, set<Address>>) {
    && (forall b :: b in tasks ==> b != ZERO_ADDRESS && tasks[b] != {})
    && (forall b, a :: (b in tasks && a in tasks[b]) <==>
                       exists i :: 0 <= i < |quotes| && HasPair(quotes[i].quote, Pair(b, a)))
  }

  /** What the prepared tasks look like: one per hedger, with distinct real counterparties. */
  ghost predicate WellFormedTasks(tasks: seq<Task>) {
    && OneTaskPerPartyB(tasks)
    && (forall i :: 0 <= i < |tasks| ==> Distinct(tasks[i].partyAs) && ZERO_ADDRESS !in tasks[i].partyAs)
  }

  /** One task per collected hedger, listing each of its counterparties once, in any order. */
  ghost predicate ListsTasks(collected: map<Address, set<Address>>, tasks: seq<Task>) {
    && OneTaskPerPartyB(tasks)
    && (forall i :: 0 <= i < |tasks| ==>
          && tasks[i].partyB in collected && Distinct(tasks[i].partyAs)
          && forall a :: a in tasks[i].partyAs <==> a in collected[tasks[i].partyB])
    && (forall b :: b in collected ==> exists i :: 0 <= i < |tasks| && tasks[i].partyB == b)
  }

  /** A listed quote with a hedger has a counterparty, too. */
  ghost predicate RealParties(quotes: seq<SubgraphQuote>) {
    forall q | q in quotes && q.quote.partyB != ZERO_ADDRESS :: q.quote.partyA != ZERO_ADDRESS
  }

  /** Prepared tasks are one per hedger, with distinct counterparties, and real ones if the listed quotes have them. */
  lemma PreparedTasks(quotes: seq<SubgraphQuote>, collected: map<Address, set<Address>>, tasks: seq<Task>)
    requires Collects(quotes, collected) && ListsTasks(collected, tasks)
    requires RealParties(quotes)
    ensures WellFormedTasks(tasks)
  {
    forall i, a | 0 <= i < |tasks| && a in tasks[i].partyAs
      ensures a != ZERO_ADDRESS
    {
      var j :| 0 <= j < |quotes| && HasPair(quotes[j].quote, Pair(tasks[i].partyB, a));
    }
  }

  /** Collects each hedger's counterparties; the order of tasks and of counterparties is irrelevant here. */
  method BuildTasks(quotes: seq<SubgraphQuote>) returns (tasks: map<Address, set<Address>>)
    ensures Collects(quotes, tasks)
  {
    tasks := map[];
    for i := 0 to |quotes|
      invariant forall b :: b in tasks ==> b != ZERO_ADDRESS && tasks[b] != {}
      invariant forall b, a :: (b in tasks && a in tasks[b]) <==>
                               exists j :: 0 <= j < i && HasPair(quotes[j].quote, Pair(b, a))
    {
      var q := quotes[i].quote;
      if q.partyB == ZERO_ADDRESS {
        continue;
      }
      if q.partyB !in tasks {
        tasks := tasks[q.partyB := {}];
      }
      tasks := tasks[q.partyB := tasks[q.partyB] + {q.partyA}];
      assert HasPair(q, Pair(q.partyB, q.partyA));
    }
  }

  type Aggregates = JsMap<AggregateKey, Aggregate>

  /** What the record has for a key; an absent key counts as zero. */
  function EntryFor(expected: Aggregates, k: AggregateKey): Aggregate {
    if k in expected.at then expected.at[k] else ZERO_AGGREGATE
  }

  /** One key's entry grown by what a quote adds to it; the other keys keep theirs. */
  ghost predicate Grown(before: Aggregates, after: Aggregates, q: Quote, k: AggregateKey) {
    && EntryFor(after, k).long == EntryFor(before, k).long + Expected(q, k).long
    && EntryFor(after, k).short == EntryFor(before, k).short + Expected(q, k).short
  }

  ghost predicate NoZeroEntry(expected: Aggregates) {
    forall k :: k in expected.at ==> expected.at[k] != ZERO_AGGREGATE
  }

  /** One quote of the fold. */
  method AddQuote(before: Aggregates, q: Quote) returns (expected: Aggregates)
    requires before.Valid() && NoZeroEntry(before)
    ensures expected.Valid() && NoZeroEntry(expected)
    ensures forall k :: Grown(before, expected, q, k)
  {
    if (q.status != 4 && q.status != 5 && q.status != 6) || q.quantity <= q.closedAmount {
      return before;
    }
    var openAmount: nat := q.quantity - q.closedAmount;
    var key := AggregateKey(q.partyB, q.partyA, q.symbolId);
    var entry := EntryFor(before, key);
    var more := if q.side == Long then Aggregate(entry.long + openAmount, entry.short)
                else Aggregate(entry.long, entry.short + openAmount);
    expected := before.Set(key, more);
  }

  /** The `expectedAggregates` fold. */
  method BuildExpectedAggregates(quotes: seq<SubgraphQuote>) returns (expected: Aggregates)
    ensures expected.Valid() && NoZeroEntry(expected)
    ensures forall k :: EntryFor(expected, k) == SumExpected(quotes, k)
  {
    expected := JsMap([], map[]);
    for i := 0 to |quotes|
      invariant expected.Valid() && NoZeroEntry(expected)
      invariant forall k :: EntryFor(expected, k) == SumExpected(quotes[..i], k)
    {
      ghost var before := expected;
      expected := AddQuote(expected, quotes[i].quote);
      assert quotes[..i + 1][..i] == quotes[..i];
      forall k
        ensures EntryFor(expected, k) == SumExpected(quotes[..i + 1], k)
      {
        assert Grown(before, expected, quotes[i].quote, k);
      }
    }
    assert quotes[..|quotes|] == quotes;
  }

  // ---- The fold and the chain agree ----

  predicate Opens(q: Quote) {
    q.status in {4, 5, 6} && q.quantity > q.closedAmount
  }

  /** What the aggregates need: a listed open quote is stored as listed, and no other listed quote is open on chain. */
  predicate QuoteAgrees(listed: Quote, stored: Quote) {
    if Opens(listed) then stored == listed && listed.partyA != ZERO_ADDRESS else TreatmentOf(stored) != Open
  }

  ghost predicate Agrees(quotes: seq<SubgraphQuote>, stored: Quotes) {
    forall i :: 0 <= i < |quotes| ==> QuoteAgrees(quotes[i].quote, Stored(stored, quotes[i].id))
  }

  lemma {:induction false} FoldIsSum(quotes: seq<SubgraphQuote>, stored: Quotes, k: AggregateKey)
    requires Agrees(quotes, stored)
    ensures SumExpected(quotes, k) ==
            Aggregate(SumAmounts(stored, Ids(quotes), Key(k.partyB, k.partyA, k.symbolId, Long)),
                      SumAmounts(stored, Ids(quotes), Key(k.partyB, k.partyA, k.symbolId, Short)))
  {
    if |quotes| > 0 {
      FoldIsSum(quotes[..|quotes| - 1], stored, k);
      assert Ids(quotes)[..|quotes| - 1] == Ids(quotes[..|quotes| - 1]);
    }
  }

  /** Taking one element out of a sum, wherever it stands. */
  lemma {:induction false} SumWithout(stored: Quotes, ids: seq<nat>, i: nat, k: Key)
    requires i < |ids|
    ensures SumAmounts(stored, ids, k) ==
            SumAmounts(stored, ids[..i] + ids[i + 1..], k) + Contribution(stored, ids[i], k)
    decreases |ids|
  {
    var n := |ids| - 1;
    if i == n {
      assert ids[..i] + ids[i + 1..] == ids[..n];
    } else {
      SumWithout(stored, ids[..n], i, k);
      var rest := ids[..i] + ids[i + 1..];
      assert rest[..|rest| - 1] == ids[..n][..i] + ids[..n][i + 1..];
      assert rest[|rest| - 1] == ids[n];
    }
  }

  /** A sum over distinct ids may drop or add ids that contribute nothing, and any reordering. */
  lemma {:induction false} SameSum(stored: Quotes, log: seq<nat>, ids: seq<nat>, k: Key)
    requires Distinct(log) && Distinct(ids)
    requires forall id :: id in log ==> id in ids
    requires forall id :: id in ids && id !in log ==> Contribution(stored, id, k) == 0
    ensures SumAmounts(stored, log, k) == SumAmounts(stored, ids, k)
    decreases |ids|
  {
    assert |log| > 0 ==> log[0] in log;
    if |ids| > 0 {
      var n := |ids| - 1;
      var x, init := ids[n], ids[..n];
      assert forall id :: id in ids <==> id in init || id == x;
      assert x !in init;
      if x in log {
        var i :| 0 <= i < |log| && log[i] == x;
        var less := log[..i] + log[i + 1..];
        SumWithout(stored, log, i, k);
        WithoutMembers(log, i);
        SameSum(stored, less, init, k);
      } else {
        SameSum(stored, log, init, k);
      }
    }
  }

  lemma WithoutMembers<T(!new)>(s: seq<T>, i: nat)
    requires i < |s| && Distinct(s)
    ensures var less := s[..i] + s[i + 1..];
            && Distinct(less)
            && (forall x | x in less :: x in s && x != s[i])
            && (forall x | x in s && x != s[i] :: x in less)
  {
    var less := s[..i] + s[i + 1..];
    forall x | x in s && x != s[i]
      ensures x in less
    {
      var j :| 0 <= j < |s| && s[j] == x;
      assert less[if j < i then j else j - 1] == x;
    }
  }

  /** Only listed quotes were migrated. */
  ghost predicate OnlyListed(c: Chain, ids: seq<nat>) {
    forall id :: id in c.quoteMigrated ==> id in ids
  }

  /**
   After a complete migration of the prepared quotes, in whatever order and chunking, every aggregate
   on chain is the prepared one.
   */
  lemma AggregatesMatch(c: Chain, ids: seq<nat>, quotes: seq<SubgraphQuote>, k: AggregateKey)
    requires ExactlyOnce(c) && OnlyListed(c, ids) && AllQuotesDone(c, ids)
    requires multiset(ids) == multiset(Ids(quotes)) && Distinct(Ids(quotes)) && Agrees(quotes, c.records.quotes)
    ensures SumExpected(quotes, k) == Aggregate(c.totals.Amount(Key(k.partyB, k.partyA, k.symbolId, Long)),
                                                c.totals.Amount(Key(k.partyB, k.partyA, k.symbolId, Short)))
  {
    var stored := c.records.quotes;
    FoldIsSum(quotes, stored, k);
    SameMembers(ids, Ids(quotes));
    SameSum(stored, c.quoteLog, Ids(quotes), Key(k.partyB, k.partyA, k.symbolId, Long));
    SameSum(stored, c.quoteLog, Ids(quotes), Key(k.partyB, k.partyA, k.symbolId, Short));
  }

  lemma SameMembers(a: seq<nat>, b: seq<nat>)
    requires multiset(a) == multiset(b)
    ensures forall x :: x in a <==> x in b
  {
    forall x
      ensures x in a <==> x in b
    {
      assert x in a <==> x in multiset(a);
      assert x in b <==> x in multiset(b);
    }
  }

  // ---- Keys as strings ----

  /** The key of an aggregate in the input file: addresses and the symbol id, joined by dashes. */
  function JoinKey(partyB: string, partyA: string, symbolId: string): string {
    partyB + ['-'] + (partyA + ['-'] + symbolId)
  }

  /** Hex addresses and decimal ids have no dash, so the verifier's split gives back the three parts. */
  lemma KeySplitsBack(partyB: string, partyA: string, symbolId: string)
    requires '-' !in partyB && '-' !in partyA && '-' !in symbolId
    ensures Split(JoinKey(partyB, partyA, symbolId), '-') == [partyB, partyA, symbolId]
  {
    SplitFirst(partyB, partyA + ['-'] + symbolId, '-');
    SplitFirst(partyA, symbolId, '-');
    SplitPlain(symbolId, '-');
    assert [partyB] + ([partyA] + [symbolId]) == [partyB, partyA, symbolId];
  }
}
