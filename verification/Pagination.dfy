/** Cursor pagination over a fixed subgraph. */
module Pagination {
  import opened Collections
  import opened Diamond

  /** A record as far as paging and the account lists need it; ids stand for their rank in the subgraph's order. */
  datatype Record = Record(id: int, matches: bool, partyA: Address, partyB: Option<Address>)

  /** The subgraph's answer is ordered by id, and ids are unique. */
  ghost predicate Ordered(records: seq<Record>) {
    forall i, j :: 0 <= i < j < |records| ==> records[i].id < records[j].id
  }

  predicate Wanted(r: Record, cursor: Option<int>) {
    r.matches && (cursor == None || r.id > cursor.value)
  }

  /** Every record that matches the filter and lies beyond the cursor. */
  function Beyond(records: seq<Record>, cursor: Option<int>): seq<Record> {
    if |records| == 0 then []
    else (if Wanted(records[0], cursor) then [records[0]] else []) + Beyond(records[1..], cursor)
  }

  /** One request: the first `size` of these. */
  function Page(records: seq<Record>, cursor: Option<int>, size: nat): seq<Record> {
    var all := Beyond(records, cursor);
    if |all| <= size then all else all[..size]
  }

  lemma {:induction false} BeyondMembers(records: seq<Record>, cursor: Option<int>)
    requires Ordered(records)
    ensures Ordered(Beyond(records, cursor))
    ensures forall r :: r in Beyond(records, cursor) <==> r in records && Wanted(r, cursor)
  {
    if |records| > 0 {
      BeyondMembers(records[1..], cursor);
      assert records == [records[0]] + records[1..];
      forall r | r in Beyond(records[1..], cursor)
        ensures records[0].id < r.id
      {
        var k :| 0 <= k < |records[1..]| && records[1..][k] == r;
        assert records[k + 1] == r;
      }
    }
  }

  lemma {:induction false} OrderedIsUnique(a: seq<Record>, b: seq<Record>)
    requires Ordered(a) && Ordered(b) && forall r :: r in a <==> r in b
    ensures a == b
    decreases |a| + |b|
  {
    assert |a| > 0 ==> a[0] in a;
    assert |b| > 0 ==> b[0] in b;
    if |a| > 0 {
      assert a[0] in b && b[0] in a;
      assert a[0].id == b[0].id && a[0] == b[0];
      forall r
        ensures r in a[1..] <==> r in b[1..]
      {
        TailMembers(a, r);
        TailMembers(b, r);
      }
      OrderedIsUnique(a[1..], b[1..]);
    }
  }

  lemma TailMembers(a: seq<Record>, r: Record)
    requires Ordered(a) && |a| > 0
    ensures r in a[1..] <==> r in a && r != a[0]
  {
    if r in a && r != a[0] {
      var k :| 0 <= k < |a| && a[k] == r;
      assert a[1..][k - 1] == r;
    }
  }

  lemma LaterMembers(a: seq<Record>, k: nat, r: Record)
    requires Ordered(a) && k < |a|
    ensures r in a[k + 1..] <==> r in a && r.id > a[k].id
  {
    if r in a && r.id > a[k].id {
      var j :| 0 <= j < |a| && a[j] == r;
      assert a[k + 1..][j - (k + 1)] == r;
    }
  }

  /** Moving the cursor to a delivered record leaves exactly what was behind it. */
  lemma MoveCursor(records: seq<Record>, cursor: Option<int>, k: nat)
    requires Ordered(records) && k < |Beyond(records, cursor)|
    ensures Beyond(records, Some(Beyond(records, cursor)[k].id)) == Beyond(records, cursor)[k + 1..]
  {
    var all := Beyond(records, cursor);
    var moved := Some(all[k].id);
    BeyondMembers(records, cursor);
    BeyondMembers(records, moved);
    assert all[k] in all;
    forall r
      ensures r in Beyond(records, moved) <==> r in all[k + 1..]
    {
      LaterMembers(all, k, r);
    }
    OrderedIsUnique(Beyond(records, moved), all[k + 1..]);
  }

  function PartyAs(records: seq<Record>): set<Address> {
    set r | r in records :: r.partyA
  }

  /** A quote without a hedger has no address, or an empty one. */
  function PartyBs(records: seq<Record>): set<Address> {
    set r | r in records && r.partyB.Some? :: r.partyB.value
  }

  method AddRecords(all: seq<Record>, partyAs: set<Address>, partyBs: set<Address>, page: seq<Record>)
      returns (all': seq<Record>, partyAs': set<Address>, partyBs': set<Address>)
    requires partyAs == PartyAs(all) && partyBs == PartyBs(all)
    ensures all' == all + page && partyAs' == PartyAs(all') && partyBs' == PartyBs(all')
  {
    all', partyAs', partyBs' := all, partyAs, partyBs;
    for i := 0 to |page|
      invariant all' == all + page[..i] && partyAs' == PartyAs(all') && partyBs' == PartyBs(all')
    {
      assert all + page[..i + 1] == all' + [page[i]];
      AddRecord(all', page[i]);
      all' := all' + [page[i]];
      partyAs' := partyAs' + {page[i].partyA};
      if page[i].partyB.Some? {
        partyBs' := partyBs' + {page[i].partyB.value};
      }
    }
    assert page[..|page|] == page;
  }

  lemma AddRecord(all: seq<Record>, r: Record)
    ensures PartyAs(all + [r]) == PartyAs(all) + {r.partyA}
    ensures PartyBs(all + [r]) == PartyBs(all) + if r.partyB.Some? then {r.partyB.value} else {}
  {
    assert forall x :: x in all + [r] <==> x in all || x == r;
  }

  lemma TakeAndDrop(before: seq<Record>, left: seq<Record>, n: nat)
    requires n <= |left|
    ensures before + left[..n] + left[n..] == before + left
  {
  }

  /**
   The loop of `fetchOpenQuotes` (which starts at cursor 0) and of the other two (which start without a
   cursor): every wanted record, once, in order. The last request is the one that comes back short, even
   when that means empty.
   */
  method FetchAll(records: seq<Record>, start: Option<int>, pageSize: nat)
      returns (all: seq<Record>, partyAs: set<Address>, partyBs: set<Address>, requests: nat)
    requires Ordered(records) && pageSize > 0
    ensures all == Beyond(records, start) && partyAs == PartyAs(all) && partyBs == PartyBs(all)
    ensures (requests - 1) * pageSize <= |all| < requests * pageSize
  {
    all, partyAs, partyBs, requests := [], {}, {}, 0;
    var cursor := start;
    while true
      invariant all + Beyond(records, cursor) == Beyond(records, start)
      invariant partyAs == PartyAs(all) && partyBs == PartyBs(all)
      invariant |all| == requests * pageSize
      decreases |Beyond(records, cursor)|
    {
      var page := Page(records, cursor, pageSize);
      ghost var before, left := all, Beyond(records, cursor);
      requests := requests + 1;
      OneMoreTime(requests, pageSize);
      all, partyAs, partyBs := AddRecords(all, partyAs, partyBs, page);
      if |page| < pageSize {
        return;
      }
      MoveCursor(records, cursor, pageSize - 1);
      TakeAndDrop(before, left, pageSize);
      cursor := Some(page[|page| - 1].id);
    }
  }

  /** Starting at 0 misses nothing exactly when no matching record has an id of 0 or less. */
  lemma StartAtZero(records: seq<Record>)
    requires Ordered(records)
    ensures Beyond(records, Some(0)) == Beyond(records, None) <==> forall r | r in records && r.matches :: r.id > 0
  {
    BeyondMembers(records, Some(0));
    BeyondMembers(records, None);
    if forall r | r in records && r.matches :: r.id > 0 {
      SameWanted(records);
    } else {
      var r :| r in records && r.matches && r.id <= 0;
      assert r in Beyond(records, None) && r !in Beyond(records, Some(0));
    }
  }

  lemma {:induction false} SameWanted(records: seq<Record>)
    requires forall r | r in records && r.matches :: r.id > 0
    ensures Beyond(records, Some(0)) == Beyond(records, None)
  {
    if |records| > 0 {
      assert records[0] in records;
      SameWanted(records[1..]);
    }
  }
}
