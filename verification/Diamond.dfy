/**
 The diamond proxy's selector registry: the storage-level code of LibDiamond with its
 swap-and-pop selector array, and the abstract selector table it implements.
 */
module Diamond {
  import opened Collections

  /** A four-byte function selector and a contract address, both read as numbers. */
  type Selector = nat
  type Address = nat

  const ZERO_ADDRESS: Address := 0
  const DIAMOND_CUT: Selector := 0x1f931c1c

  /** The selector counter is a checked `uint16`, so the array never grows past this. */
  const MAX_SELECTORS: nat := 0xFFFF

  datatype Action = Add | Replace | Remove
  datatype FacetCut = FacetCut(facet: Address, action: Action, selectors: seq<Selector>)

  /** The abstract state: which facet serves each registered selector. */
  type Table = map<Selector, Address>

  /** The diamond's own address and the addresses that hold contract code. */
  datatype Env = Env(self: Address, code: set<Address>)

  // ---- What a cut means on the abstract table ----

  datatype Edit = Edit(action: Action, facet: Address, selector: Selector)

  predicate Allowed(env: Env, t: Table, e: Edit) {
    match e.action
    case Add =>
      e.facet != ZERO_ADDRESS && e.facet in env.code && e.selector !in t && |t| < MAX_SELECTORS
    case Replace =>
      && e.facet != ZERO_ADDRESS && e.facet in env.code
      && e.selector in t && t[e.selector] != env.self && t[e.selector] != e.facet
    case Remove =>
      e.facet == ZERO_ADDRESS && e.selector in t && t[e.selector] != env.self
  }

  function Edited(t: Table, e: Edit): Table {
    if e.action == Remove then t - {e.selector} else t[e.selector := e.facet]
  }

  function ApplyEdits(env: Env, t: Table, es: seq<Edit>): Option<Table>
    decreases |es|
  {
    if |es| == 0 then Some(t)
    else if !Allowed(env, t, es[0]) then None
    else ApplyEdits(env, Edited(t, es[0]), es[1..])
  }

  lemma NextEdit(env: Env, t: Table, es: seq<Edit>, i: nat)
    requires i < |es|
    ensures ApplyEdits(env, t, es[i..]) ==
            if Allowed(env, t, es[i]) then ApplyEdits(env, Edited(t, es[i]), es[i + 1..]) else None
  {
    assert es[i..][1..] == es[i + 1..];
  }

  function Edits(cut: FacetCut): seq<Edit> {
    seq(|cut.selectors|, i requires 0 <= i < |cut.selectors| => Edit(cut.action, cut.facet, cut.selectors[i]))
  }

  /** One FacetCut: it is rejected when it names no selector or any of its edits is. */
  function ApplyCut(env: Env, t: Table, cut: FacetCut): Option<Table> {
    if cut.selectors == [] then None else ApplyEdits(env, t, Edits(cut))
  }

  /** One `diamondCut` transaction. */
  function ApplyCuts(env: Env, t: Table, cuts: seq<FacetCut>): Option<Table>
    decreases |cuts|
  {
    if |cuts| == 0 then Some(t)
    else
      match ApplyCut(env, t, cuts[0])
      case None => None
      case Some(t') => ApplyCuts(env, t', cuts[1..])
  }

  /** The facet of a selector as the mapping returns it: zero when it is not registered. */
  function FacetOf(t: Table, s: Selector): Address {
    if s in t then t[s] else ZERO_ADDRESS
  }

  // ---- Storage ----

  datatype Entry = Entry(facet: Address, position: nat)

  class DiamondStorage {
    const env: Env
    var selectors: seq<Selector>
    var entries: map<Selector, Entry>

    /** The array lists exactly the mapped selectors, each at the position its entry records. */
    ghost predicate Valid()
      reads this
    {
      && |selectors| == |entries| <= MAX_SELECTORS
      && env.self != ZERO_ADDRESS
      && (forall i :: 0 <= i < |selectors| ==> selectors[i] in entries && entries[selectors[i]].position == i)
      && (forall s :: s in entries ==>
            && entries[s].position < |selectors| && selectors[entries[s].position] == s
            && entries[s].facet != ZERO_ADDRESS)
    }

    ghost function Table(): Table
      reads this
    {
      map s | s in entries :: entries[s].facet
    }

    constructor (env: Env, cutFacet: Address)
      requires env.self != ZERO_ADDRESS && cutFacet != ZERO_ADDRESS
      ensures Valid() && this.env == env
      ensures Table() == map[DIAMOND_CUT := cutFacet]
    {
      this.env := env;
      selectors := [DIAMOND_CUT];
      entries := map[DIAMOND_CUT := Entry(cutFacet, 0)];
    }

    /** Mapping lookup; an absent key reads as the zero entry. */
    function Lookup(s: Selector): Entry
      reads this
    {
      if s in entries then entries[s] else Entry(ZERO_ADDRESS, 0)
    }

    method AddFunctions(facet: Address, functionSelectors: seq<Selector>) returns (ok: bool)
      requires Valid()
      modifies this`selectors, this`entries
      ensures ok == ApplyCut(env, old(Table()), FacetCut(facet, Add, functionSelectors)).Some?
      ensures ok ==> Valid() && Table() == ApplyCut(env, old(Table()), FacetCut(facet, Add, functionSelectors)).value
    {
      ghost var es := Edits(FacetCut(facet, Add, functionSelectors));
      if functionSelectors == [] {
        return false;
      }
      var selectorCount := |selectors| % 0x1_0000;
      if facet == ZERO_ADDRESS || facet !in env.code {
        return false;
      }
      var i := 0;
      while i < |functionSelectors|
        invariant 0 <= i <= |functionSelectors|
        invariant Valid() && selectorCount == |selectors|
        invariant ApplyEdits(env, old(Table()), es) == ApplyEdits(env, Table(), es[i..])
      {
        SameSize();
        var selector := functionSelectors[i];
        NextEdit(env, Table(), es, i);
        var oldFacet := Lookup(selector).facet;
        if oldFacet != ZERO_ADDRESS {
          return false;
        }
        if selectorCount == MAX_SELECTORS {
          return false; // the checked increment below overflows
        }
        Register(selector, facet, selectorCount);
        selectorCount := selectorCount + 1;
        i := i + 1;
      }
      return true;
    }

    method Register(selector: Selector, facet: Address, position: nat)
      requires Valid() && selector !in entries && facet != ZERO_ADDRESS && position == |selectors| < MAX_SELECTORS
      modifies this`selectors, this`entries
      ensures Valid() && Table() == old(Table())[selector := facet]
      ensures |selectors| == |old(selectors)| + 1
    {
      entries := entries[selector := Entry(facet, position)];
      selectors := selectors + [selector];
    }

    method ReplaceFunctions(facet: Address, functionSelectors: seq<Selector>) returns (ok: bool)
      requires Valid()
      modifies this`entries
      ensures ok == ApplyCut(env, old(Table()), FacetCut(facet, Replace, functionSelectors)).Some?
      ensures ok ==>
                Valid() && Table() == ApplyCut(env, old(Table()), FacetCut(facet, Replace, functionSelectors)).value
    {
      ghost var es := Edits(FacetCut(facet, Replace, functionSelectors));
      if functionSelectors == [] || facet == ZERO_ADDRESS || facet !in env.code {
        return false;
      }
      var i := 0;
      while i < |functionSelectors|
        invariant 0 <= i <= |functionSelectors|
        invariant Valid()
        invariant ApplyEdits(env, old(Table()), es) == ApplyEdits(env, Table(), es[i..])
      {
        var selector := functionSelectors[i];
        NextEdit(env, Table(), es, i);
        var oldFacet := Lookup(selector).facet;
        if oldFacet == env.self || oldFacet == facet || oldFacet == ZERO_ADDRESS {
          return false;
        }
        SetFacet(selector, facet);
        i := i + 1;
      }
      return true;
    }

    method SetFacet(selector: Selector, facet: Address)
      requires Valid() && selector in entries && facet != ZERO_ADDRESS
      modifies this`entries
      ensures Valid() && Table() == old(Table())[selector := facet]
    {
      entries := entries[selector := entries[selector].(facet := facet)];
      assert |entries.Keys| == |entries|;
    }

    method RemoveFunctions(facet: Address, functionSelectors: seq<Selector>) returns (ok: bool)
      requires Valid()
      modifies this`selectors, this`entries
      ensures ok == ApplyCut(env, old(Table()), FacetCut(facet, Remove, functionSelectors)).Some?
      ensures ok ==> Valid() && Table() == ApplyCut(env, old(Table()), FacetCut(facet, Remove, functionSelectors)).value
    {
      ghost var es := Edits(FacetCut(facet, Remove, functionSelectors));
      if functionSelectors == [] {
        return false;
      }
      var selectorCount := |selectors|;
      if facet != ZERO_ADDRESS {
        return false;
      }
      var i := 0;
      while i < |functionSelectors|
        invariant 0 <= i <= |functionSelectors|
        invariant Valid() && selectorCount == |selectors|
        invariant ApplyEdits(env, old(Table()), es) == ApplyEdits(env, Table(), es[i..])
      {
        var selector := functionSelectors[i];
        NextEdit(env, Table(), es, i);
        var removed := Lookup(selector);
        if removed.facet == ZERO_ADDRESS || removed.facet == env.self {
          return false;
        }
        SwapAndPop(selector);
        selectorCount := selectorCount - 1;
        i := i + 1;
      }
      return true;
    }

    /** Moves the last selector into the removed one's slot, then drops the last slot. */
    method SwapAndPop(selector: Selector)
      requires Valid() && selector in entries
      modifies this`selectors, this`entries
      ensures Valid() && Table() == old(Table()) - {selector}
      ensures |selectors| == |old(selectors)| - 1
    {
      ghost var keys := entries.Keys;
      var removed := Lookup(selector);
      var last := |selectors| - 1;
      if removed.position != last {
        var lastSelector := selectors[last];
        selectors := selectors[removed.position := lastSelector];
        entries := entries[lastSelector := entries[lastSelector].(position := removed.position)];
      }
      assert entries.Keys == keys;
      selectors := selectors[..last];
      entries := entries - {selector};
      assert entries.Keys == keys - {selector};
      assert |entries.Keys| == |entries|;
    }

    lemma SameSize()
      requires Valid()
      ensures |Table()| == |selectors|
    {
      assert Table().Keys == entries.Keys;
    }

    method ApplyOne(cut: FacetCut) returns (ok: bool)
      requires Valid()
      modifies this`selectors, this`entries
      ensures ok == ApplyCut(env, old(Table()), cut).Some?
      ensures ok ==> Valid() && Table() == ApplyCut(env, old(Table()), cut).value
    {
      assert cut == FacetCut(cut.facet, cut.action, cut.selectors);
      match cut.action {
        case Add => ok := AddFunctions(cut.facet, cut.selectors);
        case Replace => ok := ReplaceFunctions(cut.facet, cut.selectors);
        case Remove => ok := RemoveFunctions(cut.facet, cut.selectors);
      }
    }

    /** One transaction: every cut in order, and a revert undoes them all. */
    method DiamondCut(cuts: seq<FacetCut>) returns (ok: bool)
      requires Valid()
      modifies this`selectors, this`entries
      ensures Valid()
      ensures ok == ApplyCuts(env, old(Table()), cuts).Some?
      ensures Table() == if ok then ApplyCuts(env, old(Table()), cuts).value else old(Table())
      ensures !ok ==> selectors == old(selectors) && entries == old(entries)
    {
      var selectorsBefore, entriesBefore := selectors, entries;
      var i := 0;
      while i < |cuts|
        invariant 0 <= i <= |cuts|
        invariant Valid()
        invariant ApplyCuts(env, old(Table()), cuts) == ApplyCuts(env, Table(), cuts[i..])
      {
        var done := ApplyOne(cuts[i]);
        if !done {
          selectors, entries := selectorsBefore, entriesBefore;
          return false;
        }
        assert cuts[i..][1..] == cuts[i + 1..];
        i := i + 1;
      }
      return true;
    }

    /**
     The loupe's `facets()`: registered selectors grouped by facet, both in order of first
     appearance in the array. The per-facet counters are `uint8`, so it reverts exactly when some
     facet serves more than 255 selectors.
     */
    method Facets() returns (r: Option<seq<Facet>>)
      requires Valid()
      ensures r.Some? <==> forall f :: |ServedBy(selectors, Table(), f)| <= 255
      ensures r.Some? ==> IsGrouping(r.value, selectors, Table())
    {
      var facets: seq<Facet> := [];
      for i := 0 to |selectors|
        invariant IsGrouping(facets, selectors[..i], Table())
        invariant forall f :: |ServedBy(selectors[..i], Table(), f)| <= 255
      {
        var selector := selectors[i];
        assert selectors[..i + 1] == selectors[..i] + [selector];
        var next := FileSelector(facets, selector, Lookup(selector).facet, selectors[..i], Table());
        if next.None? {
          TooMany(i + 1, Lookup(selector).facet);
          return None;
        }
        facets := next.value;
      }
      assert selectors[..|selectors|] == selectors;
      return Some(facets);
    }

    /** Adds one selector to its facet's group, opening the group when it is the first. */
    static method FileSelector(facets: seq<Facet>, selector: Selector, facet: Address,
                               ghost sels: seq<Selector>, ghost t: Table) returns (r: Option<seq<Facet>>)
      requires IsGrouping(facets, sels, t) && facet == FacetOf(t, selector)
      requires forall f :: |ServedBy(sels, t, f)| <= 255
      ensures r.None? ==> |ServedBy(sels + [selector], t, facet)| > 255
      ensures r.Some? ==> IsGrouping(r.value, sels + [selector], t)
      ensures r.Some? ==> forall f :: |ServedBy(sels + [selector], t, f)| <= 255
    {
      var k := 0;
      while k < |facets| && facets[k].facet != facet
        invariant 0 <= k <= |facets|
        invariant forall j :: 0 <= j < k ==> facets[j].facet != facet
      {
        k := k + 1;
      }
      forall f {
        ServedSnoc(sels, t, selector, f);
      }
      if k < |facets| {
        if !(|facets[k].selectors| < 255) {
          return None;
        }
        JoinGroup(facets, sels, t, selector, k);
        return Some(facets[k := facets[k].(selectors := facets[k].selectors + [selector])]);
      }
      OpenGroup(facets, sels, t, selector);
      return Some(facets + [Facet(facet, [selector])]);
    }

    lemma TooMany(n: nat, f: Address)
      requires Valid()
      requires n <= |selectors| && |ServedBy(selectors[..n], Table(), f)| > 255
      ensures |ServedBy(selectors, Table(), f)| > 255
      decreases |selectors| - n
    {
      if n < |selectors| {
        assert selectors[..n + 1][..n] == selectors[..n];
        TooMany(n + 1, f);
      } else {
        assert selectors[..n] == selectors;
      }
    }
  }

  // ---- Facet listings ----

  datatype Facet = Facet(facet: Address, selectors: seq<Selector>)

  /** The selectors of `sels` that `t` maps to `f`, in order. */
  function ServedBy(sels: seq<Selector>, t: Table, f: Address): seq<Selector> {
    if |sels| == 0 then []
    else
      var last := sels[|sels| - 1];
      ServedBy(sels[..|sels| - 1], t, f) + if FacetOf(t, last) == f then [last] else []
  }

  ghost predicate IsGrouping(facets: seq<Facet>, sels: seq<Selector>, t: Table) {
    && (forall j, k :: 0 <= j < k < |facets| ==> facets[j].facet != facets[k].facet)
    && (forall k :: 0 <= k < |facets| ==>
          facets[k].selectors != [] && facets[k].selectors == ServedBy(sels, t, facets[k].facet))
    && (forall f :: ServedBy(sels, t, f) != [] ==> HasGroup(facets, f))
  }

  lemma ServedSnoc(sels: seq<Selector>, t: Table, s: Selector, f: Address)
    ensures ServedBy(sels + [s], t, f) == ServedBy(sels, t, f) + if FacetOf(t, s) == f then [s] else []
  {
    assert (sels + [s])[..|sels|] == sels;
  }

  ghost predicate HasGroup(facets: seq<Facet>, f: Address) {
    exists k :: 0 <= k < |facets| && facets[k].facet == f
  }

  lemma JoinGroup(facets: seq<Facet>, sels: seq<Selector>, t: Table, s: Selector, k: nat)
    requires IsGrouping(facets, sels, t)
    requires k < |facets| && facets[k].facet == FacetOf(t, s)
    ensures IsGrouping(facets[k := facets[k].(selectors := facets[k].selectors + [s])], sels + [s], t)
  {
    var after := facets[k := facets[k].(selectors := facets[k].selectors + [s])];
    assert forall j :: 0 <= j < |facets| ==> after[j].facet == facets[j].facet;
    forall j | 0 <= j < |after|
      ensures after[j].selectors != [] && after[j].selectors == ServedBy(sels + [s], t, after[j].facet)
    {
      ServedSnoc(sels, t, s, after[j].facet);
    }
    forall f | ServedBy(sels + [s], t, f) != []
      ensures HasGroup(after, f)
    {
      ServedSnoc(sels, t, s, f);
      if f != facets[k].facet {
        var j :| 0 <= j < |facets| && facets[j].facet == f;
        assert after[j].facet == f;
      } else {
        assert after[k].facet == f;
      }
    }
  }

  lemma OpenGroup(facets: seq<Facet>, sels: seq<Selector>, t: Table, s: Selector)
    requires IsGrouping(facets, sels, t) && !HasGroup(facets, FacetOf(t, s))
    ensures IsGrouping(facets + [Facet(FacetOf(t, s), [s])], sels + [s], t)
  {
    var after := facets + [Facet(FacetOf(t, s), [s])];
    assert ServedBy(sels, t, FacetOf(t, s)) == [];
    forall j | 0 <= j < |after|
      ensures after[j].selectors != [] && after[j].selectors == ServedBy(sels + [s], t, after[j].facet)
    {
      ServedSnoc(sels, t, s, after[j].facet);
      if j < |facets| {
        assert facets[j].facet != FacetOf(t, s);
      }
    }
    forall f | ServedBy(sels + [s], t, f) != []
      ensures HasGroup(after, f)
    {
      ServedSnoc(sels, t, s, f);
      if f != FacetOf(t, s) {
        var j :| 0 <= j < |facets| && facets[j].facet == f;
        assert after[j].facet == f;
      } else {
        assert after[|facets|].facet == f;
      }
    }
  }

  /** The selector map that iterating a facet listing with `Map.set` builds: later entries win. */
  ghost function ListedTable(facets: seq<Facet>): Table {
    if |facets| == 0 then map[]
    else
      var last := facets[|facets| - 1];
      ListedTable(facets[..|facets| - 1]) + map s | s in last.selectors :: last.facet
  }

  /** `k` is the last facet of the listing that declares `s`. */
  ghost predicate LastDeclares(facets: seq<Facet>, k: int, s: Selector) {
    && 0 <= k < |facets| && s in facets[k].selectors
    && forall j :: k < j < |facets| ==> s !in facets[j].selectors
  }

  /** A selector is listed at the last facet that declares it, and only declared ones are listed. */
  lemma {:induction false} ListedAtLastDeclarer(facets: seq<Facet>, s: Selector)
    ensures s in ListedTable(facets) ==> exists k :: LastDeclares(facets, k, s)
    ensures forall k :: LastDeclares(facets, k, s) ==>
                          s in ListedTable(facets) && ListedTable(facets)[s] == facets[k].facet
  {
    if |facets| > 0 {
      var n := |facets| - 1;
      var init := facets[..n];
      ListedAtLastDeclarer(init, s);
      if s in facets[n].selectors {
        assert LastDeclares(facets, n, s);
        assert forall k :: LastDeclares(facets, k, s) ==> k == n;
      } else {
        if s in ListedTable(facets) {
          var k :| LastDeclares(init, k, s);
          assert LastDeclares(facets, k, s);
        }
        forall k | LastDeclares(facets, k, s)
          ensures s in ListedTable(facets) && ListedTable(facets)[s] == facets[k].facet
        {
          assert facets[k] == init[k];
          assert LastDeclares(init, k, s);
        }
      }
    }
  }

  /** A declared selector has a last declarer. */
  lemma {:induction false} LastDeclarer(facets: seq<Facet>, s: Selector, k: nat) returns (last: nat)
    requires k < |facets| && s in facets[k].selectors
    ensures LastDeclares(facets, last, s)
    decreases |facets|
  {
    var n := |facets| - 1;
    if s in facets[n].selectors {
      last := n;
    } else {
      last := LastDeclarer(facets[..n], s, k);
    }
  }

  lemma {:induction false} ServedMembers(sels: seq<Selector>, t: Table, f: Address, s: Selector)
    ensures s in ServedBy(sels, t, f) <==> s in sels && FacetOf(t, s) == f
  {
    if |sels| > 0 {
      var n := |sels| - 1;
      ServedMembers(sels[..n], t, f, s);
      assert sels == sels[..n] + [sels[n]];
    }
  }

  /** Reading a diamond back through the loupe gives its selector table. */
  lemma LoupeReadsTable(d: DiamondStorage, facets: seq<Facet>)
    requires d.Valid() && IsGrouping(facets, d.selectors, d.Table())
    ensures ListedTable(facets) == d.Table()
  {
    var t := d.Table();
    forall s
      ensures s in t <==> s in ListedTable(facets)
      ensures s in t ==> ListedTable(facets)[s] == t[s]
    {
      if s in t {
        assert d.selectors[d.entries[s].position] == s;
        ListedAsServed(facets, d.selectors, t, s);
      }
      ListedIsServed(facets, d.selectors, t, s);
    }
  }

  lemma ListedAsServed(facets: seq<Facet>, sels: seq<Selector>, t: Table, s: Selector)
    requires IsGrouping(facets, sels, t) && s in sels && s in t
    ensures s in ListedTable(facets) && ListedTable(facets)[s] == t[s]
  {
    ServedMembers(sels, t, t[s], s);
    assert HasGroup(facets, t[s]);
    var k :| 0 <= k < |facets| && facets[k].facet == t[s];
    var last := LastDeclarer(facets, s, k);
    ServedMembers(sels, t, facets[last].facet, s);
    ListedAtLastDeclarer(facets, s);
  }

  lemma ListedIsServed(facets: seq<Facet>, sels: seq<Selector>, t: Table, s: Selector)
    requires IsGrouping(facets, sels, t)
    ensures s in ListedTable(facets) ==> s in sels
  {
    ListedAtLastDeclarer(facets, s);
    if s in ListedTable(facets) {
      var k :| LastDeclares(facets, k, s);
      ServedMembers(sels, t, facets[k].facet, s);
    }
  }
}
