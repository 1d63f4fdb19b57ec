/** The upgrade scripts' loops over selector maps, and the whole upgrade of a live diamond. */
module UpgradeScripts {
  import opened Collections
  import opened Diamond
  import opened CutPlanner

  // ---- From grouped cuts to a plan ----

  /** The planner's output shape: one nonempty cut per (facet, action) pair, additions last. */
  ghost predicate Grouped(cuts: seq<FacetCut>, current: Table, next: Table) {
    && (forall i :: 0 <= i < |cuts| ==> cuts[i].selectors != [] && Distinct(cuts[i].selectors))
    && (forall i, j :: 0 <= i < j < |cuts| ==> cuts[i].facet != cuts[j].facet || cuts[i].action != cuts[j].action)
    && (forall i, j :: 0 <= i < j < |cuts| && cuts[i].action == Add ==> cuts[j].action == Add)
    && (forall i, s :: 0 <= i < |cuts| && s in cuts[i].selectors ==>
          Change(current, next, s) == Some((cuts[i].action, cuts[i].facet)))
    && (forall s :: Change(current, next, s).Some? ==> exists i :: 0 <= i < |cuts| && s in cuts[i].selectors)
  }

  /** The cut and the place in it that the `k`-th edit comes from. */
  lemma {:induction false} Locate(cuts: seq<FacetCut>, k: nat) returns (i: nat, a: nat)
    requires k < |AllEdits(cuts)|
    ensures i < |cuts| && a < |cuts[i].selectors| && AllEdits(cuts)[k] == Edits(cuts[i])[a]
  {
    var n := |cuts[0].selectors|;
    if k < n {
      i, a := 0, k;
    } else {
      i, a := Locate(cuts[1..], k - n);
      i := i + 1;
    }
  }

  /** Of two edits, the later comes from a later cut or from a later place in the same one. */
  lemma {:induction false} LocateInOrder(cuts: seq<FacetCut>, k: nat, l: nat) returns (i: nat, a: nat, j: nat, b: nat)
    requires k < l < |AllEdits(cuts)|
    ensures i < |cuts| && a < |cuts[i].selectors| && AllEdits(cuts)[k] == Edits(cuts[i])[a]
    ensures j < |cuts| && b < |cuts[j].selectors| && AllEdits(cuts)[l] == Edits(cuts[j])[b]
    ensures i < j || (i == j && a < b)
  {
    var n := |cuts[0].selectors|;
    if l < n {
      i, a, j, b := 0, k, 0, l;
    } else if k < n {
      i, a := 0, k;
      j, b := Locate(cuts[1..], l - n);
      j := j + 1;
    } else {
      i, a, j, b := LocateInOrder(cuts[1..], k - n, l - n);
      i, j := i + 1, j + 1;
    }
  }

  lemma {:induction false} EveryEditListed(cuts: seq<FacetCut>, i: nat, s: Selector)
    requires i < |cuts| && s in cuts[i].selectors
    ensures exists k :: 0 <= k < |AllEdits(cuts)| && AllEdits(cuts)[k].selector == s
  {
    var n := |cuts[0].selectors|;
    if i == 0 {
      var a :| 0 <= a < n && cuts[0].selectors[a] == s;
      assert AllEdits(cuts)[a].selector == s;
    } else {
      EveryEditListed(cuts[1..], i - 1, s);
      var k :| 0 <= k < |AllEdits(cuts[1..])| && AllEdits(cuts[1..])[k].selector == s;
      assert AllEdits(cuts)[n + k].selector == s;
    }
  }

  lemma GroupedIsPlan(cuts: seq<FacetCut>, current: Table, next: Table)
    requires Grouped(cuts, current, next)
    ensures IsPlan(cuts, current, next)
  {
    var es := AllEdits(cuts);
    forall k | 0 <= k < |es|
      ensures Change(current, next, es[k].selector) == Some((es[k].action, es[k].facet))
    {
      var i, a := Locate(cuts, k);
      assert cuts[i].selectors[a] in cuts[i].selectors;
    }
    forall k, l | 0 <= k < l < |es|
      ensures es[k].selector != es[l].selector
      ensures es[k].action == Add ==> es[l].action == Add
    {
      var i, a, j, b := LocateInOrder(cuts, k, l);
      assert cuts[i].selectors[a] in cuts[i].selectors && cuts[j].selectors[b] in cuts[j].selectors;
    }
    forall s | Change(current, next, s).Some?
      ensures exists k :: 0 <= k < |es| && es[k].selector == s
    {
      var i :| 0 <= i < |cuts| && s in cuts[i].selectors;
      EveryEditListed(cuts, i, s);
    }
  }

  // ---- buildDiamondCut ----

  /** Reads a facet listing into a selector map, as both planner and verifier do. */
  method ReadSelectors(facets: seq<Facet>) returns (m: JsMap<Selector, Address>)
    ensures m.Valid() && m.at == ListedTable(facets)
  {
    m := JsMap([], map[]);
    for i := 0 to |facets|
      invariant m.Valid() && m.at == ListedTable(facets[..i])
    {
      m := SetAll(m, facets[i].selectors, facets[i].facet);
      assert facets[..i + 1][..i] == facets[..i];
    }
    assert facets[..|facets|] == facets;
  }

  method SetAll(before: JsMap<Selector, Address>, selectors: seq<Selector>, facet: Address)
      returns (m: JsMap<Selector, Address>)
    requires before.Valid()
    ensures m.Valid() && m.at == before.at + map s | s in selectors :: facet
  {
    m := before;
    for j := 0 to |selectors|
      invariant m.Valid()
      invariant forall s :: s in m.at <==> s in before.at || s in selectors[..j]
      invariant forall s :: s in m.at ==> m.at[s] == if s in selectors[..j] then facet else before.at[s]
    {
      PrefixStep(selectors, j);
      m := m.Set(selectors[j], facet);
    }
    assert selectors[..|selectors|] == selectors;
  }

  lemma PrefixStep<T>(s: seq<T>, i: nat)
    requires i < |s|
    ensures s[..i + 1] == s[..i] + [s[i]]
    ensures forall x | x in s[..i + 1] :: x in s[..i] || x == s[i]
    ensures forall x | x in s[..i] :: x in s[..i + 1]
    ensures s[i] in s[..i + 1]
  {
    assert s[..i + 1] == s[..i] + [s[i]];
    assert s[..i + 1][i] == s[i];
  }

  type Plan = JsMap<Selector, (Action, Address)>

  /** Pairs every live selector with its replacement or removal, and leaves the new ones over. */
  method PlanLiveSelectors(current: JsMap<Selector, Address>, next: JsMap<Selector, Address>)
      returns (actions: Plan, remaining: JsMap<Selector, Address>)
    requires current.Valid() && next.Valid()
    ensures actions.Valid() && remaining.Valid()
    ensures forall s :: s in actions.at <==> s in current.at && Change(current.at, next.at, s).Some?
    ensures forall s :: s in actions.at ==> Some(actions.at[s]) == Change(current.at, next.at, s)
    ensures forall s :: s in remaining.at <==> s in next.at && s !in current.at
    ensures forall s :: s in remaining.at ==> remaining.at[s] == next.at[s]
  {
    actions := JsMap([], map[]);
    remaining := next;
    for i := 0 to |current.order|
      invariant actions.Valid() && remaining.Valid()
      invariant forall s :: s in actions.at <==> s in current.order[..i] && (s in next.at || s != DIAMOND_CUT)
      invariant forall s :: s in actions.at ==>
                  actions.at[s] == if s in next.at then (Replace, next.at[s]) else (Remove, ZERO_ADDRESS)
      invariant forall s :: s in remaining.at <==> s in next.at && s !in current.order[..i]
      invariant forall s :: s in remaining.at ==> remaining.at[s] == next.at[s]
    {
      var selector := current.order[i];
      PrefixStep(current.order, i);
      assert selector !in current.order[..i];
      if selector in remaining.at {
        actions := actions.Set(selector, (Replace, remaining.at[selector]));
        remaining := remaining.Delete(selector);
      } else if selector != DIAMOND_CUT {
        actions := actions.Set(selector, (Remove, ZERO_ADDRESS));
      }
    }
    assert current.order[..|current.order|] == current.order;
  }

  /** Appends the additions to the planned replacements and removals. */
  method PlanAdditions(live: Plan, remaining: JsMap<Selector, Address>) returns (actions: Plan)
    requires live.Valid() && remaining.Valid()
    requires forall s :: s in remaining.at ==> s !in live.at
    requires forall s :: s in live.at ==> live.at[s].0 != Add
    ensures actions.Valid() && AddsFrom(actions, |live.order|)
    ensures forall s :: s in actions.at <==> s in live.at || s in remaining.at
    ensures forall s :: s in actions.at ==>
              actions.at[s] == if s in live.at then live.at[s] else (Add, remaining.at[s])
  {
    actions := live;
    for i := 0 to |remaining.order|
      invariant actions.Valid() && actions.order == live.order + remaining.order[..i]
      invariant forall s :: s in live.at ==> actions.at[s] == live.at[s]
      invariant forall s :: s in remaining.order[..i] ==> actions.at[s] == (Add, remaining.at[s])
    {
      PrefixStep(remaining.order, i);
      var selector := remaining.order[i];
      assert selector !in remaining.order[..i];
      actions := actions.Set(selector, (Add, remaining.at[selector]));
    }
    assert remaining.order[..|remaining.order|] == remaining.order;
    AdditionsPlanned(live, remaining, actions);
  }

  lemma AdditionsPlanned(live: Plan, remaining: JsMap<Selector, Address>, actions: Plan)
    requires live.Valid() && remaining.Valid() && actions.Valid() && actions.order == live.order + remaining.order
    requires forall s :: s in live.at ==> live.at[s].0 != Add && actions.at[s] == live.at[s]
    requires forall s :: s in remaining.order ==> actions.at[s] == (Add, remaining.at[s])
    ensures AddsFrom(actions, |live.order|)
    ensures forall s :: s in actions.at <==> s in live.at || s in remaining.at
  {
    forall s
      ensures s in actions.at <==> s in live.at || s in remaining.at
    {
      assert s in actions.order <==> s in live.order || s in remaining.order;
    }
  }

  /** Decides the action for every selector; additions come after all replacements and removals. */
  method PlanActions(current: JsMap<Selector, Address>, next: JsMap<Selector, Address>)
      returns (actions: Plan, ghost firstAdd: nat)
    requires current.Valid() && next.Valid()
    ensures actions.Valid() && AddsFrom(actions, firstAdd)
    ensures forall s :: s in actions.at <==> Change(current.at, next.at, s).Some?
    ensures forall s :: s in actions.at ==> Some(actions.at[s]) == Change(current.at, next.at, s)
  {
    var live, remaining := PlanLiveSelectors(current, next);
    firstAdd := |live.order|;
    actions := PlanAdditions(live, remaining);
  }

  ghost predicate AddsFrom(actions: Plan, firstAdd: nat)
    requires actions.Valid()
  {
    && firstAdd <= |actions.order|
    && (forall i :: 0 <= i < firstAdd ==> actions.at[actions.order[i]].0 != Add)
    && (forall i :: firstAdd <= i < |actions.order| ==> actions.at[actions.order[i]].0 == Add)
  }

  type CutMap = JsMap<(Action, Address), seq<Selector>>

  type Groups = map<(Action, Address), seq<Selector>>

  /** `groups` holds the selectors listed in `done`, each once, under its own action and facet. */
  ghost predicate Collected(groups: Groups, done: seq<Selector>, info: map<Selector, (Action, Address)>)
    requires forall s | s in done :: s in info
  {
    && (forall k :: k in groups ==> groups[k] != [] && Distinct(groups[k]))
    && (forall k, s :: k in groups && s in groups[k] ==> s in done && info[s] == k)
    && (forall s :: s in done ==> info[s] in groups && s in groups[info[s]])
  }

  lemma CollectOne(groups: Groups, done: seq<Selector>, info: map<Selector, (Action, Address)>, s: Selector)
    requires s in info && s !in done && forall x | x in done :: x in info
    requires Collected(groups, done, info)
    ensures Collected(groups[info[s] := (if info[s] in groups then groups[info[s]] else []) + [s]], done + [s], info)
  {
    var key := info[s];
    var listed := if key in groups then groups[key] else [];
    var after := groups[key := listed + [s]];
    assert s !in listed;
    assert Distinct(after[key]);
    forall k | k in after
      ensures after[k] != [] && Distinct(after[k])
    {
    }
    forall k, x | k in after && x in after[k]
      ensures x in done + [s] && info[x] == k
    {
      if k == key && x !in listed {
        assert x == s;
      }
    }
    forall x | x in done + [s]
      ensures info[x] in after && x in after[info[x]]
    {
      if x in done {
        assert x in groups[info[x]];
      }
    }
  }

  ghost predicate AddGroupsLast(keys: seq<(Action, Address)>) {
    forall a, b :: 0 <= a < b < |keys| && keys[a].0 == Add ==> keys[b].0 == Add
  }

  lemma NextIsNew<T(!new)>(s: seq<T>, i: nat)
    requires Distinct(s) && i < |s|
    ensures s[i] !in s[..i] && s[..i + 1] == s[..i] + [s[i]]
  {
  }

  /** The groups after the first `i` planned selectors. */
  ghost predicate CollectedUpTo(groups: CutMap, actions: Plan, firstAdd: nat, i: nat)
    requires actions.Valid() && i <= |actions.order|
  {
    && groups.Valid() && Collected(groups.at, actions.order[..i], actions.at)
    && AddGroupsLast(groups.order) && (i <= firstAdd ==> NoAddGroup(groups.order))
  }

  lemma CollectNext(groups: CutMap, actions: Plan, firstAdd: nat, i: nat, after: CutMap)
    requires actions.Valid() && AddsFrom(actions, firstAdd) && i < |actions.order|
    requires CollectedUpTo(groups, actions, firstAdd, i) && after.Valid()
    requires var s := actions.order[i];
             var key := actions.at[s];
             && after.at == groups.at[key := (if key in groups.at then groups.at[key] else []) + [s]]
             && after.order == if key in groups.at then groups.order else groups.order + [key]
    ensures CollectedUpTo(after, actions, firstAdd, i + 1)
  {
    var selector := actions.order[i];
    NextIsNew(actions.order, i);
    CollectOne(groups.at, actions.order[..i], actions.at, selector);
    AddsStayLast(groups.order, actions.at[selector], i < firstAdd);
  }

  /** Collects the planned selectors by (facet, action), in order of first appearance. */
  method CollectGroups(actions: Plan, ghost firstAdd: nat) returns (groups: CutMap)
    requires actions.Valid() && AddsFrom(actions, firstAdd)
    ensures groups.Valid() && Collected(groups.at, actions.order, actions.at) && AddGroupsLast(groups.order)
  {
    groups := JsMap([], map[]);
    for i := 0 to |actions.order|
      invariant CollectedUpTo(groups, actions, firstAdd, i)
    {
      var selector := actions.order[i];
      ghost var before := groups;
      groups := Collect(groups, actions.at[selector], selector);
      CollectNext(before, actions, firstAdd, i, groups);
    }
    assert actions.order[..|actions.order|] == actions.order;
  }

  ghost predicate NoAddGroup(keys: seq<(Action, Address)>) {
    forall k :: 0 <= k < |keys| ==> keys[k].0 != Add
  }

  lemma AddsStayLast(keys: seq<(Action, Address)>, key: (Action, Address), early: bool)
    requires AddGroupsLast(keys) && (early ==> NoAddGroup(keys)) && (key.0 == Add <==> !early)
    ensures AddGroupsLast(keys + [key]) && (early ==> NoAddGroup(keys + [key]))
  {
  }

  method Collect(before: CutMap, key: (Action, Address), selector: Selector) returns (groups: CutMap)
    requires before.Valid()
    ensures groups.Valid()
    ensures groups.at == before.at[key := (if key in before.at then before.at[key] else []) + [selector]]
    ensures groups.order == if key in before.at then before.order else before.order + [key]
  {
    var listed := if key in before.at then before.at[key] else [];
    groups := before.Set(key, listed + [selector]);
  }

  /** One cut per collected group. */
  method CutsOf(groups: CutMap, ghost actions: Plan, ghost current: Table, ghost next: Table)
      returns (cuts: seq<FacetCut>)
    requires actions.Valid() && groups.Valid()
    requires Collected(groups.at, actions.order, actions.at) && AddGroupsLast(groups.order)
    requires forall s :: s in actions.at <==> Change(current, next, s).Some?
    requires forall s :: s in actions.at ==> Some(actions.at[s]) == Change(current, next, s)
    ensures Grouped(cuts, current, next)
  {
    cuts := [];
    for i := 0 to |groups.order|
      invariant |cuts| == i
      invariant forall a :: 0 <= a < i ==>
                  cuts[a] == FacetCut(groups.order[a].1, groups.order[a].0, groups.at[groups.order[a]])
    {
      var key := groups.order[i];
      cuts := cuts + [FacetCut(key.1, key.0, groups.at[key])];
    }
    forall s | Change(current, next, s).Some?
      ensures exists i :: 0 <= i < |cuts| && s in cuts[i].selectors
    {
      assert s in actions.order;
      var i :| 0 <= i < |groups.order| && groups.order[i] == actions.at[s];
      assert s in cuts[i].selectors;
    }
    forall i, s | 0 <= i < |cuts| && s in cuts[i].selectors
      ensures Change(current, next, s) == Some((cuts[i].action, cuts[i].facet))
    {
      assert groups.order[i] in groups.at;
      assert actions.at[s] == groups.order[i];
    }
    forall i | 0 <= i < |cuts|
      ensures cuts[i].selectors != [] && Distinct(cuts[i].selectors)
    {
      assert groups.order[i] in groups.at;
    }
    forall i, j | 0 <= i < j < |cuts|
      ensures cuts[i].facet != cuts[j].facet || cuts[i].action != cuts[j].action
    {
      assert groups.order[i] != groups.order[j];
    }
  }

  /** The planner: from the loupe's listing of the live diamond and the new facets to a plan. */
  method BuildDiamondCut(facets: seq<Facet>, newFacets: seq<Facet>) returns (cuts: seq<FacetCut>)
    ensures Grouped(cuts, ListedTable(facets), ListedTable(newFacets))
    ensures IsPlan(cuts, ListedTable(facets), ListedTable(newFacets))
  {
    var current := ReadSelectors(facets);
    var next := ReadSelectors(newFacets);
    var actions, firstAdd := PlanActions(current, next);
    var groups := CollectGroups(actions, firstAdd);
    cuts := CutsOf(groups, actions, current.at, next.at);
    GroupedIsPlan(cuts, current.at, next.at);
  }

  // ---- applyDiamondCut ----

  /** Sends one transaction per chunk and stops at the first that reverts. */
  method ApplyDiamondCut(d: DiamondStorage, cuts: seq<FacetCut>, chunkSize: nat) returns (ok: bool, applied: nat)
    requires d.Valid() && chunkSize > 0
    modifies d`selectors, d`entries
    ensures d.Valid()
    ensures applied <= |Chunks(cuts, chunkSize)|
    ensures ApplyChunks(d.env, old(d.Table()), Chunks(cuts, chunkSize)[..applied]) == Some(d.Table())
    ensures ok <==> applied == |Chunks(cuts, chunkSize)|
    ensures ok <==> ApplyChunks(d.env, old(d.Table()), Chunks(cuts, chunkSize)).Some?
    ensures !ok ==> ApplyCuts(d.env, d.Table(), Chunks(cuts, chunkSize)[applied]).None?
  {
    ghost var t0 := d.Table();
    applied := 0;
    if |cuts| == 0 {
      return true, 0;
    }
    var chunks := ChunkArray(cuts, chunkSize);
    while applied < |chunks|
      invariant applied <= |chunks|
      invariant d.Valid()
      invariant ApplyChunks(d.env, t0, chunks[..applied]) == Some(d.Table())
    {
      assert chunks[..applied + 1] == chunks[..applied] + [chunks[applied]];
      ApplyChunksSnoc(d.env, t0, chunks[..applied], chunks[applied]);
      ok := d.DiamondCut(chunks[applied]);
      if !ok {
        FailedChunk(d.env, t0, chunks, applied);
        return false, applied;
      }
      applied := applied + 1;
    }
    assert chunks[..applied] == chunks;
    ok := true;
  }

  /** A chunk that reverts where it stands makes the whole sequence fail. */
  lemma {:induction false} FailedChunk(env: Env, t: Table, chunks: seq<seq<FacetCut>>, i: nat)
    requires i < |chunks|
    requires ApplyChunks(env, t, chunks[..i]).Some?
    requires ApplyCuts(env, ApplyChunks(env, t, chunks[..i]).value, chunks[i]).None?
    ensures ApplyChunks(env, t, chunks).None?
    decreases i
  {
    if i > 0 {
      assert chunks[..i][1..] == chunks[1..][..i - 1];
      FailedChunk(env, ApplyCuts(env, t, chunks[0]).value, chunks[1..], i - 1);
    }
  }

  // ---- verifyUpgrade ----

  method BuildExpectedState(current: JsMap<Selector, Address>, newFacets: seq<Facet>)
      returns (expected: JsMap<Selector, Address>)
    requires current.Valid()
    ensures expected.Valid() && expected.at == Expected(current.at, ListedTable(newFacets))
  {
    expected := ReadSelectors(newFacets);
    if DIAMOND_CUT in current.at && DIAMOND_CUT !in expected.at {
      expected := expected.Set(DIAMOND_CUT, current.at[DIAMOND_CUT]);
    }
  }

  datatype Mismatch =
    | Missing(selector: Selector, expected: Address)
    | WrongAddress(selector: Selector, expected: Address, actual: Address)
    | Unexpected(selector: Selector, actual: Address)

  /** The discrepancy, if any, that verification must report for a selector. */
  function MismatchAt(post: Table, expected: Table, s: Selector): Option<Mismatch> {
    if s in expected then
      if s !in post then Some(Missing(s, expected[s]))
      else if post[s] != expected[s] then Some(WrongAddress(s, expected[s], post[s]))
      else None
    else if s in post then Some(Unexpected(s, post[s]))
    else None
  }

  /** Reports exactly the discrepancies, so it accepts a table iff it is the expected one. */
  method RunPostCutVerification(post: JsMap<Selector, Address>, expected: JsMap<Selector, Address>)
      returns (errors: seq<Mismatch>)
    requires post.Valid() && expected.Valid()
    ensures errors == [] <==> post.at == expected.at
    ensures forall e :: e in errors <==> MismatchAt(post.at, expected.at, e.selector) == Some(e)
  {
    errors := [];
    for i := 0 to |expected.order|
      invariant forall e :: e in errors <==>
                  e.selector in expected.order[..i] && MismatchAt(post.at, expected.at, e.selector) == Some(e)
    {
      var selector := expected.order[i];
      assert expected.order[..i + 1] == expected.order[..i] + [selector];
      if selector !in post.at {
        errors := errors + [Missing(selector, expected.at[selector])];
      } else if post.at[selector] != expected.at[selector] {
        errors := errors + [WrongAddress(selector, expected.at[selector], post.at[selector])];
      }
    }
    assert expected.order[..|expected.order|] == expected.order;
    for i := 0 to |post.order|
      invariant forall e :: e in errors <==>
                  (e.selector in expected.at || e.selector in post.order[..i])
                  && MismatchAt(post.at, expected.at, e.selector) == Some(e)
    {
      var selector := post.order[i];
      assert post.order[..i + 1] == post.order[..i] + [selector];
      if selector !in expected.at {
        errors := errors + [Unexpected(selector, post.at[selector])];
      }
    }
    assert post.order[..|post.order|] == post.order;
    NoMismatch(post.at, expected.at, errors);
  }

  lemma NoMismatch(post: Table, expected: Table, errors: seq<Mismatch>)
    requires forall e :: e in errors <==> MismatchAt(post, expected, e.selector) == Some(e)
    ensures errors == [] <==> post == expected
  {
    if errors != [] {
      assert errors[0] in errors;
    }
    if exists s :: MismatchAt(post, expected, s).Some? {
      var s :| MismatchAt(post, expected, s).Some?;
      assert MismatchAt(post, expected, s).value in errors;
    } else {
      assert forall s :: MismatchAt(post, expected, s).None?;
      forall s
        ensures s in post <==> s in expected
        ensures s in post ==> post[s] == expected[s]
      {
        assert MismatchAt(post, expected, s).None?;
      }
    }
  }

  // ---- The whole upgrade ----

  datatype Outcome = LoupeReverted | CutReverted(applied: nat) | Mismatched(errors: seq<Mismatch>) | Verified

  /** Reads the live selector table through the loupe. */
  method ReadOnChainSelectors(d: DiamondStorage) returns (m: Option<(seq<Facet>, JsMap<Selector, Address>)>)
    requires d.Valid()
    ensures m.Some? <==> forall f :: |ServedBy(d.selectors, d.Table(), f)| <= 255
    ensures m.Some? ==> m.value.1.Valid() && m.value.1.at == ListedTable(m.value.0) == d.Table()
  {
    var facets := d.Facets();
    if facets.None? {
      return None;
    }
    LoupeReadsTable(d, facets.value);
    var selectors := ReadSelectors(facets.value);
    return Some((facets.value, selectors));
  }

  /** Every selector is where it was or where the upgrade puts it. */
  ghost predicate Between(t: Table, before: Table, after: Table) {
    forall s :: FacetOf(t, s) == FacetOf(before, s) || FacetOf(t, s) == FacetOf(after, s)
  }

  /** `t` is what the first chunks of a plan make of `before`, and the next chunk does not go through. */
  ghost predicate StoppedAt(env: Env, before: Table, next: Table, cuts: seq<FacetCut>, size: nat, applied: nat,
                            t: Table)
    requires size > 0
  {
    && IsPlan(cuts, before, next) && applied < |Chunks(cuts, size)|
    && ApplyChunks(env, before, Chunks(cuts, size)[..applied]) == Some(t)
    && ApplyCuts(env, t, Chunks(cuts, size)[applied]).None?
  }

  /** Plans from the listing of the live diamond and applies the plan in chunks. */
  method PlanAndApply(d: DiamondStorage, facets: seq<Facet>, newFacets: seq<Facet>, chunkSize: nat)
      returns (ok: bool, applied: nat, ghost cuts: seq<FacetCut>)
    requires d.Valid() && chunkSize > 0 && ListedTable(facets) == d.Table()
    modifies d`selectors, d`entries
    ensures d.Valid()
    ensures ok <==> Upgradable(d.env, old(d.Table()), ListedTable(newFacets))
    ensures ok ==> d.Table() == Expected(old(d.Table()), ListedTable(newFacets))
    ensures !ok ==> StoppedAt(d.env, old(d.Table()), ListedTable(newFacets), cuts, chunkSize, applied, d.Table())
    ensures Between(d.Table(), old(d.Table()), Expected(old(d.Table()), ListedTable(newFacets)))
    ensures DIAMOND_CUT in old(d.Table()) ==> DIAMOND_CUT in d.Table()
  {
    ghost var t0 := d.Table();
    ghost var next := ListedTable(newFacets);
    d.SameSize();
    var plan := BuildDiamondCut(facets, newFacets);
    cuts := plan;
    ok, applied := ApplyDiamondCut(d, plan, chunkSize);
    ChunkedPlanOutcome(d.env, cuts, t0, next, chunkSize);
    IntermediateState(d.env, cuts, t0, next, chunkSize, applied);
    assert ok ==> Chunks(cuts, chunkSize)[..applied] == Chunks(cuts, chunkSize);
  }

  /**
   Plan from the live diamond, apply in chunks, read back and verify. The cut goes through iff the
   upgrade is possible, and what was applied always passes verification. A cut that reverts leaves what
   its first chunks made; a loupe that reverts leaves the old table or the new one.
   */
  method Upgrade(d: DiamondStorage, newFacets: seq<Facet>, chunkSize: nat)
      returns (outcome: Outcome, ghost cuts: seq<FacetCut>)
    requires d.Valid() && chunkSize > 0
    modifies d`selectors, d`entries
    ensures d.Valid()
    ensures !outcome.Mismatched?
    ensures outcome.Verified? ==> d.Table() == Expected(old(d.Table()), ListedTable(newFacets))
    ensures outcome.Verified? ==> Upgradable(d.env, old(d.Table()), ListedTable(newFacets))
    ensures outcome.CutReverted? ==>
              && !Upgradable(d.env, old(d.Table()), ListedTable(newFacets))
              && StoppedAt(d.env, old(d.Table()), ListedTable(newFacets), cuts, chunkSize, outcome.applied, d.Table())
    ensures outcome.LoupeReverted? ==>
              d.Table() == old(d.Table()) || d.Table() == Expected(old(d.Table()), ListedTable(newFacets))
    ensures Between(d.Table(), old(d.Table()), Expected(old(d.Table()), ListedTable(newFacets)))
    ensures outcome.LoupeReverted? ==> (exists f :: |ServedBy(old(d.selectors), old(d.Table()), f)| > 255)
                                       || (exists f :: |ServedBy(d.selectors, d.Table(), f)| > 255)
    ensures DIAMOND_CUT in old(d.Table()) ==> DIAMOND_CUT in d.Table()
  {
    var before := ReadOnChainSelectors(d);
    if before.None? {
      return LoupeReverted, [];
    }
    var expected := BuildExpectedState(before.value.1, newFacets);
    var ok, applied;
    ok, applied, cuts := PlanAndApply(d, before.value.0, newFacets, chunkSize);
    if !ok {
      return CutReverted(applied), cuts;
    }
    var after := ReadOnChainSelectors(d);
    if after.None? {
      return LoupeReverted, cuts;
    }
    var errors := RunPostCutVerification(after.value.1, expected);
    outcome := if errors == [] then Verified else Mismatched(errors);
  }
}
