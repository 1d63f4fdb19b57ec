/**
 The upgrade's diamond-cut planner, its chunked application to a live diamond, and the
 post-cut verification.
 */
module CutPlanner {
  import opened Collections
  import opened Diamond

  // ---- What the upgrade is for ----

  /** The target table: the new facets' selectors, with `diamondCut` never dropped. */
  function Expected(current: Table, next: Table): Table {
    if DIAMOND_CUT in current && DIAMOND_CUT !in next then next[DIAMOND_CUT := current[DIAMOND_CUT]] else next
  }

  /** What has to happen to a selector to get from `current` to `next`. */
  function Change(current: Table, next: Table, s: Selector): Option<(Action, Address)> {
    if s in next then Some((if s in current then Replace else Add, next[s]))
    else if s in current && s != DIAMOND_CUT then Some((Remove, ZERO_ADDRESS))
    else None
  }

  /** The edits of all cuts, in execution order. */
  function AllEdits(cuts: seq<FacetCut>): seq<Edit> {
    if |cuts| == 0 then [] else Edits(cuts[0]) + AllEdits(cuts[1..])
  }

  /** Each selector that must change is edited once, as required, and nothing is added before all the rest is done. */
  ghost predicate IsPlan(cuts: seq<FacetCut>, current: Table, next: Table) {
    var es := AllEdits(cuts);
    && (forall i :: 0 <= i < |cuts| ==> cuts[i].selectors != [])
    && DistinctSelectors(es)
    && AddsLast(es)
    && (forall k :: 0 <= k < |es| ==> Change(current, next, es[k].selector) == Some((es[k].action, es[k].facet)))
    && (forall s :: Change(current, next, s).Some? ==> exists k :: 0 <= k < |es| && es[k].selector == s)
  }

  ghost predicate DistinctSelectors(es: seq<Edit>) {
    forall i, j :: 0 <= i < j < |es| ==> es[i].selector != es[j].selector
  }

  ghost predicate AddsLast(es: seq<Edit>) {
    forall i, j :: 0 <= i < j < |es| && es[i].action == Add ==> es[j].action == Add
  }

  /**
   Exactly when the upgrade goes through: every new facet has code, no selector already points at
   its new facet, no function of the diamond itself has to go, and the target fits the selector array.
   */
  ghost predicate Upgradable(env: Env, current: Table, next: Table) {
    && (forall s :: s in next ==> next[s] != ZERO_ADDRESS && next[s] in env.code)
    && (forall s :: s in current && s in next ==> current[s] != next[s])
    && (forall s :: s in current && (s in next || s != DIAMOND_CUT) ==> current[s] != env.self)
    && |Expected(current, next)| <= MAX_SELECTORS
  }

  // ---- Edits with distinct selectors ----

  function EditedAll(t: Table, es: seq<Edit>): Table
    decreases |es|
  {
    if |es| == 0 then t else EditedAll(Edited(t, es[0]), es[1..])
  }

  /** `Allowed` without the bound on the number of selectors. */
  predicate Clean(env: Env, t: Table, e: Edit) {
    match e.action
    case Add => e.facet != ZERO_ADDRESS && e.facet in env.code && e.selector !in t
    case Replace =>
      && e.facet != ZERO_ADDRESS && e.facet in env.code
      && e.selector in t && t[e.selector] != env.self && t[e.selector] != e.facet
    case Remove => e.facet == ZERO_ADDRESS && e.selector in t && t[e.selector] != env.self
  }

  lemma {:induction false} AddsNeverShrink(t: Table, es: seq<Edit>)
    requires forall k :: 0 <= k < |es| ==> es[k].action == Add
    ensures |EditedAll(t, es)| >= |t|
    decreases |es|
  {
    if |es| > 0 {
      AddsNeverShrink(Edited(t, es[0]), es[1..]);
    }
  }

  ghost predicate AllClean(env: Env, t: Table, es: seq<Edit>) {
    forall k :: 0 <= k < |es| ==> Clean(env, t, es[k])
  }

  /** An edit does not change how the later edits of other selectors are judged. */
  lemma AllCleanStep(env: Env, t: Table, es: seq<Edit>)
    requires DistinctSelectors(es) && |es| > 0
    ensures AllClean(env, t, es) <==> Clean(env, t, es[0]) && AllClean(env, Edited(t, es[0]), es[1..])
  {
    var t', rest := Edited(t, es[0]), es[1..];
    assert forall k :: 0 <= k < |rest| ==> Clean(env, t', rest[k]) == Clean(env, t, es[k + 1]);
    if AllClean(env, t', rest) && Clean(env, t, es[0]) {
      forall k | 0 <= k < |es|
        ensures Clean(env, t, es[k])
      {
        if k > 0 {
          assert Clean(env, t', rest[k - 1]);
        }
      }
    }
  }

  lemma EditedSize(t: Table, e: Edit)
    requires |t| < MAX_SELECTORS || (|t| == MAX_SELECTORS && (e.action == Remove || e.selector in t))
    ensures |Edited(t, e)| <= MAX_SELECTORS
  {
    if e.action == Remove {
      assert Edited(t, e).Keys <= t.Keys;
      assert |Edited(t, e).Keys| <= |t.Keys| by {
        CardinalitySubset(Edited(t, e).Keys, t.Keys);
      }
    }
  }

  /** Edits of distinct selectors do not see each other, so all can be judged on the initial table. */
  lemma {:induction false} DistinctEditsOutcome(env: Env, t: Table, es: seq<Edit>)
    requires DistinctSelectors(es) && AddsLast(es) && |t| <= MAX_SELECTORS
    ensures ApplyEdits(env, t, es) ==
            if AllClean(env, t, es) && |EditedAll(t, es)| <= MAX_SELECTORS then Some(EditedAll(t, es)) else None
    decreases |es|
  {
    if |es| > 0 {
      AllCleanStep(env, t, es);
      if Clean(env, t, es[0]) {
        if es[0].action == Add && |t| == MAX_SELECTORS {
          AddsNeverShrink(Edited(t, es[0]), es[1..]);
        } else {
          EditedSize(t, es[0]);
          DistinctEditsOutcome(env, Edited(t, es[0]), es[1..]);
        }
      }
    }
  }

  /** Where a selector ends up after a list of edits that name it at most once. */
  lemma {:induction false} EditedAllAt(t: Table, es: seq<Edit>, s: Selector)
    requires DistinctSelectors(es)
    ensures (forall k :: 0 <= k < |es| ==> es[k].selector != s) ==>
              (s in EditedAll(t, es) <==> s in t) && (s in t ==> EditedAll(t, es)[s] == t[s])
    ensures forall k :: 0 <= k < |es| && es[k].selector == s ==>
              (s in EditedAll(t, es) <==> es[k].action != Remove)
              && (es[k].action != Remove ==> EditedAll(t, es)[s] == es[k].facet)
    decreases |es|
  {
    if |es| > 0 {
      EditedAllAt(Edited(t, es[0]), es[1..], s);
      forall k | 0 <= k < |es| && es[k].selector == s
        ensures (s in EditedAll(t, es) <==> es[k].action != Remove)
        ensures es[k].action != Remove ==> EditedAll(t, es)[s] == es[k].facet
      {
        if k > 0 {
          assert es[1..][k - 1] == es[k];
        }
      }
    }
  }

  // ---- Cuts, transactions and chunks ----

  lemma {:induction false} ApplyEditsConcat(env: Env, t: Table, a: seq<Edit>, b: seq<Edit>)
    ensures ApplyEdits(env, t, a + b) ==
            match ApplyEdits(env, t, a)
            case None => None
            case Some(t') => ApplyEdits(env, t', b)
    decreases |a|
  {
    if |a| == 0 {
      assert a + b == b;
    } else {
      assert (a + b)[1..] == a[1..] + b;
      if Allowed(env, t, a[0]) {
        ApplyEditsConcat(env, Edited(t, a[0]), a[1..], b);
      }
    }
  }

  /** Applying cut by cut is applying edit by edit. */
  lemma {:induction false} CutsAreEdits(env: Env, t: Table, cuts: seq<FacetCut>)
    requires forall i :: 0 <= i < |cuts| ==> cuts[i].selectors != []
    ensures ApplyCuts(env, t, cuts) == ApplyEdits(env, t, AllEdits(cuts))
    decreases |cuts|
  {
    if |cuts| > 0 {
      ApplyEditsConcat(env, t, Edits(cuts[0]), AllEdits(cuts[1..]));
      if ApplyCut(env, t, cuts[0]).Some? {
        CutsAreEdits(env, ApplyCut(env, t, cuts[0]).value, cuts[1..]);
      }
    }
  }

  /** A sequence of transactions, one per chunk. */
  function ApplyChunks(env: Env, t: Table, chunks: seq<seq<FacetCut>>): Option<Table>
    decreases |chunks|
  {
    if |chunks| == 0 then Some(t)
    else
      match ApplyCuts(env, t, chunks[0])
      case None => None
      case Some(t') => ApplyChunks(env, t', chunks[1..])
  }

  lemma {:induction false} ApplyCutsConcat(env: Env, t: Table, a: seq<FacetCut>, b: seq<FacetCut>)
    ensures ApplyCuts(env, t, a + b) ==
            match ApplyCuts(env, t, a)
            case None => None
            case Some(t') => ApplyCuts(env, t', b)
    decreases |a|
  {
    if |a| == 0 {
      assert a + b == b;
    } else {
      assert (a + b)[1..] == a[1..] + b;
      if ApplyCut(env, t, a[0]).Some? {
        ApplyCutsConcat(env, ApplyCut(env, t, a[0]).value, a[1..], b);
      }
    }
  }

  /** Splitting into transactions does not change what a list of cuts does, nor whether it goes through. */
  lemma {:induction false} ChunksAreCuts(env: Env, t: Table, chunks: seq<seq<FacetCut>>)
    ensures ApplyChunks(env, t, chunks) == ApplyCuts(env, t, Flatten(chunks))
    decreases |chunks|
  {
    if |chunks| > 0 {
      ApplyCutsConcat(env, t, chunks[0], Flatten(chunks[1..]));
      if ApplyCuts(env, t, chunks[0]).Some? {
        ChunksAreCuts(env, ApplyCuts(env, t, chunks[0]).value, chunks[1..]);
      }
    }
  }

  lemma {:induction false} ApplyChunksSnoc(env: Env, t: Table, chunks: seq<seq<FacetCut>>, chunk: seq<FacetCut>)
    ensures ApplyChunks(env, t, chunks + [chunk]) ==
            match ApplyChunks(env, t, chunks)
            case None => None
            case Some(t') => ApplyCuts(env, t', chunk)
    decreases |chunks|
  {
    if |chunks| > 0 {
      assert (chunks + [chunk])[1..] == chunks[1..] + [chunk];
      if ApplyCuts(env, t, chunks[0]).Some? {
        ApplyChunksSnoc(env, ApplyCuts(env, t, chunks[0]).value, chunks[1..], chunk);
      }
    } else {
      assert ([chunk])[1..] == [];
    }
  }

  lemma {:induction false} AllEditsConcat(a: seq<FacetCut>, b: seq<FacetCut>)
    ensures AllEdits(a + b) == AllEdits(a) + AllEdits(b)
  {
    if |a| == 0 {
      assert a + b == b;
    } else {
      assert (a + b)[1..] == a[1..] + b;
      AllEditsConcat(a[1..], b);
    }
  }

  // ---- Main results about a plan ----

  lemma PlanReachesExpectedAt(cuts: seq<FacetCut>, current: Table, next: Table, s: Selector)
    requires IsPlan(cuts, current, next)
    ensures FacetOf(EditedAll(current, AllEdits(cuts)), s) == FacetOf(Expected(current, next), s)
    ensures s in EditedAll(current, AllEdits(cuts)) <==> s in Expected(current, next)
  {
    var es := AllEdits(cuts);
    EditedAllAt(current, es, s);
    if Change(current, next, s).Some? {
      var k :| 0 <= k < |es| && es[k].selector == s;
    } else {
      assert forall k :: 0 <= k < |es| ==> es[k].selector != s;
    }
  }

  lemma PlanReachesExpected(cuts: seq<FacetCut>, current: Table, next: Table)
    requires IsPlan(cuts, current, next)
    ensures EditedAll(current, AllEdits(cuts)) == Expected(current, next)
  {
    var final := EditedAll(current, AllEdits(cuts));
    forall s
      ensures s in final <==> s in Expected(current, next)
      ensures s in final ==> final[s] == Expected(current, next)[s]
    {
      PlanReachesExpectedAt(cuts, current, next, s);
    }
  }

  lemma PlanIsClean(env: Env, cuts: seq<FacetCut>, current: Table, next: Table)
    requires IsPlan(cuts, current, next)
    ensures |Expected(current, next)| <= MAX_SELECTORS ==>
              (AllClean(env, current, AllEdits(cuts)) <==> Upgradable(env, current, next))
  {
    var es := AllEdits(cuts);
    if AllClean(env, current, es) {
      forall s | s in next
        ensures next[s] != ZERO_ADDRESS && next[s] in env.code
        ensures s in current ==> current[s] != next[s]
      {
        assert Change(current, next, s).Some?;
        var k :| 0 <= k < |es| && es[k].selector == s;
        assert Clean(env, current, es[k]);
      }
      forall s | s in current && (s in next || s != DIAMOND_CUT)
        ensures current[s] != env.self
      {
        assert Change(current, next, s).Some?;
        var k :| 0 <= k < |es| && es[k].selector == s;
        assert Clean(env, current, es[k]);
      }
    }
    if Upgradable(env, current, next) {
      forall k | 0 <= k < |es|
        ensures Clean(env, current, es[k])
      {
        assert Change(current, next, es[k].selector) == Some((es[k].action, es[k].facet));
      }
    }
  }

  /** The planned cut is accepted iff the upgrade is possible at all, and then reaches exactly the target. */
  lemma PlanOutcome(env: Env, cuts: seq<FacetCut>, current: Table, next: Table)
    requires IsPlan(cuts, current, next) && |current| <= MAX_SELECTORS
    ensures ApplyCuts(env, current, cuts) ==
            if Upgradable(env, current, next) then Some(Expected(current, next)) else None
  {
    CutsAreEdits(env, current, cuts);
    DistinctEditsOutcome(env, current, AllEdits(cuts));
    PlanReachesExpected(cuts, current, next);
    PlanIsClean(env, cuts, current, next);
  }

  /** The same, for the plan split into one transaction per chunk, whatever the chunk size. */
  lemma ChunkedPlanOutcome(env: Env, cuts: seq<FacetCut>, current: Table, next: Table, size: nat)
    requires IsPlan(cuts, current, next) && |current| <= MAX_SELECTORS && size > 0
    ensures ApplyChunks(env, current, Chunks(cuts, size)) ==
            if Upgradable(env, current, next) then Some(Expected(current, next)) else None
  {
    ChunksAreCuts(env, current, Chunks(cuts, size));
    FlattenChunks(cuts, size);
    PlanOutcome(env, cuts, current, next);
  }

  /** An upgrade cannot be planned again once done: its plan would replace functions by themselves. */
  lemma SecondUpgradeReverts(env: Env, cuts: seq<FacetCut>, current: Table, next: Table, s: Selector)
    requires s in next && |Expected(current, next)| <= MAX_SELECTORS
    requires IsPlan(cuts, Expected(current, next), next)
    ensures ApplyCuts(env, Expected(current, next), cuts) == None
  {
    PlanOutcome(env, cuts, Expected(current, next), next);
    assert s in Expected(current, next) && Expected(current, next)[s] == next[s];
  }

  ghost predicate TouchedBy(s: Selector, cuts: seq<FacetCut>) {
    exists k :: 0 <= k < |AllEdits(cuts)| && AllEdits(cuts)[k].selector == s
  }

  /**
   Between any two transactions of an upgrade, every selector is either still where it was (if no
   executed chunk names it) or already where it will end up, and `diamondCut` is never gone.
   */
  lemma IntermediateState(env: Env, cuts: seq<FacetCut>, current: Table, next: Table, size: nat, done: nat)
    requires IsPlan(cuts, current, next) && |current| <= MAX_SELECTORS && size > 0
    requires done <= |Chunks(cuts, size)|
    requires ApplyChunks(env, current, Chunks(cuts, size)[..done]).Some?
    ensures var t := ApplyChunks(env, current, Chunks(cuts, size)[..done]).value;
            && (forall s :: FacetOf(t, s) == if TouchedBy(s, Flatten(Chunks(cuts, size)[..done]))
                                             then FacetOf(Expected(current, next), s) else FacetOf(current, s))
            && (DIAMOND_CUT in current ==> DIAMOND_CUT in t)
  {
    var chunks := Chunks(cuts, size);
    var first, rest := Flatten(chunks[..done]), Flatten(chunks[done..]);
    FlattenChunks(cuts, size);
    FlattenPrefix(chunks, done);
    AllEditsConcat(first, rest);
    ChunksAreCuts(env, current, chunks[..done]);
    assert forall i :: 0 <= i < |first| ==> first[i] == cuts[i];
    CutsAreEdits(env, current, first);
    PrefixOfPlan(env, cuts, current, next, AllEdits(first), AllEdits(rest));
  }

  /** The state after the first edits `es` of a plan. */
  lemma PrefixOfPlan(env: Env, cuts: seq<FacetCut>, current: Table, next: Table, es: seq<Edit>, rest: seq<Edit>)
    requires IsPlan(cuts, current, next) && |current| <= MAX_SELECTORS
    requires AllEdits(cuts) == es + rest && ApplyEdits(env, current, es).Some?
    ensures var t := ApplyEdits(env, current, es).value;
            forall s :: FacetOf(t, s) == (if exists k :: 0 <= k < |es| && es[k].selector == s
                                          then FacetOf(Expected(current, next), s) else FacetOf(current, s))
                        && (s == DIAMOND_CUT && s in current ==> s in t)
  {
    var all := AllEdits(cuts);
    assert forall k :: 0 <= k < |es| ==> es[k] == all[k];
    DistinctEditsOutcome(env, current, es);
    PlanReachesExpected(cuts, current, next);
    var t := EditedAll(current, es);
    forall s
      ensures FacetOf(t, s) == if exists k :: 0 <= k < |es| && es[k].selector == s
                               then FacetOf(Expected(current, next), s) else FacetOf(current, s)
      ensures s == DIAMOND_CUT && s in current ==> s in t
    {
      EditedAllAt(current, es, s);
      EditedAllAt(current, all, s);
      if exists k :: 0 <= k < |es| && es[k].selector == s {
        var k :| 0 <= k < |es| && es[k].selector == s;
        assert all[k].selector == s;
        assert Clean(env, current, es[k]);
      }
    }
  }
}
