/** When one FacetCut goes through, judged on the table it starts from, and what it leaves. */
module CutConditions {
  import opened Collections
  import opened Diamond

  /** What the cut's action asks of one of its selectors. */
  ghost predicate Fits(env: Env, t: Table, cut: FacetCut, s: Selector) {
    match cut.action
    case Add => s !in t
    case Replace => s in t && t[s] != env.self && t[s] != cut.facet
    case Remove => s in t && t[s] != env.self
  }

  /** Removals name no facet, the others one with code; the counter has room for what is added. */
  ghost predicate GoesThrough(env: Env, t: Table, cut: FacetCut) {
    && cut.selectors != [] && Distinct(cut.selectors)
    && (if cut.action == Remove then cut.facet == ZERO_ADDRESS
        else cut.facet != ZERO_ADDRESS && cut.facet in env.code)
    && (forall s | s in cut.selectors :: Fits(env, t, cut, s))
    && (cut.action == Add ==> |t| + |cut.selectors| <= MAX_SELECTORS)
  }

  /** What the cut leaves: its selectors go or point at its facet, and no other selector moves. */
  ghost predicate Leaves(t: Table, cut: FacetCut, t': Table) {
    forall s :: FacetIn(t', s) ==
      if s !in cut.selectors then FacetIn(t, s) else if cut.action == Remove then None else Some(cut.facet)
  }

  function FacetIn(t: Table, s: Selector): Option<Address> {
    if s in t then Some(t[s]) else None
  }

  lemma ConsMembers(s: seq<Selector>)
    requires |s| > 0
    ensures (forall x :: x in s <==> x == s[0] || x in s[1..]) && (Distinct(s) <==> Distinct(s[1..]) && s[0] !in s[1..])
  {
    assert s == [s[0]] + s[1..];
    if Distinct(s[1..]) && s[0] !in s[1..] {
      forall i, j | 0 <= i < j < |s|
        ensures s[i] != s[j]
      {
        assert s[j] == s[1..][j - 1] && (i > 0 ==> s[i] == s[1..][i - 1]);
      }
    }
  }

  /** What the first selector does to the rest: it cannot come again, and no other selector is judged differently. */
  lemma FirstEdit(env: Env, t: Table, cut: FacetCut)
    requires |cut.selectors| > 1 && Allowed(env, t, Edits(cut)[0])
    ensures GoesThrough(env, t, cut) <==>
            GoesThrough(env, Edited(t, Edits(cut)[0]), cut.(selectors := cut.selectors[1..]))
  {
    var first, rest := cut.selectors[0], cut.(selectors := cut.selectors[1..]);
    var t' := Edited(t, Edits(cut)[0]);
    ConsMembers(cut.selectors);
    assert Fits(env, t, cut, first) && !Fits(env, t', rest, first);
    assert forall s | s != first :: Fits(env, t', rest, s) == Fits(env, t, cut, s);
    assert cut.action == Add ==> |t'| == |t| + 1;
  }

  lemma OneEdit(env: Env, t: Table, cut: FacetCut)
    requires |cut.selectors| > 0
    ensures |cut.selectors| == 1 ==> (GoesThrough(env, t, cut) <==> Allowed(env, t, Edits(cut)[0]))
    ensures GoesThrough(env, t, cut) ==> Allowed(env, t, Edits(cut)[0])
  {
    assert Edits(cut)[0] == Edit(cut.action, cut.facet, cut.selectors[0]);
    assert cut.selectors[0] in cut.selectors;
    if |cut.selectors| == 1 {
      assert cut.selectors == [cut.selectors[0]];
    }
  }

  /** A cut goes through exactly when it could in any order of its selectors, all judged on the table before it. */
  lemma {:induction false} CutGoesThroughIff(env: Env, t: Table, cut: FacetCut)
    ensures ApplyCut(env, t, cut).Some? <==> GoesThrough(env, t, cut)
    ensures ApplyCut(env, t, cut).Some? ==> Leaves(t, cut, ApplyCut(env, t, cut).value)
    decreases |cut.selectors|
  {
    if |cut.selectors| > 0 {
      var first, rest := cut.selectors[0], cut.(selectors := cut.selectors[1..]);
      ConsMembers(cut.selectors);
      OneEdit(env, t, cut);
      if Allowed(env, t, Edits(cut)[0]) {
        var t' := Edited(t, Edits(cut)[0]);
        assert Edits(cut)[1..] == Edits(rest);
        assert forall s | s != first :: FacetIn(t', s) == FacetIn(t, s);
        if |cut.selectors| > 1 {
          FirstEdit(env, t, cut);
          CutGoesThroughIff(env, t', rest);
        } else {
          assert Edits(rest) == [];
          assert ApplyEdits(env, t', []) == Some(t');
          assert FacetIn(t', first) == if cut.action == Remove then None else Some(cut.facet);
        }
      }
    }
  }
}
