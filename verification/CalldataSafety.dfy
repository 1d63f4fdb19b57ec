/** What accepted calldata does to the diamond. */
module CalldataSafety {
  import opened Collections
  import opened Diamond
  import opened CutPlanner
  import opened Timelock
  import opened BatchVerifier

  /** Calls one chunk after the other. */
  function CallAll(cfg: Config, t: Table, chunks: seq<Calldata>): Option<Table> {
    if |chunks| == 0 then Some(t)
    else
      match CallAll(cfg, t, chunks[..|chunks| - 1])
      case None => None
      case Some(t') => CallDiamond(cfg, t', chunks[|chunks| - 1])
  }

  /** Every selector of `t'` is served as it was in `t`, or by a deployed facet that declares it. */
  ghost predicate ServedAsDeclared(deployed: seq<Facet>, t: Table, t': Table) {
    forall s | s in t' :: (s in t && t'[s] == t[s]) || Declares(deployed, t'[s], s)
  }

  /** An edit that removes, or names a facet that declares its selector. */
  ghost predicate EditDeclared(deployed: seq<Facet>, e: Edit) {
    e.action == Remove || Declares(deployed, e.facet, e.selector)
  }

  lemma {:induction false} EditsServe(env: Env, deployed: seq<Facet>, t0: Table, t: Table, es: seq<Edit>)
    requires ServedAsDeclared(deployed, t0, t) && forall i :: 0 <= i < |es| ==> EditDeclared(deployed, es[i])
    ensures ApplyEdits(env, t, es).Some? ==> ServedAsDeclared(deployed, t0, ApplyEdits(env, t, es).value)
    decreases |es|
  {
    if |es| > 0 && Allowed(env, t, es[0]) {
      assert EditDeclared(deployed, es[0]);
      var t' := Edited(t, es[0]);
      assert ServedAsDeclared(deployed, t0, t');
      assert forall i :: 0 <= i < |es[1..]| ==> es[1..][i] == es[i + 1];
      EditsServe(env, deployed, t0, t', es[1..]);
    }
  }

  ghost predicate CutDeclared(deployed: seq<Facet>, cut: FacetCut) {
    forall s | s in cut.selectors :: cut.action == Remove || Declares(deployed, cut.facet, s)
  }

  lemma {:induction false} CutsServe(env: Env, deployed: seq<Facet>, t0: Table, t: Table, cuts: seq<FacetCut>)
    requires ServedAsDeclared(deployed, t0, t) && forall i :: 0 <= i < |cuts| ==> CutDeclared(deployed, cuts[i])
    ensures ApplyCuts(env, t, cuts).Some? ==> ServedAsDeclared(deployed, t0, ApplyCuts(env, t, cuts).value)
    decreases |cuts|
  {
    if |cuts| > 0 && ApplyCut(env, t, cuts[0]).Some? {
      assert CutDeclared(deployed, cuts[0]);
      var es := Edits(cuts[0]);
      assert forall i :: 0 <= i < |es| ==> es[i].selector in cuts[0].selectors;
      EditsServe(env, deployed, t0, t, es);
      assert forall i :: 0 <= i < |cuts[1..]| ==> cuts[1..][i] == cuts[i + 1];
      CutsServe(env, deployed, t0, ApplyCut(env, t, cuts[0]).value, cuts[1..]);
    }
  }

  /** The diamond does with an accepted call what its cuts say, and nothing else. */
  lemma CleanCallIsCuts(cfg: Config, t: Table, deployed: seq<Facet>, data: Calldata)
    requires CleanCall(deployed, data)
    ensures CallDiamond(cfg, t, data) == ApplyCuts(cfg.env, t, DecodeCuts(data.cuts))
  {
  }

  lemma CleanCallServes(cfg: Config, deployed: seq<Facet>, t0: Table, t: Table, data: Calldata)
    requires CleanCall(deployed, data) && ServedAsDeclared(deployed, t0, t)
    ensures CallDiamond(cfg, t, data).Some? ==> ServedAsDeclared(deployed, t0, CallDiamond(cfg, t, data).value)
  {
    CleanCallIsCuts(cfg, t, deployed, data);
    var cuts := DecodeCuts(data.cuts);
    forall i | 0 <= i < |cuts|
      ensures CutDeclared(deployed, cuts[i])
    {
      assert cuts[i].selectors == data.cuts[i].selectors && cuts[i].facet == data.cuts[i].facet;
      assert cuts[i].action != Remove ==> data.cuts[i].action <= 1;
    }
    CutsServe(cfg.env, deployed, t0, t, cuts);
  }

  /**
   End to end: whatever the diamond was, after all accepted chunks every selector is served as before, or by
   a deployed facet that declares it.
   */
  lemma {:induction false} AcceptedChunksServe(cfg: Config, deployed: seq<Facet>, t: Table, chunks: seq<Calldata>)
    requires forall i :: 0 <= i < |chunks| ==> CleanCall(deployed, chunks[i])
    ensures CallAll(cfg, t, chunks).Some? ==> ServedAsDeclared(deployed, t, CallAll(cfg, t, chunks).value)
  {
    if |chunks| > 0 {
      var init := chunks[..|chunks| - 1];
      AcceptedChunksServe(cfg, deployed, t, init);
      if CallAll(cfg, t, init).Some? {
        CleanCallServes(cfg, deployed, t, CallAll(cfg, t, init).value, chunks[|chunks| - 1]);
      }
    }
  }

  // ---- Selectors named twice ----

  /** One place where a selector is named: the chunk, the cut in it, and the position in the cut. */
  datatype Place = Place(chunk: nat, cut: nat, position: nat)

  ghost predicate IsPlace(chunks: seq<Calldata>, p: Place) {
    && p.chunk < |chunks| && chunks[p.chunk].CutCall? && p.cut < |chunks[p.chunk].cuts|
    && p.position < |chunks[p.chunk].cuts[p.cut].selectors|
  }

  function SelectorAt(chunks: seq<Calldata>, p: Place): Selector
    requires IsPlace(chunks, p)
  {
    chunks[p.chunk].cuts[p.cut].selectors[p.position]
  }

  ghost predicate NamedOnce(chunks: seq<Calldata>) {
    forall p, q | IsPlace(chunks, p) && IsPlace(chunks, q) && p != q :: SelectorAt(chunks, p) != SelectorAt(chunks, q)
  }

  /** Where place `c`, `position` of one call is in its list of selectors. */
  function CutIndex(cuts: seq<RawCut>, c: nat, position: nat): (k: nat)
    requires c < |cuts| && position < |cuts[c].selectors|
    ensures k < |CutSelectors(cuts)| && CutSelectors(cuts)[k] == cuts[c].selectors[position]
    decreases |cuts|
  {
    var n := |cuts| - 1;
    if c == n then |CutSelectors(cuts[..n])| + position else CutIndex(cuts[..n], c, position)
  }

  function PlaceIndex(chunks: seq<Calldata>, p: Place): (k: nat)
    requires IsPlace(chunks, p)
    ensures k < |ChunkSelectors(chunks)| && ChunkSelectors(chunks)[k] == SelectorAt(chunks, p)
    decreases |chunks|
  {
    var n := |chunks| - 1;
    if p.chunk == n then |ChunkSelectors(chunks[..n])| + CutIndex(chunks[n].cuts, p.cut, p.position)
    else PlaceIndex(chunks[..n], p)
  }

  lemma {:induction false} CutIndexInjective(cuts: seq<RawCut>, c: nat, x: nat, d: nat, y: nat)
    requires c < |cuts| && x < |cuts[c].selectors| && d < |cuts| && y < |cuts[d].selectors| && (c, x) != (d, y)
    ensures CutIndex(cuts, c, x) != CutIndex(cuts, d, y)
    decreases |cuts|
  {
    var n := |cuts| - 1;
    if c < n && d < n {
      CutIndexInjective(cuts[..n], c, x, d, y);
    }
  }

  lemma {:induction false} PlaceIndexInjective(chunks: seq<Calldata>, p: Place, q: Place)
    requires IsPlace(chunks, p) && IsPlace(chunks, q) && p != q
    ensures PlaceIndex(chunks, p) != PlaceIndex(chunks, q)
    decreases |chunks|
  {
    var n := |chunks| - 1;
    if p.chunk == n && q.chunk == n {
      CutIndexInjective(chunks[n].cuts, p.cut, p.position, q.cut, q.position);
    } else if p.chunk < n && q.chunk < n {
      PlaceIndexInjective(chunks[..n], p, q);
    }
  }

  lemma {:induction false} CutPlaceOf(cuts: seq<RawCut>, k: nat) returns (c: nat, x: nat)
    requires k < |CutSelectors(cuts)|
    ensures c < |cuts| && x < |cuts[c].selectors| && CutIndex(cuts, c, x) == k
    decreases |cuts|
  {
    var n := |cuts| - 1;
    var before := |CutSelectors(cuts[..n])|;
    if k < before {
      c, x := CutPlaceOf(cuts[..n], k);
    } else {
      c, x := n, k - before;
    }
  }

  lemma {:induction false} PlaceOf(chunks: seq<Calldata>, k: nat) returns (p: Place)
    requires k < |ChunkSelectors(chunks)|
    ensures IsPlace(chunks, p) && PlaceIndex(chunks, p) == k
    decreases |chunks|
  {
    var n := |chunks| - 1;
    var before := |ChunkSelectors(chunks[..n])|;
    if k < before {
      p := PlaceOf(chunks[..n], k);
    } else {
      var c, x := CutPlaceOf(chunks[n].cuts, k - before);
      p := Place(n, c, x);
    }
  }

  /** The checker's list has no repetition exactly when no selector is named at two places, in one chunk or in two. */
  lemma NamedOnceIff(chunks: seq<Calldata>)
    ensures Distinct(ChunkSelectors(chunks)) <==> NamedOnce(chunks)
  {
    forall p, q | Distinct(ChunkSelectors(chunks)) && IsPlace(chunks, p) && IsPlace(chunks, q) && p != q
      ensures SelectorAt(chunks, p) != SelectorAt(chunks, q)
    {
      PlaceIndexInjective(chunks, p, q);
    }
    forall i, j | NamedOnce(chunks) && 0 <= i < j < |ChunkSelectors(chunks)|
      ensures ChunkSelectors(chunks)[i] != ChunkSelectors(chunks)[j]
    {
      var p := PlaceOf(chunks, i);
      var q := PlaceOf(chunks, j);
      assert SelectorAt(chunks, p) != SelectorAt(chunks, q);
    }
  }
}
