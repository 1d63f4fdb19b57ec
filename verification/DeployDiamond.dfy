/** The chunked first cut of a new diamond, and its resume test after a crash. */
module DeployDiamond {
  import opened Collections
  import opened Diamond
  import opened CutPlanner
  import opened UpgradeScripts

  const CHUNK_SIZE: nat := 6

  /** The selector of the loupe's `facets()`. */
  const FACETS: Selector := 0x7a0ed627

  function AddCuts(facets: seq<Facet>): seq<FacetCut> {
    seq(|facets|, i requires 0 <= i < |facets| => FacetCut(facets[i].facet, Add, facets[i].selectors))
  }

  function CutChunks(facets: seq<Facet>): seq<seq<FacetCut>> {
    Chunks(AddCuts(facets), CHUNK_SIZE)
  }

  ghost function Served(t: Table, f: Address): set<Selector> {
    set s | s in t && t[s] == f
  }

  /** The loupe counts a facet's selectors in a `uint8`. */
  ghost predicate FewPerFacet(t: Table) {
    forall f :: |Served(t, f)| <= 255
  }

  /** The resume test: `facets()` answers, and with more than one facet. */
  ghost predicate LooksDone(t: Table) {
    FACETS in t && FewPerFacet(t) && exists s | s in t :: t[s] != t[FACETS]
  }

  /** In numbers: `facets()` is registered, more than one facet is, and none has more than 255 selectors. */
  lemma LooksDoneCounts(t: Table)
    ensures LooksDone(t) <==> FACETS in t && |t.Values| > 1 && forall f :: |Served(t, f)| <= 255
  {
    if FACETS in t {
      var first := t[FACETS];
      if s :| s in t && t[s] != first {
        assert |{first, t[s]}| == 2;
        CardinalitySubset({first, t[s]}, t.Values);
      } else {
        assert t.Values == {first};
      }
    }
  }

  /** What survives a crash: the diamond and the checkpoint's flag. */
  datatype Site = Site(table: Table, cutComplete: bool)

  /** The table after at most `limit` transactions, stopping where one reverts. */
  function Sent(env: Env, t: Table, chunks: seq<seq<FacetCut>>, limit: nat): Table
    decreases |chunks|
  {
    if |chunks| == 0 || limit == 0 then t
    else
      match ApplyCuts(env, t, chunks[0])
      case None => t
      case Some(t') => Sent(env, t', chunks[1..], limit - 1)
  }

  /**
   One deployment run from the cut on, and whether it reports completion. A crash stops it after that
   many chunks, at the latest before it saves the flag.
   */
  ghost function Attempt(env: Env, s: Site, facets: seq<Facet>, crash: Option<nat>): (Site, bool) {
    var chunks := CutChunks(facets);
    if s.cutComplete || LooksDone(s.table) then (Site(s.table, true), true)
    else if crash.Some? then (Site(Sent(env, s.table, chunks, crash.value), false), false)
    else
      match ApplyChunks(env, s.table, chunks)
      case None => (Site(Sent(env, s.table, chunks, |chunks|), false), false)
      case Some(t) => (Site(t, true), true)
  }

  // ---- The script ----

  method BuildCut(facets: seq<Facet>) returns (cut: seq<FacetCut>)
    ensures cut == AddCuts(facets)
  {
    cut := [];
    for i := 0 to |facets|
      invariant cut == AddCuts(facets[..i])
    {
      cut := cut + [FacetCut(facets[i].facet, Add, facets[i].selectors)];
      assert AddCuts(facets[..i + 1]) == AddCuts(facets[..i]) + [FacetCut(facets[i].facet, Add, facets[i].selectors)];
    }
    assert facets[..|facets|] == facets;
  }

  method CheckOnChain(d: DiamondStorage) returns (done: bool)
    requires d.Valid()
    ensures done <==> LooksDone(d.Table())
  {
    var listed := d.Facets();
    FewIsServed(d);
    if FACETS !in d.entries || listed.None? {
      return false;
    }
    done := |listed.value| > 1;
    ManyFacets(d, listed.value);
  }

  method RunCut(d: DiamondStorage, facets: seq<Facet>, cutComplete: bool, crash: Option<nat>) returns (complete: bool)
    requires d.Valid()
    modifies d`selectors, d`entries
    ensures d.Valid()
    ensures Attempt(d.env, Site(old(d.Table()), cutComplete), facets, crash) == (Site(d.Table(), complete), complete)
  {
    var cut := BuildCut(facets);
    var done := cutComplete;
    if !done {
      done := CheckOnChain(d);
    }
    if done {
      return true;
    }
    complete := SendChunks(d, cut, crash);
  }

  /** One transaction per chunk, until one reverts or the process dies. */
  method SendChunks(d: DiamondStorage, cut: seq<FacetCut>, crash: Option<nat>) returns (complete: bool)
    requires d.Valid()
    modifies d`selectors, d`entries
    ensures d.Valid()
    ensures var chunks, t := Chunks(cut, CHUNK_SIZE), old(d.Table());
            && (complete <==> crash.None? && ApplyChunks(d.env, t, chunks).Some?)
            && (complete ==> Some(d.Table()) == ApplyChunks(d.env, t, chunks))
            && (!complete ==> d.Table() == Sent(d.env, t, chunks, if crash.Some? then crash.value else |chunks|))
  {
    var chunks := ChunkArray(cut, CHUNK_SIZE);
    ghost var t, limit := d.Table(), if crash.Some? then crash.value else |chunks|;
    for i := 0 to |chunks|
      invariant d.Valid() && i <= limit
      invariant ApplyChunks(d.env, t, chunks) == ApplyChunks(d.env, d.Table(), chunks[i..])
      invariant Sent(d.env, t, chunks, limit) == Sent(d.env, d.Table(), chunks[i..], limit - i)
    {
      if crash.Some? && crash.value == i {
        return false;
      }
      assert chunks[i..][1..] == chunks[i + 1..];
      var ok := d.DiamondCut(chunks[i]);
      if !ok {
        return false;
      }
    }
    return crash.None?;
  }

  ghost function Among(sels: seq<Selector>, t: Table, f: Address): set<Selector> {
    set s | s in sels && FacetOf(t, s) == f
  }

  lemma AmongSnoc(init: seq<Selector>, last: Selector, t: Table, f: Address)
    requires last !in init
    ensures |Among(init + [last], t, f)| == |Among(init, t, f)| + if FacetOf(t, last) == f then 1 else 0
  {
    assert Among(init + [last], t, f) == Among(init, t, f) + if FacetOf(t, last) == f then {last} else {};
  }

  lemma {:induction false} ServedIsAmong(sels: seq<Selector>, t: Table, f: Address)
    requires Distinct(sels)
    ensures |ServedBy(sels, t, f)| == |Among(sels, t, f)|
  {
    if |sels| > 0 {
      var init, last := sels[..|sels| - 1], sels[|sels| - 1];
      ServedIsAmong(init, t, f);
      AmongSnoc(init, last, t, f);
      assert sels == init + [last];
    } else {
      assert Among(sels, t, f) == {};
    }
  }

  lemma FewIsServed(d: DiamondStorage)
    requires d.Valid()
    ensures FewPerFacet(d.Table()) <==> forall f :: |ServedBy(d.selectors, d.Table(), f)| <= 255
  {
    var t := d.Table();
    forall f
      ensures |ServedBy(d.selectors, t, f)| == |Served(t, f)|
    {
      ServedIsAmong(d.selectors, t, f);
      forall s | s in t
        ensures s in d.selectors
      {
        assert d.selectors[d.entries[s].position] == s;
      }
      assert Among(d.selectors, t, f) == Served(t, f);
    }
    if !FewPerFacet(t) {
      var f :| |Served(t, f)| > 255;
      assert |ServedBy(d.selectors, t, f)| > 255;
    }
  }

  lemma ManyFacets(d: DiamondStorage, listed: seq<Facet>)
    requires d.Valid() && FACETS in d.entries && IsGrouping(listed, d.selectors, d.Table())
    ensures |listed| > 1 <==> exists s | s in d.Table() :: d.Table()[s] != d.Table()[FACETS]
  {
    var t := d.Table();
    if |listed| > 1 {
      var k := if listed[0].facet != t[FACETS] then 0 else 1;
      var s := listed[k].selectors[0];
      ServedMembers(d.selectors, t, listed[k].facet, s);
      assert s in t && t[s] != t[FACETS];
    }
    if s :| s in t && t[s] != t[FACETS] {
      assert d.selectors[d.entries[s].position] == s && d.selectors[d.entries[FACETS].position] == FACETS;
      ServedMembers(d.selectors, t, t[s], s);
      ServedMembers(d.selectors, t, t[FACETS], FACETS);
      assert HasGroup(listed, t[s]) && HasGroup(listed, t[FACETS]);
    }
  }

  // ---- What adding facets does ----

  lemma {:induction false} AddOne(env: Env, t: Table, facet: Address, sels: seq<Selector>)
    requires ApplyEdits(env, t, Edits(FacetCut(facet, Add, sels))).Some?
    ensures var t' := ApplyEdits(env, t, Edits(FacetCut(facet, Add, sels))).value;
            && (forall s :: s in t' <==> s in t || s in sels)
            && (forall s | s in sels :: s !in t && t'[s] == facet)
            && (forall s | s in t :: t'[s] == t[s])
    decreases |sels|
  {
    if |sels| > 0 {
      assert Edits(FacetCut(facet, Add, sels))[1..] == Edits(FacetCut(facet, Add, sels[1..]));
      AddOne(env, t[sels[0] := facet], facet, sels[1..]);
      assert forall s :: s in sels <==> s == sels[0] || s in sels[1..];
    }
  }

  ghost predicate Declared(facets: seq<Facet>, s: Selector) {
    exists j :: 0 <= j < |facets| && s in facets[j].selectors
  }

  /** A table that a straight run of adds leaves. */
  ghost predicate Registers(t: Table, facets: seq<Facet>, t': Table) {
    && (forall s :: s in t' <==> s in t || Declared(facets, s))
    && (forall j, s :: 0 <= j < |facets| && s in facets[j].selectors ==> s !in t && t'[s] == facets[j].facet)
    && (forall s | s in t :: t'[s] == t[s])
    && (forall j :: 0 <= j < |facets| ==> facets[j].selectors != [])
    && (forall i, j, s :: 0 <= i < j < |facets| && s in facets[i].selectors ==> s !in facets[j].selectors)
  }

  lemma {:induction false} AddAll(env: Env, t: Table, facets: seq<Facet>)
    requires ApplyCuts(env, t, AddCuts(facets)).Some?
    ensures Registers(t, facets, ApplyCuts(env, t, AddCuts(facets)).value)
    decreases |facets|
  {
    if |facets| > 0 {
      var first, rest := facets[0], facets[1..];
      assert AddCuts(facets)[1..] == AddCuts(rest);
      AddOne(env, t, first.facet, first.selectors);
      var t1 := ApplyCut(env, t, AddCuts(facets)[0]).value;
      AddAll(env, t1, rest);
      AddFirst(t, facets, t1, ApplyCuts(env, t, AddCuts(facets)).value);
    }
  }

  lemma AddFirst(t: Table, facets: seq<Facet>, t1: Table, t2: Table)
    requires |facets| > 0 && facets[0].selectors != [] && Registers(t1, facets[1..], t2)
    requires forall s :: s in t1 <==> s in t || s in facets[0].selectors
    requires forall s | s in facets[0].selectors :: s !in t && t1[s] == facets[0].facet
    requires forall s | s in t :: t1[s] == t[s]
    ensures Registers(t, facets, t2)
  {
    var rest := facets[1..];
    assert forall j :: 1 <= j < |facets| ==> facets[j] == rest[j - 1];
    forall s
      ensures Declared(facets, s) <==> s in facets[0].selectors || Declared(rest, s)
    {
      if Declared(rest, s) {
        var j :| 0 <= j < |rest| && s in rest[j].selectors;
        assert s in facets[j + 1].selectors;
      }
    }
    forall i, j, s | 0 <= i < j < |facets| && s in facets[i].selectors
      ensures s !in facets[j].selectors
    {
      assert facets[j] == rest[j - 1];
      if i > 0 {
        assert s in rest[i - 1].selectors;
      }
    }
  }

  // ---- Crashing between chunks ----

  function Fresh(cutFacet: Address): Table {
    map[DIAMOND_CUT := cutFacet]
  }

  /**
   A deployment that a run without crashes would complete. `loupe` is the facet that serves `facets()`.
   */
  ghost predicate Deployable(env: Env, cutFacet: Address, facets: seq<Facet>, loupe: nat) {
    && ApplyChunks(env, Fresh(cutFacet), CutChunks(facets)).Some?
    && FewPerFacet(ApplyChunks(env, Fresh(cutFacet), CutChunks(facets)).value)
    && loupe < |facets| && FACETS in facets[loupe].selectors && facets[loupe].facet != cutFacet
  }

  lemma {:induction false} SplitChunks(env: Env, t: Table, chunks: seq<seq<FacetCut>>, k: nat)
    requires k <= |chunks| && ApplyChunks(env, t, chunks).Some?
    ensures ApplyChunks(env, t, chunks[..k]).Some?
    ensures ApplyChunks(env, ApplyChunks(env, t, chunks[..k]).value, chunks[k..]) == ApplyChunks(env, t, chunks)
    ensures forall n: nat | k == Least(n, |chunks|) :: Sent(env, t, chunks, n) == ApplyChunks(env, t, chunks[..k]).value
    decreases |chunks|
  {
    if k > 0 {
      assert chunks[..k][1..] == chunks[1..][..k - 1];
      SplitChunks(env, ApplyCuts(env, t, chunks[0]).value, chunks[1..], k - 1);
      assert chunks[k..] == chunks[1..][k - 1..];
    }
  }

  /** The table after `k` chunks. */
  function After(env: Env, cutFacet: Address, facets: seq<Facet>, k: nat): Table
    requires k <= |CutChunks(facets)| && ApplyChunks(env, Fresh(cutFacet), CutChunks(facets)[..k]).Some?
  {
    ApplyChunks(env, Fresh(cutFacet), CutChunks(facets)[..k]).value
  }

  /** After `k` chunks exactly the first `6 * k` facets are registered. */
  lemma AfterRegisters(env: Env, cutFacet: Address, facets: seq<Facet>, k: nat)
    requires k <= |CutChunks(facets)| && ApplyChunks(env, Fresh(cutFacet), CutChunks(facets)).Some?
    ensures ApplyChunks(env, Fresh(cutFacet), CutChunks(facets)[..k]).Some?
    ensures Registers(Fresh(cutFacet), facets[..Least(k * CHUNK_SIZE, |facets|)], After(env, cutFacet, facets, k))
  {
    var m := Least(k * CHUNK_SIZE, |facets|);
    SplitChunks(env, Fresh(cutFacet), CutChunks(facets), k);
    ChunkPrefix(AddCuts(facets), CHUNK_SIZE, k);
    assert AddCuts(facets)[..m] == AddCuts(facets[..m]);
    ChunksAreCuts(env, Fresh(cutFacet), CutChunks(facets)[..k]);
    AddAll(env, Fresh(cutFacet), facets[..m]);
  }

  lemma FewerPerFacet(t: Table, t': Table)
    requires FewPerFacet(t') && forall s | s in t :: s in t' && t'[s] == t[s]
    ensures FewPerFacet(t)
  {
    forall f
      ensures |Served(t, f)| <= 255
    {
      assert Served(t, f) <= Served(t', f);
      CardinalitySubset(Served(t, f), Served(t', f));
    }
  }

  /** The resume test asks no more than whether the chunk with the loupe has been applied. */
  lemma LooksDoneIff(env: Env, cutFacet: Address, facets: seq<Facet>, loupe: nat, k: nat)
    requires Deployable(env, cutFacet, facets, loupe) && k <= |CutChunks(facets)|
    ensures ApplyChunks(env, Fresh(cutFacet), CutChunks(facets)[..k]).Some?
    ensures LooksDone(After(env, cutFacet, facets, k)) <==> loupe < k * CHUNK_SIZE
  {
    var n := |CutChunks(facets)|;
    var m := Least(k * CHUNK_SIZE, |facets|);
    AfterRegisters(env, cutFacet, facets, k);
    AfterRegisters(env, cutFacet, facets, n);
    ChunkPrefix(AddCuts(facets), CHUNK_SIZE, n);
    assert CutChunks(facets)[..n] == CutChunks(facets) && facets[..|facets|] == facets;
    var t, full := After(env, cutFacet, facets, k), After(env, cutFacet, facets, n);
    assert Registers(Fresh(cutFacet), facets, full);
    Included(Fresh(cutFacet), facets, m, t, full);
    FewerPerFacet(t, full);
    if loupe < m {
      assert FACETS in facets[..m][loupe].selectors;
      assert DIAMOND_CUT in t && t[DIAMOND_CUT] == cutFacet && t[FACETS] == facets[loupe].facet;
    } else {
      assert !Declared(facets[..m], FACETS) by {
        forall j | 0 <= j < m
          ensures FACETS !in facets[..m][j].selectors
        {
          assert facets[..m][j] == facets[j];
        }
      }
    }
  }

  lemma Included(t0: Table, facets: seq<Facet>, m: nat, t: Table, full: Table)
    requires m <= |facets| && Registers(t0, facets[..m], t) && Registers(t0, facets, full)
    ensures forall s | s in t :: s in full && full[s] == t[s]
  {
    forall s | s in t
      ensures s in full && full[s] == t[s]
    {
      if s !in t0 {
        var j :| 0 <= j < m && s in facets[..m][j].selectors;
        assert s in facets[j].selectors;
      }
    }
  }

  /** Once a chunk is applied the first one can never be applied again. */
  lemma FirstChunkReverts(env: Env, cutFacet: Address, facets: seq<Facet>, k: nat)
    requires ApplyChunks(env, Fresh(cutFacet), CutChunks(facets)).Some? && 0 < k <= |CutChunks(facets)|
    ensures ApplyChunks(env, Fresh(cutFacet), CutChunks(facets)[..k]).Some?
    ensures ApplyCuts(env, After(env, cutFacet, facets, k), CutChunks(facets)[0]).None?
  {
    AfterRegisters(env, cutFacet, facets, k);
    ChunkSizes(AddCuts(facets), CHUNK_SIZE);
    ChunkPrefix(AddCuts(facets), CHUNK_SIZE, 0);
    var t, m := After(env, cutFacet, facets, k), Least(k * CHUNK_SIZE, |facets|);
    var first := CutChunks(facets)[0][0];
    assert first == FacetCut(facets[0].facet, Add, facets[0].selectors);
    assert facets[..m][0] == facets[0] && facets[0].selectors[0] in facets[..m][0].selectors;
    assert Edits(first)[0].selector in t;
  }

  /** Fewer chunks are a smaller table. */
  lemma NotYetFull(env: Env, cutFacet: Address, facets: seq<Facet>, k: nat)
    requires ApplyChunks(env, Fresh(cutFacet), CutChunks(facets)).Some? && k < |CutChunks(facets)|
    ensures ApplyChunks(env, Fresh(cutFacet), CutChunks(facets)[..k]).Some?
    ensures ApplyChunks(env, Fresh(cutFacet), CutChunks(facets)) != Some(After(env, cutFacet, facets, k))
  {
    var n, m := |CutChunks(facets)|, k * CHUNK_SIZE;
    AfterRegisters(env, cutFacet, facets, k);
    AfterRegisters(env, cutFacet, facets, n);
    ChunkPrefix(AddCuts(facets), CHUNK_SIZE, k);
    ChunkPrefix(AddCuts(facets), CHUNK_SIZE, n);
    assert CutChunks(facets)[..n] == CutChunks(facets) && facets[..|facets|] == facets;
    var s := facets[m].selectors[0];
    assert s in facets[m].selectors && s in After(env, cutFacet, facets, n);
    assert !Declared(facets[..m], s) by {
      forall j | 0 <= j < m
        ensures s !in facets[..m][j].selectors
      {
        assert facets[..m][j] == facets[j];
      }
    }
  }

  /**
   What resuming does where a crash left `k` of the chunks: from zero it deploys the rest, past the loupe's
   chunk it reports completion without touching anything, and in between it reverts at once and changes nothing.
   */
  lemma ResumeOutcome(env: Env, cutFacet: Address, facets: seq<Facet>, loupe: nat, k: nat, crash: Option<nat>)
    requires Deployable(env, cutFacet, facets, loupe) && k <= |CutChunks(facets)|
    ensures ApplyChunks(env, Fresh(cutFacet), CutChunks(facets)[..k]).Some?
    ensures var t := After(env, cutFacet, facets, k);
            var full := ApplyChunks(env, Fresh(cutFacet), CutChunks(facets)).value;
            var (s, complete) := Attempt(env, Site(t, false), facets, crash);
            && (loupe < k * CHUNK_SIZE ==> s == Site(t, true) && complete)
            && (k > 0 && loupe >= k * CHUNK_SIZE ==> s == Site(t, false) && !complete)
            && (k == 0 && crash.None? ==> s == Site(full, true) && complete)
            && (k == 0 && crash.Some? ==>
                  var j := Least(crash.value, |CutChunks(facets)|);
                  && ApplyChunks(env, Fresh(cutFacet), CutChunks(facets)[..j]).Some?
                  && s == Site(After(env, cutFacet, facets, j), false) && !complete)
  {
    LooksDoneIff(env, cutFacet, facets, loupe, k);
    var chunks := CutChunks(facets);
    if k > 0 {
      FirstChunkReverts(env, cutFacet, facets, k);
    } else {
      assert After(env, cutFacet, facets, 0) == Fresh(cutFacet);
      if crash.Some? {
        SplitChunks(env, Fresh(cutFacet), chunks, Least(crash.value, |chunks|));
      }
    }
  }

  /**
   Resuming reaches the finished diamond and says so exactly when the crash left no chunk or all chunks
   applied, whatever the number of facets and wherever the loupe stands among them.
   */
  lemma ResumeCompletesIff(env: Env, cutFacet: Address, facets: seq<Facet>, loupe: nat, k: nat)
    requires Deployable(env, cutFacet, facets, loupe) && k <= |CutChunks(facets)|
    ensures ApplyChunks(env, Fresh(cutFacet), CutChunks(facets)[..k]).Some?
    ensures var full := ApplyChunks(env, Fresh(cutFacet), CutChunks(facets)).value;
            Attempt(env, Site(After(env, cutFacet, facets, k), false), facets, None) == (Site(full, true), true)
            <==> k == 0 || k == |CutChunks(facets)|
  {
    ResumeOutcome(env, cutFacet, facets, loupe, k, None);
    if k < |CutChunks(facets)| {
      NotYetFull(env, cutFacet, facets, k);
    } else {
      ChunkPrefix(AddCuts(facets), CHUNK_SIZE, k);
      assert CutChunks(facets)[..k] == CutChunks(facets);
    }
  }

  ghost function Attempts(env: Env, s: Site, facets: seq<Facet>, crashes: seq<Option<nat>>): Site {
    if |crashes| == 0 then s
    else Attempt(env, Attempts(env, s, facets, crashes[..|crashes| - 1]), facets, crashes[|crashes| - 1]).0
  }

  /** However often the deployment crashes and restarts, the diamond stays at some number of whole chunks. */
  lemma {:induction false} AttemptsReach(env: Env, cutFacet: Address, facets: seq<Facet>, loupe: nat,
                                         crashes: seq<Option<nat>>)
      returns (k: nat)
    requires Deployable(env, cutFacet, facets, loupe)
    ensures k <= |CutChunks(facets)| && ApplyChunks(env, Fresh(cutFacet), CutChunks(facets)[..k]).Some?
    ensures Attempts(env, Site(Fresh(cutFacet), false), facets, crashes).table == After(env, cutFacet, facets, k)
  {
    if |crashes| == 0 {
      k := 0;
    } else {
      k := AttemptsReach(env, cutFacet, facets, loupe, crashes[..|crashes| - 1]);
      var crash := crashes[|crashes| - 1];
      ResumeOutcome(env, cutFacet, facets, loupe, k, crash);
      var before := Attempts(env, Site(Fresh(cutFacet), false), facets, crashes[..|crashes| - 1]);
      if !before.cutComplete && k == 0 {
        k := if crash.Some? then Least(crash.value, |CutChunks(facets)|) else |CutChunks(facets)|;
        assert CutChunks(facets)[..|CutChunks(facets)|] == CutChunks(facets);
      }
    }
  }

  /**
   The core diamond: 28 facets with the loupe in tenth place make five chunks. A crash after the first
   leaves a diamond that no restart can finish; one after the second, third or fourth leaves an
   unfinished diamond that the restart reports as complete.
   */
  lemma CoreDiamondResume(env: Env, cutFacet: Address, facets: seq<Facet>, k: nat, crash: Option<nat>)
    requires Deployable(env, cutFacet, facets, 9) && |facets| == 28 && 0 < k < 5
    ensures |CutChunks(facets)| == 5 && ApplyChunks(env, Fresh(cutFacet), CutChunks(facets)[..k]).Some?
    ensures var t := After(env, cutFacet, facets, k);
            && ApplyChunks(env, Fresh(cutFacet), CutChunks(facets)) != Some(t)
            && Attempt(env, Site(t, false), facets, crash) == (Site(t, k > 1), k > 1)
  {
    assert |CutChunks(facets)| == 5 by {
      ChunkPrefix(AddCuts(facets), CHUNK_SIZE, |CutChunks(facets)|);
      if |CutChunks(facets)| > 5 {
        ChunkPrefix(AddCuts(facets), CHUNK_SIZE, 5);
      }
    }
    ResumeOutcome(env, cutFacet, facets, 9, k, crash);
    NotYetFull(env, cutFacet, facets, k);
  }
}
