/** Masking immutables before linking, and what the masked comparison decides. */
module Immutables {
  import opened Collections
  import opened Bytecode

  /** A range of hex digits, twice an artifact's byte range. */
  datatype Range = Range(start: nat, length: nat) {
    function End(): nat { start + length }
  }

  /** An immutable variable and the ranges that hold copies of it. */
  datatype Immutable = Immutable(id: string, ranges: seq<Range>)

  function AllRanges(immutables: seq<Immutable>): seq<Range> {
    Flatten(seq(|immutables|, i requires 0 <= i < |immutables| => immutables[i].ranges))
  }

  function Zeros(n: nat): string {
    seq(n, _ => '0')
  }

  /** A slice as JavaScript takes it: bounds beyond the end mean the end. */
  function Slice(s: string, from: nat, to: nat): string {
    var low := if from < |s| then from else |s|;
    var high := if to < |s| then to else |s|;
    if low <= high then s[low..high] else ""
  }

  function MaskOne(s: string, r: Range): string {
    Slice(s, 0, r.start) + Zeros(r.length) + Slice(s, r.End(), |s|)
  }

  function Mask(s: string, ranges: seq<Range>): string {
    if |ranges| == 0 then s else MaskOne(Mask(s, ranges[..|ranges| - 1]), ranges[|ranges| - 1])
  }

  lemma {:induction false} MaskConcat(s: string, a: seq<Range>, b: seq<Range>)
    ensures Mask(s, a + b) == Mask(Mask(s, a), b)
  {
    if |b| == 0 {
      assert a + b == a;
    } else {
      MaskConcat(s, a, b[..|b| - 1]);
      assert (a + b)[..|a + b| - 1] == a + b[..|b| - 1];
    }
  }

  method MaskRanges(compiledHex: string, deployedHex: string, ranges: seq<Range>)
      returns (maskedCompiled: string, maskedDeployed: string)
    ensures maskedCompiled == Mask(compiledHex, ranges) && maskedDeployed == Mask(deployedHex, ranges)
  {
    maskedCompiled, maskedDeployed := compiledHex, deployedHex;
    for j := 0 to |ranges|
      invariant maskedCompiled == Mask(compiledHex, ranges[..j])
      invariant maskedDeployed == Mask(deployedHex, ranges[..j])
    {
      assert ranges[..j + 1][..j] == ranges[..j];
      var start, end, zeros := ranges[j].start, ranges[j].End(), Zeros(ranges[j].length);
      maskedCompiled := Slice(maskedCompiled, 0, start) + zeros + Slice(maskedCompiled, end, |maskedCompiled|);
      maskedDeployed := Slice(maskedDeployed, 0, start) + zeros + Slice(maskedDeployed, end, |maskedDeployed|);
    }
    assert ranges[..|ranges|] == ranges;
  }

  method MaskImmutables(compiledHex: string, deployedHex: string, immutables: seq<Immutable>)
      returns (maskedCompiled: string, maskedDeployed: string)
    ensures maskedCompiled == Mask(compiledHex, AllRanges(immutables))
    ensures maskedDeployed == Mask(deployedHex, AllRanges(immutables))
  {
    maskedCompiled, maskedDeployed := compiledHex, deployedHex;
    for i := 0 to |immutables|
      invariant maskedCompiled == Mask(compiledHex, AllRanges(immutables[..i]))
      invariant maskedDeployed == Mask(deployedHex, AllRanges(immutables[..i]))
    {
      maskedCompiled, maskedDeployed := MaskRanges(maskedCompiled, maskedDeployed, immutables[i].ranges);
      MaskConcat(compiledHex, AllRanges(immutables[..i]), immutables[i].ranges);
      MaskConcat(deployedHex, AllRanges(immutables[..i]), immutables[i].ranges);
      MoreRanges(immutables, i);
    }
    assert immutables[..|immutables|] == immutables;
  }

  lemma MoreRanges(immutables: seq<Immutable>, i: nat)
    requires i < |immutables|
    ensures AllRanges(immutables[..i + 1]) == AllRanges(immutables[..i]) + immutables[i].ranges
  {
    var before := seq(i, k requires 0 <= k < i => immutables[..i][k].ranges);
    var after := seq(i + 1, k requires 0 <= k < i + 1 => immutables[..i + 1][k].ranges);
    assert after == before + [immutables[i].ranges];
    FlattenConcat(before, [immutables[i].ranges]);
    assert [immutables[i].ranges][1..] == [];
  }

  // ---- What masking hides ----

  ghost predicate Fit(s: string, ranges: seq<Range>) {
    forall r | r in ranges :: r.End() <= |s|
  }

  ghost predicate Hidden(ranges: seq<Range>, k: int) {
    exists r | r in ranges :: r.start <= k < r.End()
  }

  lemma MaskOnePointwise(s: string, r: Range)
    requires r.End() <= |s|
    ensures |MaskOne(s, r)| == |s|
    ensures forall k :: 0 <= k < |s| ==> MaskOne(s, r)[k] == if r.start <= k < r.End() then '0' else s[k]
  {
  }

  /** In any order, overlapping or not, the ranges become zeros and everything else stays in place. */
  lemma {:induction false} MaskPointwise(s: string, ranges: seq<Range>)
    requires Fit(s, ranges)
    ensures |Mask(s, ranges)| == |s|
    ensures forall k :: 0 <= k < |s| ==> Mask(s, ranges)[k] == if Hidden(ranges, k) then '0' else s[k]
  {
    if |ranges| > 0 {
      var init, last := ranges[..|ranges| - 1], ranges[|ranges| - 1];
      assert last in ranges;
      MaskPointwise(s, init);
      MaskOnePointwise(Mask(s, init), last);
      forall k | 0 <= k < |s|
        ensures Mask(s, ranges)[k] == if Hidden(ranges, k) then '0' else s[k]
      {
        HiddenByLast(ranges, k);
      }
    }
  }

  lemma HiddenByLast(ranges: seq<Range>, k: int)
    requires |ranges| > 0
    ensures Hidden(ranges, k) <==>
            Hidden(ranges[..|ranges| - 1], k) || ranges[|ranges| - 1].start <= k < ranges[|ranges| - 1].End()
  {
    assert ranges == ranges[..|ranges| - 1] + [ranges[|ranges| - 1]];
    assert ranges[|ranges| - 1] in ranges;
  }

  ghost predicate EqualOutside(a: string, b: string, ranges: seq<Range>) {
    |a| == |b| && forall k :: 0 <= k < |a| && !Hidden(ranges, k) ==> a[k] == b[k]
  }

  lemma MaskedEqualIff(a: string, b: string, ranges: seq<Range>)
    requires Fit(a, ranges) && Fit(b, ranges)
    ensures Mask(a, ranges) == Mask(b, ranges) <==> EqualOutside(a, b, ranges)
  {
    MaskPointwise(a, ranges);
    MaskPointwise(b, ranges);
    if Mask(a, ranges) == Mask(b, ranges) {
      forall k | 0 <= k < |a| && !Hidden(ranges, k)
        ensures a[k] == b[k]
      {
        assert Mask(a, ranges)[k] == Mask(b, ranges)[k];
      }
    }
  }

  // ---- Masking and linking ----

  /** Compilers reserve zeros for immutables: the ranges hold hex digits and touch no placeholder. */
  ghost predicate Maskable(s: string, ranges: seq<Range>) {
    && Fit(s, ranges)
    && (forall k :: 0 <= k < |s| && Hidden(ranges, k) ==> IsHexDigit(s[k]))
    && (forall i, k :: OccursAt(s, i) && i <= k < i + SLOT ==> !Hidden(ranges, k))
  }

  lemma MaskKeepsPlaceholders(s: string, ranges: seq<Range>)
    requires Maskable(s, ranges)
    ensures |Mask(s, ranges)| == |s|
    ensures forall i :: OccursAt(s, i) <==> OccursAt(Mask(s, ranges), i)
    ensures forall i :: OccursAt(s, i) ==> HashAt(Mask(s, ranges), i) == HashAt(s, i)
  {
    MaskPointwise(s, ranges);
    var masked := Mask(s, ranges);
    forall i | OccursAt(s, i)
      ensures OccursAt(masked, i) && HashAt(masked, i) == HashAt(s, i)
    {
      assert forall k :: i <= k < i + SLOT ==> masked[k] == s[k];
    }
    forall i | OccursAt(masked, i)
      ensures OccursAt(s, i)
    {
      forall k | i <= k < i + SLOT
        ensures Fits(s[k], k - i)
      {
        assert Fits(masked[k], k - i);
      }
    }
  }

  /** Texts with the same placeholders are scanned and linked alike. */
  ghost predicate SamePlaceholders(s: string, t: string) {
    && |s| == |t|
    && (forall i :: OccursAt(s, i) <==> OccursAt(t, i))
    && (forall i :: OccursAt(s, i) ==> HashAt(t, i) == HashAt(s, i))
  }

  lemma {:induction false} SameScan(s: string, t: string, from: nat)
    requires SamePlaceholders(s, t)
    ensures Scan(s, from) == Scan(t, from)
    decreases |s| - from
  {
    if from + SLOT <= |s| {
      SameScan(s, t, if OccursAt(s, from) then from + SLOT else from + 1);
    }
  }

  lemma {:induction false} SameSlots(s: string, t: string, from: nat, m: Assignment)
    requires SamePlaceholders(s, t) && from <= |s|
    ensures Slots(s, from, m) == Slots(t, from, m)
    decreases |s| - from
  {
    if from < |s| {
      SameSlots(s, t, if Assigned(s, from, m) then from + SLOT else from + 1, m);
    }
  }

  /** Linking the masked code is masking the linked code. */
  lemma MaskAndLinkCommute(s: string, ranges: seq<Range>, m: Assignment)
    requires Maskable(s, ranges) && AreAddresses(m)
    ensures |Link(s, m)| == |s| && Link(Mask(s, ranges), m) == Mask(Link(s, m), ranges)
  {
    var masked, linked, slots := Mask(s, ranges), Link(s, m), Slots(s, 0, m);
    MaskKeepsPlaceholders(s, ranges);
    SameSlots(s, masked, 0, m);
    SubstituteFills(s, 0, m);
    SubstituteFills(masked, 0, m);
    assert s[..0] + Substitute(s, 0, m) == linked;
    assert masked[..0] + Substitute(masked, 0, m) == Link(masked, m);
    MaskPointwise(s, ranges);
    MaskPointwise(linked, ranges);
    forall k | 0 <= k < |s|
      ensures Link(masked, m)[k] == Mask(linked, ranges)[k]
    {
      MaskAndLinkAt(s, masked, linked, Link(masked, m), slots, ranges, m, k);
    }
  }

  lemma MaskAndLinkAt(s: string, masked: string, linked: string, t: string, slots: set<nat>, ranges: seq<Range>,
                      m: Assignment, k: nat)
    requires Maskable(s, ranges) && SamePlaceholders(s, masked) && k < |s|
    requires Filled(s, linked, slots, m) && Filled(masked, t, slots, m)
    requires masked[k] == if Hidden(ranges, k) then '0' else s[k]
    ensures t[k] == if Hidden(ranges, k) then '0' else linked[k]
  {
    if InSlot(slots, k) {
      var i :| i in slots && i <= k < i + SLOT;
      assert t[k] == t[i..i + SLOT][k - i] && linked[k] == linked[i..i + SLOT][k - i];
      assert OccursAt(s, i);
    }
  }

  /** The codes agree up to immutables and library addresses. */
  ghost predicate EqualUpTo(compiled: string, deployed: string, ranges: seq<Range>) {
    exists m: Assignment :: Covers(m, Scan(compiled, 0)) && EqualOutside(Link(compiled, m), deployed, ranges)
  }

  lemma MaskedLinkable(compiled: string, deployed: string, ranges: seq<Range>)
    requires Maskable(compiled, ranges) && Fit(deployed, ranges)
    ensures Linkable(Mask(compiled, ranges), Mask(deployed, ranges)) <==> EqualUpTo(compiled, deployed, ranges)
  {
    MaskKeepsPlaceholders(compiled, ranges);
    SameScan(compiled, Mask(compiled, ranges), 0);
    forall m | Covers(m, Scan(compiled, 0))
      ensures Link(Mask(compiled, ranges), m) == Mask(deployed, ranges)
              <==> EqualOutside(Link(compiled, m), deployed, ranges)
    {
      MaskAndLinkCommute(compiled, ranges, m);
      MaskedEqualIff(Link(compiled, m), deployed, ranges);
    }
  }

  // ---- The verifier's decision ----

  datatype Verdict = Exact | Linked(libs: JsMap<string, string>) | NoLibraries(at: nat) | NotLinked(result: LinkResult)

  predicate Accepted(v: Verdict) {
    v.Exact? || v.Linked?
  }

  /** Comparing one contract: mask, compare, and link what is left to explain. */
  method VerifyContract(compiled: string, deployed: string, immutables: seq<Immutable>) returns (verdict: Verdict)
    requires IsHex(deployed) && Maskable(compiled, AllRanges(immutables))
    ensures verdict.Exact? <==> Mask(compiled, AllRanges(immutables)) == Mask(deployed, AllRanges(immutables))
    ensures Accepted(verdict) <==>
            Linkable(Mask(compiled, AllRanges(immutables)), Mask(deployed, AllRanges(immutables)))
    ensures Fit(deployed, AllRanges(immutables)) ==>
              (Accepted(verdict) <==> EqualUpTo(compiled, deployed, AllRanges(immutables)))
    ensures !Fit(deployed, AllRanges(immutables)) ==> !EqualUpTo(compiled, deployed, AllRanges(immutables))
    ensures NoneAtEnd(compiled, AllRanges(immutables)) ==>
              (Accepted(verdict) <==> EqualUpTo(compiled, deployed, AllRanges(immutables)))
  {
    ghost var ranges := AllRanges(immutables);
    var maskedCompiled, maskedDeployed := MaskImmutables(compiled, deployed, immutables);
    MaskIsHex(deployed, ranges);
    MaskKeepsPlaceholders(compiled, ranges);
    SameScan(compiled, maskedCompiled, 0);
    if Fit(deployed, ranges) {
      MaskedLinkable(compiled, deployed, ranges);
    } else {
      ShorterIsNeverEqual(compiled, deployed, ranges);
      if NoneAtEnd(compiled, ranges) {
        ShorterIsNotLinkable(compiled, deployed, ranges);
      }
    }
    if maskedCompiled == maskedDeployed {
      HexIsLinked(maskedCompiled);
      return Exact;
    }
    var placeholders := ExtractPlaceholders(compiled);
    if |placeholders| == 0 {
      NothingToLink(maskedCompiled, maskedDeployed);
      var at := CommonPrefix(maskedCompiled, maskedDeployed);
      return NoLibraries(at);
    }
    var result := LinkAndCompare(maskedCompiled, maskedDeployed, placeholders);
    return if result.Match? then Linked(result.libs) else NotLinked(result);
  }

  method CommonPrefix(a: string, b: string) returns (at: nat)
    ensures at <= |a| && at <= |b| && a[..at] == b[..at]
    ensures at < |a| && at < |b| ==> a[at] != b[at]
  {
    var minLen := if |a| < |b| then |a| else |b|;
    for i := 0 to minLen
      invariant a[..i] == b[..i]
    {
      if a[i] != b[i] {
        return i;
      }
    }
    return minLen;
  }

  lemma {:induction false} MaskIsHex(s: string, ranges: seq<Range>)
    requires IsHex(s)
    ensures IsHex(Mask(s, ranges))
  {
    if |ranges| > 0 {
      MaskIsHex(s, ranges[..|ranges| - 1]);
    }
  }

  lemma {:induction false} HexIsUnlinked(s: string, from: nat, m: Assignment)
    requires from <= |s| && forall i :: !Assigned(s, i, m)
    ensures Substitute(s, from, m) == s[from..]
    decreases |s| - from
  {
    if from < |s| {
      HexIsUnlinked(s, from + 1, m);
    }
  }

  lemma HexIsLinked(s: string)
    requires IsHex(s)
    ensures Linkable(s, s)
  {
    var none: Assignment := map[];
    assert Scan(s, 0) == [] || Scan(s, 0)[0] in Scan(s, 0);
    AllFilledMeansNoOverlap(s, s, {}, none);
    ScanFinds(s, 0);
    HexIsUnlinked(s, 0, none);
    assert Covers(none, Scan(s, 0)) && Link(s, none) == s;
  }

  lemma NothingToLink(compiled: string, deployed: string)
    requires IsHex(deployed) && Scan(compiled, 0) == []
    ensures Linkable(compiled, deployed) ==> compiled == deployed
  {
    if Linkable(compiled, deployed) {
      var m :| Covers(m, Scan(compiled, 0)) && Link(compiled, m) == deployed;
      LinkedSlots(compiled, deployed, m);
      ScanFinds(compiled, 0);
      HexIsUnlinked(compiled, 0, m);
    }
  }

  // ---- Where it goes wrong ----

  /**
   Deployed code that ends where a final immutable starts is padded by the masking, so that this
   truncation of the compiled code passes for an exact match whatever the code is.
   */
  lemma TruncatedCodePassesForExact(compiled: string, last: Range)
    requires last.length > 0 && last.End() == |compiled|
    ensures Mask(compiled, [last]) == Mask(compiled[..last.start], [last])
    ensures !EqualUpTo(compiled, compiled[..last.start], [last])
  {
    var truncated := compiled[..last.start];
    assert [last][..0] == [];
    assert MaskOne(compiled, last) == truncated + Zeros(last.length) == MaskOne(truncated, last);
    ShorterIsNeverEqual(compiled, truncated, [last]);
  }

  /** No immutable lies at the very end of the code; compilers put metadata there. */
  ghost predicate NoneAtEnd(s: string, ranges: seq<Range>) {
    forall r | r in ranges && r.length > 0 :: r.End() != |s|
  }

  lemma MaskOneLength(s: string, r: Range)
    ensures |MaskOne(s, r)| ==
            if r.End() <= |s| then |s| else if r.start <= |s| then r.End() else |s| + r.length
  {
  }

  /** Padding never reaches an end that no range reaches. */
  lemma {:induction false} StaysShorter(s: string, ranges: seq<Range>, n: nat)
    requires |s| < n && forall r | r in ranges :: r.End() < n || r.length == 0
    ensures |Mask(s, ranges)| < n
  {
    if |ranges| > 0 {
      var init, last := ranges[..|ranges| - 1], ranges[|ranges| - 1];
      assert last in ranges;
      StaysShorter(s, init, n);
      MaskOneLength(Mask(s, init), last);
    }
  }

  lemma ShorterIsNotLinkable(compiled: string, deployed: string, ranges: seq<Range>)
    requires Maskable(compiled, ranges) && NoneAtEnd(compiled, ranges) && !Fit(deployed, ranges)
    ensures !Linkable(Mask(compiled, ranges), Mask(deployed, ranges))
  {
    var masked := Mask(compiled, ranges);
    MaskPointwise(compiled, ranges);
    StaysShorter(deployed, ranges, |compiled|);
    forall m: Assignment | AreAddresses(m)
      ensures |Link(masked, m)| == |masked|
    {
      SubstituteFills(masked, 0, m);
    }
  }

  /** Without its last digit the code masks to the same as with it, once a range reaches the end. */
  lemma {:induction false} LastDigitDoesNotMatter(s: string, ranges: seq<Range>)
    requires |s| > 0 && Fit(s, ranges)
    ensures |Mask(s, ranges)| == |s|
    ensures SameButLast(Mask(s[..|s| - 1], ranges), Mask(s, ranges), NoneAtEnd(s, ranges))
  {
    MaskPointwise(s, ranges);
    if |ranges| > 0 {
      var init, last := ranges[..|ranges| - 1], ranges[|ranges| - 1];
      FitsInit(s, ranges);
      LastDigitDoesNotMatter(s, init);
      NoneAtEndSnoc(s, ranges);
      MaskOneSameButLast(Mask(s[..|s| - 1], init), Mask(s, init), NoneAtEnd(s, init), last);
    }
  }

  /** `short` is `full` without its last digit, or all of it. */
  predicate SameButLast(short: string, full: string, without: bool) {
    |full| > 0 && short == if without then full[..|full| - 1] else full
  }

  lemma FitsInit(s: string, ranges: seq<Range>)
    requires |ranges| > 0 && Fit(s, ranges)
    ensures Fit(s, ranges[..|ranges| - 1]) && ranges[|ranges| - 1].End() <= |s|
  {
    assert ranges[|ranges| - 1] in ranges;
  }

  lemma NoneAtEndSnoc(s: string, ranges: seq<Range>)
    requires |ranges| > 0
    ensures var last := ranges[|ranges| - 1];
            NoneAtEnd(s, ranges) <==>
            NoneAtEnd(s, ranges[..|ranges| - 1]) && !(last.length > 0 && last.End() == |s|)
  {
    assert ranges == ranges[..|ranges| - 1] + [ranges[|ranges| - 1]];
    assert ranges[|ranges| - 1] in ranges;
  }

  lemma MaskOneSameButLast(short: string, full: string, without: bool, r: Range)
    requires SameButLast(short, full, without) && r.End() <= |full|
    ensures SameButLast(MaskOne(short, r), MaskOne(full, r), without && !(r.length > 0 && r.End() == |full|))
  {
    MaskOneLength(full, r);
    if without {
      if r.length > 0 && r.End() == |full| {
        EndIsPadded(full, r);
      } else {
        ShorterMasksAlike(full, r);
      }
    }
  }

  lemma EndIsPadded(s: string, r: Range)
    requires r.length > 0 && r.End() == |s|
    ensures MaskOne(s[..|s| - 1], r) == MaskOne(s, r)
  {
  }

  lemma ShorterMasksAlike(s: string, r: Range)
    requires |s| > 0 && r.End() <= |s| && (r.length > 0 ==> r.End() < |s|)
    ensures MaskOne(s[..|s| - 1], r) == MaskOne(s, r)[..|s| - 1]
  {
    var n := |s| - 1;
    if r.End() < |s| {
      MaskInside(s, r);
      MaskInside(s[..n], r);
      assert s[..n][..r.start] == s[..r.start] && s[..n][r.End()..] == s[r.End()..][..|s[r.End()..]| - 1];
      DropLast(s[..r.start] + Zeros(r.length), s[r.End()..]);
    } else {
      MaskNothing(s, r);
      MaskNothing(s[..n], r);
    }
  }

  lemma MaskInside(s: string, r: Range)
    requires r.End() <= |s|
    ensures MaskOne(s, r) == s[..r.start] + Zeros(r.length) + s[r.End()..]
  {
  }

  lemma MaskNothing(s: string, r: Range)
    requires r.length == 0
    ensures MaskOne(s, r) == s
  {
    assert r.start < |s| ==> s == s[..r.start] + s[r.start..];
  }

  lemma DropLast<T>(a: seq<T>, b: seq<T>)
    requires |b| > 0
    ensures (a + b)[..|a + b| - 1] == a + b[..|b| - 1]
  {
  }

  /** What acceptance of a masked comparison is to mean, for all deployed codes. */
  ghost predicate DecidesEquality(compiled: string, ranges: seq<Range>) {
    forall d | IsHex(d) :: Linkable(Mask(compiled, ranges), Mask(d, ranges)) <==> EqualUpTo(compiled, d, ranges)
  }

  /**
   The exact condition, for code that was ever deployed: the masked comparison accepts the equal codes and no
   others if and only if no immutable lies at the very end.
   */
  lemma DecidesEqualityIff(compiled: string, ranges: seq<Range>, deployed: string)
    requires Maskable(compiled, ranges) && IsHex(deployed) && EqualUpTo(compiled, deployed, ranges)
    ensures DecidesEquality(compiled, ranges) <==> NoneAtEnd(compiled, ranges)
  {
    if NoneAtEnd(compiled, ranges) {
      forall d | IsHex(d)
        ensures Linkable(Mask(compiled, ranges), Mask(d, ranges)) <==> EqualUpTo(compiled, d, ranges)
      {
        if Fit(d, ranges) {
          MaskedLinkable(compiled, d, ranges);
        } else {
          ShorterIsNeverEqual(compiled, d, ranges);
          ShorterIsNotLinkable(compiled, d, ranges);
        }
      }
    } else {
      TruncatedIsAccepted(compiled, ranges, deployed);
    }
  }

  lemma TruncatedIsAccepted(compiled: string, ranges: seq<Range>, deployed: string)
    requires Maskable(compiled, ranges) && IsHex(deployed) && EqualUpTo(compiled, deployed, ranges)
    requires !NoneAtEnd(compiled, ranges)
    ensures |deployed| == |compiled| > 0
    ensures var d := deployed[..|deployed| - 1];
            IsHex(d) && Linkable(Mask(compiled, ranges), Mask(d, ranges)) && !EqualUpTo(compiled, d, ranges)
  {
    if |deployed| != |compiled| {
      ShorterIsNeverEqual(compiled, deployed, ranges);
    }
    MaskedLinkable(compiled, deployed, ranges);
    LastDigitDoesNotMatter(deployed, ranges);
    ShorterIsNeverEqual(compiled, deployed[..|deployed| - 1], ranges);
  }

  lemma ShorterIsNeverEqual(compiled: string, deployed: string, ranges: seq<Range>)
    requires |deployed| != |compiled|
    ensures !EqualUpTo(compiled, deployed, ranges)
  {
    forall m: Assignment | AreAddresses(m)
      ensures |Link(compiled, m)| == |compiled|
    {
      SubstituteFills(compiled, 0, m);
    }
  }
}
