/** Linking: is deployed code the compiled code with some address in every library's slots? */
module Bytecode {
  import opened Collections

  /** The length of an address in hex digits, and of "__$", 34 hex digits and "$__". */
  const SLOT := 40

  predicate IsHexDigit(c: char) {
    '0' <= c <= '9' || 'a' <= c <= 'f'
  }

  predicate IsHex(s: string) {
    forall k :: 0 <= k < |s| ==> IsHexDigit(s[k])
  }

  /** The character a placeholder may have at an offset: underscores and dollars around 34 hex digits. */
  predicate Fits(c: char, offset: int) {
    if offset < 2 || offset > 37 then c == '_'
    else if offset == 2 || offset == 37 then c == '$'
    else IsHexDigit(c)
  }

  predicate OccursAt(s: string, i: int) {
    0 <= i && i + SLOT <= |s| && forall k :: i <= k < i + SLOT ==> Fits(s[k], k - i)
  }

  function HashAt(s: string, i: int): string
    requires OccursAt(s, i)
  {
    s[i + 3..i + 37]
  }

  datatype Placeholder = Placeholder(hash: string, offset: nat)

  /** The leftmost matches that do not overlap, as a global regular expression finds them. */
  function Scan(s: string, from: nat): seq<Placeholder>
    decreases |s| - from
  {
    if from + SLOT > |s| then []
    else if OccursAt(s, from) then [Placeholder(HashAt(s, from), from)] + Scan(s, from + SLOT)
    else Scan(s, from + 1)
  }

  /** Library addresses by the hash of the library's name. */
  type Assignment = map<string, string>

  predicate AreAddresses(m: Assignment) {
    forall h :: h in m ==> |m[h]| == SLOT && IsHex(m[h])
  }

  predicate Assigned(s: string, i: int, m: Assignment) {
    OccursAt(s, i) && HashAt(s, i) in m
  }

  /** One pass from left to right that puts addresses into the slots of the assigned hashes. */
  function Substitute(s: string, from: nat, m: Assignment): string
    requires from <= |s|
    decreases |s| - from
  {
    if from == |s| then ""
    else if Assigned(s, from, m) then m[HashAt(s, from)] + Substitute(s, from + SLOT, m)
    else [s[from]] + Substitute(s, from + 1, m)
  }

  function Link(s: string, m: Assignment): string {
    Substitute(s, 0, m)
  }

  ghost predicate Covers(m: Assignment, placeholders: seq<Placeholder>) {
    AreAddresses(m) && forall p | p in placeholders :: p.hash in m
  }

  /** Some choice of one address per library turns the compiled into the deployed code. */
  ghost predicate Linkable(compiled: string, deployed: string) {
    exists m: Assignment :: Covers(m, Scan(compiled, 0)) && Link(compiled, m) == deployed
  }

  // ---- Slots ----

  /** The offsets at which `Substitute` puts an address. */
  ghost function Slots(s: string, from: nat, m: Assignment): (slots: set<nat>)
    requires from <= |s|
    ensures forall i :: i in slots ==> from <= i
    decreases |s| - from
  {
    if from == |s| then {}
    else if Assigned(s, from, m) then {from} + Slots(s, from + SLOT, m)
    else Slots(s, from + 1, m)
  }

  ghost predicate InSlot(slots: set<nat>, k: int) {
    exists i :: i in slots && i <= k < i + SLOT
  }

  ghost predicate Disjoint(slots: set<nat>) {
    forall i, j :: i in slots && j in slots && i < j ==> i + SLOT <= j
  }

  /** `t` is `s` with addresses in `slots` and nothing else changed. */
  ghost predicate Filled(s: string, t: string, slots: set<nat>, m: Assignment) {
    && |t| == |s| && Disjoint(slots)
    && (forall i :: i in slots ==> Assigned(s, i, m) && t[i..i + SLOT] == m[HashAt(s, i)])
    && (forall k :: 0 <= k < |s| && !InSlot(slots, k) ==> t[k] == s[k])
  }

  /** No two placeholders share a character; compilers never produce ones that do. */
  ghost predicate NoOverlap(s: string) {
    forall i, j :: OccursAt(s, i) && OccursAt(s, j) && i < j ==> i + SLOT <= j
  }

  lemma {:induction false} SubstituteFills(s: string, from: nat, m: Assignment)
    requires from <= |s| && AreAddresses(m)
    ensures Filled(s, s[..from] + Substitute(s, from, m), Slots(s, from, m), m)
    decreases |s| - from
  {
    if from == |s| {
    } else if Assigned(s, from, m) {
      SubstituteFills(s, from + SLOT, m);
      AddressInSlot(s, from, m);
    } else {
      SubstituteFills(s, from + 1, m);
      assert s[..from] + ([s[from]] + Substitute(s, from + 1, m)) == s[..from + 1] + Substitute(s, from + 1, m);
    }
  }

  lemma AddressInSlot(s: string, from: nat, m: Assignment)
    requires from <= |s| && AreAddresses(m) && Assigned(s, from, m)
    requires Filled(s, s[..from + SLOT] + Substitute(s, from + SLOT, m), Slots(s, from + SLOT, m), m)
    ensures Filled(s, s[..from] + Substitute(s, from, m), Slots(s, from, m), m)
  {
    var rest, later := Substitute(s, from + SLOT, m), Slots(s, from + SLOT, m);
    var address := m[HashAt(s, from)];
    var before, after := s[..from + SLOT] + rest, s[..from] + (address + rest);
    assert after[from..from + SLOT] == address;
    forall i | i in later
      ensures after[i..i + SLOT] == m[HashAt(s, i)]
    {
      assert after[i..i + SLOT] == before[i..i + SLOT];
    }
    forall k | 0 <= k < |s| && !InSlot({from} + later, k)
      ensures after[k] == s[k]
    {
      SlotsOfUnion({from}, later, k);
      assert from in {from};
      assert before[k] == s[k];
    }
  }

  lemma HexInSlot(s: string, t: string, slots: set<nat>, m: Assignment, k: int)
    requires Filled(s, t, slots, m) && AreAddresses(m) && InSlot(slots, k)
    ensures 0 <= k < |t| && IsHexDigit(t[k])
  {
    var i :| i in slots && i <= k < i + SLOT;
    assert t[k] == t[i..i + SLOT][k - i];
  }

  /** Addresses never take part in a placeholder, so what is left after filling slots was there before. */
  lemma OccurrenceWasThere(s: string, t: string, slots: set<nat>, m: Assignment, i: int)
    requires Filled(s, t, slots, m) && AreAddresses(m) && OccursAt(t, i)
    ensures OccursAt(s, i) && HashAt(s, i) == HashAt(t, i)
    ensures forall j :: j in slots ==> j + SLOT <= i || i + SLOT <= j
  {
    forall j | j in slots
      ensures j + SLOT <= i || i + SLOT <= j
    {
      if j <= i < j + SLOT {
        HexInSlot(s, t, slots, m, i);
        assert false;
      } else if i < j < i + SLOT {
        HexInSlot(s, t, slots, m, i + 39);
        assert false;
      }
    }
    forall k | i <= k < i + SLOT
      ensures t[k] == s[k]
    {
    }
  }

  /** Filling more slots of an already filled text is filling more slots of the original. */
  lemma FillMore(s: string, t: string, slots: set<nat>, m: Assignment, more: Assignment)
    requires Filled(s, t, slots, m) && AreAddresses(m)
    requires forall h :: h in more ==> h in m && more[h] == m[h]
    ensures Filled(s, Link(t, more), slots + Slots(t, 0, more), m)
  {
    SubstituteFills(t, 0, more);
    var u, added := Link(t, more), Slots(t, 0, more);
    assert t[..0] + Substitute(t, 0, more) == u;
    forall i | i in added
      ensures OccursAt(s, i) && HashAt(s, i) == HashAt(t, i)
      ensures forall j :: j in slots ==> j + SLOT <= i || i + SLOT <= j
    {
      OccurrenceWasThere(s, t, slots, m, i);
    }
    forall i | i in slots
      ensures u[i..i + SLOT] == m[HashAt(s, i)]
    {
      assert u[i..i + SLOT] == t[i..i + SLOT];
    }
    forall k | 0 <= k < |s| && !InSlot(slots + added, k)
      ensures u[k] == s[k]
    {
      SlotsOfUnion(slots, added, k);
    }
  }

  lemma SlotsOfUnion(a: set<nat>, b: set<nat>, k: int)
    requires !InSlot(a + b, k)
    ensures !InSlot(a, k) && !InSlot(b, k)
  {
    forall i | i in a || i in b
      ensures !(i <= k < i + SLOT)
    {
      assert i in a + b;
    }
  }

  /** Filled text without placeholder characters has every placeholder of the original filled. */
  lemma HexFillsAll(s: string, t: string, slots: set<nat>, m: Assignment, i: int)
    requires Filled(s, t, slots, m) && IsHex(t) && OccursAt(s, i)
    ensures i in slots
  {
    var dollar := i + 2;
    assert t[dollar] != s[dollar];
    var j :| j in slots && j <= dollar < j + SLOT;
    assert OccursAt(s, j);
    assert s[i + 3] != '_';
    assert dollar - j == 2;
  }

  lemma AllFilledMeansNoOverlap(s: string, t: string, slots: set<nat>, m: Assignment)
    requires Filled(s, t, slots, m) && IsHex(t)
    ensures NoOverlap(s) && forall i :: OccursAt(s, i) ==> i in slots
  {
    forall i | OccursAt(s, i)
      ensures i in slots
    {
      HexFillsAll(s, t, slots, m, i);
    }
  }

  lemma {:induction false} NothingMissed(s: string, from: nat, m: Assignment, i: int)
    requires NoOverlap(s) && from <= i && Assigned(s, i, m)
    ensures i in Slots(s, from, m)
    decreases |s| - from
  {
    if from < i {
      NothingMissed(s, if Assigned(s, from, m) then from + SLOT else from + 1, m, i);
    }
  }

  /** Without overlaps, linking a hash fills every slot of that hash. */
  lemma FillsHash(s: string, t: string, slots: set<nat>, m: Assignment, more: Assignment, i: int)
    requires Filled(s, t, slots, m) && AreAddresses(m) && NoOverlap(s) && Assigned(s, i, more)
    ensures i in slots + Slots(t, 0, more)
  {
    if i !in slots {
      forall j | j in slots
        ensures j + SLOT <= i || i + SLOT <= j
      {
        assert OccursAt(s, j) && i != j;
      }
      assert forall k :: i <= k < i + SLOT ==> t[k] == s[k];
      assert HashAt(t, i) == HashAt(s, i);
      forall a, b | OccursAt(t, a) && OccursAt(t, b) && a < b
        ensures a + SLOT <= b
      {
        OccurrenceWasThere(s, t, slots, m, a);
        OccurrenceWasThere(s, t, slots, m, b);
      }
      NothingMissed(t, 0, more, i);
    }
  }

  lemma {:induction false} ScanFinds(s: string, from: nat)
    ensures forall p :: p in Scan(s, from) ==> OccursAt(s, p.offset) && p.hash == HashAt(s, p.offset)
    ensures NoOverlap(s) ==>
              forall i :: from <= i && OccursAt(s, i) ==> Placeholder(HashAt(s, i), i) in Scan(s, from)
    decreases |s| - from
  {
    if from + SLOT > |s| {
    } else if OccursAt(s, from) {
      ScanFinds(s, from + SLOT);
    } else {
      ScanFinds(s, from + 1);
    }
  }

  // ---- The comparison ----

  datatype LinkResult =
    | Match(libs: JsMap<string, string>)
    | SizeMismatch
    | Inconsistent(hash: string, first: string, second: string)
    | Differs(at: nat, linked: string)

  method ExtractPlaceholders(hex: string) returns (placeholders: seq<Placeholder>)
    ensures placeholders == Scan(hex, 0)
  {
    placeholders := [];
    var lastIndex := 0;
    while lastIndex + SLOT <= |hex|
      invariant placeholders + Scan(hex, lastIndex) == Scan(hex, 0)
      decreases |hex| - lastIndex
    {
      if OccursAt(hex, lastIndex) {
        MoveAcross(placeholders, Placeholder(HashAt(hex, lastIndex), lastIndex), Scan(hex, lastIndex + SLOT));
        placeholders := placeholders + [Placeholder(HashAt(hex, lastIndex), lastIndex)];
        lastIndex := lastIndex + SLOT;
      } else {
        lastIndex := lastIndex + 1;
      }
    }
  }

  ghost predicate ReadFrom(libs: Assignment, deployed: string, placeholders: seq<Placeholder>) {
    && (forall h :: h in libs ==> exists p :: p in placeholders && p.hash == h)
    && (forall p :: p in placeholders ==>
          && p.offset + SLOT <= |deployed| && p.hash in libs
          && libs[p.hash] == deployed[p.offset..p.offset + SLOT])
  }

  /** Some slot of the library holds this address. */
  ghost predicate Holds(deployed: string, placeholders: seq<Placeholder>, hash: string, address: string) {
    exists p :: p in placeholders && p.hash == hash && p.offset + SLOT <= |deployed|
                && deployed[p.offset..p.offset + SLOT] == address
  }

  ghost predicate Conflict(deployed: string, placeholders: seq<Placeholder>, r: LinkResult) {
    r.Inconsistent? && r.first != r.second
    && Holds(deployed, placeholders, r.hash, r.first) && Holds(deployed, placeholders, r.hash, r.second)
  }

  /** Reads each library's address from its slots; a failure is a library with two addresses. */
  method CollectAddresses(deployed: string, placeholders: seq<Placeholder>)
      returns (libs: JsMap<string, string>, conflict: Option<LinkResult>)
    requires IsHex(deployed)
    requires forall p :: p in placeholders ==> p.offset + SLOT <= |deployed|
    ensures conflict == None ==> libs.Valid() && AreAddresses(libs.at) && ReadFrom(libs.at, deployed, placeholders)
    ensures conflict.Some? ==> Conflict(deployed, placeholders, conflict.value)
  {
    libs := JsMap([], map[]);
    for i := 0 to |placeholders|
      invariant libs.Valid() && ReadFrom(libs.at, deployed, placeholders[..i])
    {
      var p := placeholders[i];
      var address := deployed[p.offset..p.offset + SLOT];
      if p.hash in libs.at && libs.at[p.hash] != address {
        ReadTwice(libs.at, deployed, placeholders, i);
        return libs, Some(Inconsistent(p.hash, libs.at[p.hash], address));
      }
      ghost var before := libs.at;
      libs := libs.Set(p.hash, address);
      ReadOneMore(before, libs.at, deployed, placeholders, i);
    }
    assert placeholders[..|placeholders|] == placeholders;
    SlicesAreAddresses(libs.at, deployed, placeholders);
    return libs, None;
  }

  lemma SlicesAreAddresses(libs: Assignment, deployed: string, placeholders: seq<Placeholder>)
    requires IsHex(deployed) && ReadFrom(libs, deployed, placeholders)
    ensures AreAddresses(libs)
  {
    forall h | h in libs
      ensures |libs[h]| == SLOT && IsHex(libs[h])
    {
      var p :| p in placeholders && p.hash == h;
    }
  }

  lemma ReadTwice(libs: Assignment, deployed: string, placeholders: seq<Placeholder>, i: nat)
    requires i < |placeholders| && ReadFrom(libs, deployed, placeholders[..i])
    requires placeholders[i].offset + SLOT <= |deployed| && placeholders[i].hash in libs
    requires libs[placeholders[i].hash] != deployed[placeholders[i].offset..placeholders[i].offset + SLOT]
    ensures var p := placeholders[i];
            Conflict(deployed, placeholders, Inconsistent(p.hash, libs[p.hash], deployed[p.offset..p.offset + SLOT]))
  {
    var p := placeholders[i];
    var q :| q in placeholders[..i] && q.hash == p.hash;
    assert p in placeholders && q in placeholders;
  }

  lemma ReadOneMore(before: Assignment, after: Assignment, deployed: string, placeholders: seq<Placeholder>, i: nat)
    requires i < |placeholders| && ReadFrom(before, deployed, placeholders[..i])
    requires placeholders[i].offset + SLOT <= |deployed|
    requires var p := placeholders[i];
             && after == before[p.hash := deployed[p.offset..p.offset + SLOT]]
             && (p.hash in before ==> before[p.hash] == deployed[p.offset..p.offset + SLOT])
    ensures ReadFrom(after, deployed, placeholders[..i + 1])
  {
    var p := placeholders[i];
    assert placeholders[..i + 1] == placeholders[..i] + [p];
    forall h | h in after
      ensures exists q :: q in placeholders[..i + 1] && q.hash == h
    {
      if h != p.hash {
        var q :| q in placeholders[..i] && q.hash == h;
        assert q in placeholders[..i + 1];
      }
    }
  }

  /** Global replacement of one library's placeholder after the other. */
  method LinkLibraries(compiled: string, libs: JsMap<string, string>) returns (linked: string, ghost slots: set<nat>)
    requires libs.Valid() && AreAddresses(libs.at)
    ensures Filled(compiled, linked, slots, libs.at)
    ensures NoOverlap(compiled) ==> forall i :: Assigned(compiled, i, libs.at) ==> i in slots
  {
    linked, slots := compiled, {};
    for n := 0 to |libs.order|
      invariant Filled(compiled, linked, slots, libs.at)
      invariant NoOverlap(compiled) ==>
                  forall i :: OccursAt(compiled, i) && HashAt(compiled, i) in libs.order[..n] ==> i in slots
    {
      var h := libs.order[n];
      assert h in libs.order;
      var one := map[h := libs.at[h]];
      FillMore(compiled, linked, slots, libs.at, one);
      if NoOverlap(compiled) {
        forall i | OccursAt(compiled, i) && HashAt(compiled, i) == h
          ensures i in slots + Slots(linked, 0, one)
        {
          FillsHash(compiled, linked, slots, libs.at, one, i);
        }
      }
      assert forall x :: x in libs.order[..n + 1] <==> x in libs.order[..n] || x == h;
      linked, slots := Link(linked, one), slots + Slots(linked, 0, one);
    }
    assert libs.order[..|libs.order|] == libs.order;
  }

  /** Where the deployed code first departs from the compiled code other than by a library's address. */
  ghost predicate FirstGenuineDifference(compiled: string, deployed: string, at: int) {
    && 0 <= at < |compiled| == |deployed| && compiled[at] != deployed[at]
    && (forall i :: OccursAt(compiled, i) ==> !(i <= at < i + SLOT))
    && (forall k :: 0 <= k < at ==>
          compiled[k] == deployed[k] || exists i :: OccursAt(compiled, i) && i <= k < i + SLOT)
  }

  method FirstDifference(a: string, b: string) returns (at: int)
    requires |a| == |b|
    ensures at == -1 <==> a == b
    ensures at != -1 ==> 0 <= at < |a| && a[at] != b[at] && a[..at] == b[..at]
  {
    for i := 0 to |a|
      invariant a[..i] == b[..i]
    {
      if a[i] != b[i] {
        return i;
      }
    }
    assert a[..|a|] == a && b[..|b|] == b;
    return -1;
  }

  method LinkAndCompare(compiled: string, deployed: string, placeholders: seq<Placeholder>) returns (result: LinkResult)
    requires placeholders == Scan(compiled, 0) && IsHex(deployed)
    ensures result.Match? <==> Linkable(compiled, deployed)
    ensures result.Match? ==> Covers(result.libs.at, placeholders) && Link(compiled, result.libs.at) == deployed
    ensures result.Match? ==> forall h | h in result.libs.at :: exists p :: p in placeholders && p.hash == h
    ensures result.SizeMismatch? <==> |compiled| != |deployed|
    ensures result.Inconsistent? ==> Conflict(deployed, placeholders, result)
    ensures result.Differs? && NoOverlap(compiled) ==> FirstGenuineDifference(compiled, deployed, result.at)
  {
    if |compiled| != |deployed| {
      LinkKeepsLength(compiled, deployed);
      return SizeMismatch;
    }
    ScanFinds(compiled, 0);
    var libs, conflict := CollectAddresses(deployed, placeholders);
    if conflict.Some? {
      ConflictIsFatal(compiled, deployed, conflict.value);
      return conflict.value;
    }
    var linked, slots := LinkLibraries(compiled, libs);
    if linked == deployed {
      EqualMeansLinkable(compiled, deployed, slots, libs.at);
      return Match(libs);
    }
    if Linkable(compiled, deployed) {
      LinkableMeansEqual(compiled, deployed, linked, slots, libs.at);
    }
    var divergeAt := FirstDifference(linked, deployed);
    if NoOverlap(compiled) {
      LinkedSlotsAgree(compiled, deployed, linked, slots, libs.at);
      DifferenceIsGenuine(compiled, deployed, linked, divergeAt);
    }
    return Differs(divergeAt, linked);
  }

  lemma LinkKeepsLength(compiled: string, deployed: string)
    ensures Linkable(compiled, deployed) ==> |compiled| == |deployed|
  {
    if Linkable(compiled, deployed) {
      var m :| Covers(m, Scan(compiled, 0)) && Link(compiled, m) == deployed;
      SubstituteFills(compiled, 0, m);
      assert compiled[..0] + Substitute(compiled, 0, m) == deployed;
    }
  }

  /** Whoever links the code to hex finds every placeholder filled, and the addresses in its slots. */
  lemma LinkedSlots(compiled: string, deployed: string, m: Assignment)
    requires IsHex(deployed) && Covers(m, Scan(compiled, 0)) && Link(compiled, m) == deployed
    ensures |compiled| == |deployed| && NoOverlap(compiled)
    ensures forall i :: OccursAt(compiled, i) ==>
                          HashAt(compiled, i) in m && deployed[i..i + SLOT] == m[HashAt(compiled, i)]
    ensures Filled(compiled, deployed, Slots(compiled, 0, m), m)
    ensures forall i :: OccursAt(compiled, i) <==> i in Slots(compiled, 0, m)
  {
    SubstituteFills(compiled, 0, m);
    assert compiled[..0] + Substitute(compiled, 0, m) == deployed;
    AllFilledMeansNoOverlap(compiled, deployed, Slots(compiled, 0, m), m);
  }

  lemma ConflictIsFatal(compiled: string, deployed: string, r: LinkResult)
    requires IsHex(deployed) && Conflict(deployed, Scan(compiled, 0), r)
    ensures !Linkable(compiled, deployed)
  {
    if Linkable(compiled, deployed) {
      var m :| Covers(m, Scan(compiled, 0)) && Link(compiled, m) == deployed;
      ScanFinds(compiled, 0);
      LinkedSlots(compiled, deployed, m);
    }
  }

  lemma EqualMeansLinkable(compiled: string, deployed: string, slots: set<nat>, libs: Assignment)
    requires IsHex(deployed) && AreAddresses(libs) && Filled(compiled, deployed, slots, libs)
    requires forall p :: p in Scan(compiled, 0) ==> p.hash in libs
    ensures Link(compiled, libs) == deployed && Linkable(compiled, deployed)
  {
    AllFilledMeansNoOverlap(compiled, deployed, slots, libs);
    SubstituteFills(compiled, 0, libs);
    var t, all := Link(compiled, libs), Slots(compiled, 0, libs);
    assert compiled[..0] + Substitute(compiled, 0, libs) == t;
    forall i | i in slots
      ensures i in all
    {
      NothingMissed(compiled, 0, libs, i);
    }
    SameSlotsSameText(compiled, deployed, t, slots, all, libs, libs);
  }

  /** Two fillings of the same slots with the same addresses are the same. */
  lemma SameSlotsSameText(s: string, t: string, u: string, slots: set<nat>, other: set<nat>, m: Assignment,
                          n: Assignment)
    requires Filled(s, t, slots, m) && Filled(s, u, other, n)
    requires forall i :: i in slots <==> i in other
    requires forall i :: i in slots ==> m[HashAt(s, i)] == n[HashAt(s, i)]
    ensures t == u
  {
    forall k | 0 <= k < |s|
      ensures t[k] == u[k]
    {
      if InSlot(slots, k) {
        var i :| i in slots && i <= k < i + SLOT;
        assert t[k] == t[i..i + SLOT][k - i] && u[k] == u[i..i + SLOT][k - i];
      } else {
        assert !InSlot(other, k);
      }
    }
  }

  lemma LinkableMeansEqual(compiled: string, deployed: string, linked: string, slots: set<nat>, libs: Assignment)
    requires IsHex(deployed) && Linkable(compiled, deployed) && AreAddresses(libs)
    requires ReadFrom(libs, deployed, Scan(compiled, 0)) && Filled(compiled, linked, slots, libs)
    requires NoOverlap(compiled) ==> forall i :: Assigned(compiled, i, libs) ==> i in slots
    ensures linked == deployed
  {
    var m :| Covers(m, Scan(compiled, 0)) && Link(compiled, m) == deployed;
    LinkedSlots(compiled, deployed, m);
    ScanFinds(compiled, 0);
    forall i | OccursAt(compiled, i)
      ensures i in slots && libs[HashAt(compiled, i)] == m[HashAt(compiled, i)]
    {
      assert Placeholder(HashAt(compiled, i), i) in Scan(compiled, 0);
    }
    SameSlotsSameText(compiled, linked, deployed, slots, Slots(compiled, 0, m), libs, m);
  }

  /** What linking leaves of the difference between two codes. */
  ghost predicate LinkedRight(compiled: string, deployed: string, linked: string) {
    && |linked| == |compiled| == |deployed|
    && (forall i, k :: OccursAt(compiled, i) && i <= k < i + SLOT ==> linked[k] == deployed[k])
    && (forall k :: 0 <= k < |compiled| ==>
          linked[k] == compiled[k] || exists i :: OccursAt(compiled, i) && i <= k < i + SLOT)
  }

  lemma LinkedSlotsAgree(compiled: string, deployed: string, linked: string, slots: set<nat>, libs: Assignment)
    requires |compiled| == |deployed| && NoOverlap(compiled)
    requires ReadFrom(libs, deployed, Scan(compiled, 0)) && Filled(compiled, linked, slots, libs)
    requires forall i :: Assigned(compiled, i, libs) ==> i in slots
    ensures LinkedRight(compiled, deployed, linked)
  {
    ScanFinds(compiled, 0);
    forall i, k | OccursAt(compiled, i) && i <= k < i + SLOT
      ensures linked[k] == deployed[k]
    {
      assert Placeholder(HashAt(compiled, i), i) in Scan(compiled, 0);
      assert linked[k] == linked[i..i + SLOT][k - i];
      assert deployed[k] == deployed[i..i + SLOT][k - i];
    }
    forall k | 0 <= k < |compiled|
      ensures linked[k] == compiled[k] || exists i :: OccursAt(compiled, i) && i <= k < i + SLOT
    {
      if InSlot(slots, k) {
        var i :| i in slots && i <= k < i + SLOT;
        assert OccursAt(compiled, i);
      }
    }
  }

  lemma DifferenceIsGenuine(compiled: string, deployed: string, linked: string, at: nat)
    requires LinkedRight(compiled, deployed, linked)
    requires at < |linked| && linked[at] != deployed[at] && linked[..at] == deployed[..at]
    ensures FirstGenuineDifference(compiled, deployed, at)
  {
    forall k | 0 <= k < at
      ensures compiled[k] == deployed[k] || exists i :: OccursAt(compiled, i) && i <= k < i + SLOT
    {
      assert linked[k] == linked[..at][k] && deployed[k] == deployed[..at][k];
    }
  }
}
