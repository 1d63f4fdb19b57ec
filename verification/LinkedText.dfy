/** Compiled code as text: hex code with a library's placeholder here and there, and what linking makes of it. */
module LinkedText {
  import opened Collections
  import opened Bytecode

  /** Hex code, and the hash of the library whose placeholder follows it. */
  datatype Part = Part(code: string, hash: string)

  ghost predicate IsPart(p: Part) {
    IsHex(p.code) && IsHex(p.hash) && |p.hash| == 34
  }

  ghost predicate AreParts(parts: seq<Part>) {
    forall i :: 0 <= i < |parts| ==> IsPart(parts[i])
  }

  /** One address in the place of each placeholder. */
  ghost predicate AddressesFor(parts: seq<Part>, addresses: seq<string>) {
    |addresses| == |parts| && forall i :: 0 <= i < |addresses| ==> |addresses[i]| == SLOT && IsHex(addresses[i])
  }

  function Slot(hash: string): string {
    "__$" + hash + "$__"
  }

  function Compiled(parts: seq<Part>, tail: string): string {
    if |parts| == 0 then tail else parts[0].code + Slot(parts[0].hash) + Compiled(parts[1..], tail)
  }

  function Deployed(parts: seq<Part>, addresses: seq<string>, tail: string): string
    requires |addresses| == |parts|
  {
    if |parts| == 0 then tail else parts[0].code + addresses[0] + Deployed(parts[1..], addresses[1..], tail)
  }

  /** The placeholders as they were written, where the text begins at `base`. */
  function Written(parts: seq<Part>, base: nat): seq<Placeholder> {
    if |parts| == 0 then []
    else
      var at := base + |parts[0].code|;
      [Placeholder(parts[0].hash, at)] + Written(parts[1..], at + SLOT)
  }

  // ---- A text that begins somewhere ----

  lemma OccursFurther(a: string, s: string, i: nat)
    ensures OccursAt(a + s, |a| + i) <==> OccursAt(s, i)
    ensures OccursAt(s, i) ==> HashAt(a + s, |a| + i) == HashAt(s, i)
  {
    var t := a + s;
    assert forall k :: i <= k < |s| ==> t[|a| + k] == s[k];
    if OccursAt(s, i) {
      assert OccursAt(t, |a| + i) by {
        forall k | |a| + i <= k < |a| + i + SLOT
          ensures Fits(t[k], k - (|a| + i))
        {
          assert Fits(s[k - |a|], k - |a| - i);
        }
      }
      assert t[|a| + i + 3..|a| + i + 37] == s[i + 3..i + 37];
    }
    if OccursAt(t, |a| + i) {
      forall k | i <= k < i + SLOT
        ensures Fits(s[k], k - i)
      {
        assert Fits(t[|a| + k], |a| + k - (|a| + i));
      }
    }
  }

  function Moved(placeholders: seq<Placeholder>, d: nat): seq<Placeholder> {
    seq(|placeholders|, i requires 0 <= i < |placeholders| =>
      Placeholder(placeholders[i].hash, placeholders[i].offset + d))
  }

  lemma MovedCons(p: Placeholder, rest: seq<Placeholder>, d: nat)
    ensures Moved([p] + rest, d) == [Placeholder(p.hash, p.offset + d)] + Moved(rest, d)
  {
  }

  lemma {:induction false} ScanFurther(a: string, s: string, from: nat)
    ensures Scan(a + s, |a| + from) == Moved(Scan(s, from), |a|)
    decreases |s| - from
  {
    if from + SLOT <= |s| {
      OccursFurther(a, s, from);
      if OccursAt(s, from) {
        ScanFurther(a, s, from + SLOT);
        MovedCons(Placeholder(HashAt(s, from), from), Scan(s, from + SLOT), |a|);
      } else {
        ScanFurther(a, s, from + 1);
      }
    }
  }

  lemma {:induction false} SubstituteFurther(a: string, s: string, from: nat, m: Assignment)
    requires from <= |s|
    ensures Substitute(a + s, |a| + from, m) == Substitute(s, from, m)
    decreases |s| - from
  {
    if from < |s| {
      OccursFurther(a, s, from);
      assert (a + s)[|a| + from] == s[from];
      SubstituteFurther(a, s, if Assigned(s, from, m) then from + SLOT else from + 1, m);
    }
  }

  // ---- Hex code, then a placeholder ----

  lemma NothingInHex(s: string, i: nat)
    requires i < |s| && IsHexDigit(s[i])
    ensures !OccursAt(s, i)
  {
    assert !Fits(s[i], 0);
  }

  lemma SlotOccurs(hash: string, rest: string)
    requires IsHex(hash) && |hash| == 34
    ensures |Slot(hash)| == SLOT
    ensures OccursAt(Slot(hash) + rest, 0) && HashAt(Slot(hash) + rest, 0) == hash
  {
    var s := Slot(hash) + rest;
    assert s[3..37] == hash;
    forall k | 0 <= k < SLOT
      ensures Fits(s[k], k)
    {
      assert 3 <= k < 37 ==> s[k] == hash[k - 3];
    }
  }

  lemma {:induction false} ScanHex(code: string, rest: string, from: nat)
    requires IsHex(code) && from <= |code|
    ensures Scan(code + rest, from) == Scan(code + rest, |code|)
    decreases |code| - from
  {
    if from < |code| {
      NothingInHex(code + rest, from);
      ScanHex(code, rest, from + 1);
      if from + SLOT > |code + rest| {
        assert Scan(code + rest, |code|) == [];
      }
    }
  }

  lemma {:induction false} SubstituteHex(code: string, rest: string, from: nat, m: Assignment)
    requires IsHex(code) && from <= |code|
    ensures Substitute(code + rest, from, m) == code[from..] + Substitute(code + rest, |code|, m)
    decreases |code| - from
  {
    if from < |code| {
      NothingInHex(code + rest, from);
      SubstituteHex(code, rest, from + 1, m);
      assert code[from..] == [code[from]] + code[from + 1..];
    }
  }

  lemma ScanPart(p: Part, rest: string)
    requires IsPart(p)
    ensures Scan(p.code + Slot(p.hash) + rest, 0)
            == [Placeholder(p.hash, |p.code|)] + Moved(Scan(rest, 0), |p.code| + SLOT)
  {
    var slot, s := Slot(p.hash), Slot(p.hash) + rest;
    SlotOccurs(p.hash, rest);
    ScanHex(p.code, s, 0);
    ScanFurther(p.code, s, 0);
    ScanFurther(slot, rest, 0);
    assert p.code + slot + rest == p.code + s;
    assert Scan(s, 0) == [Placeholder(p.hash, 0)] + Scan(s, SLOT);
    MovedTwice(p.hash, Scan(rest, 0), |p.code|);
  }

  lemma MovedTwice(hash: string, placeholders: seq<Placeholder>, d: nat)
    ensures Moved([Placeholder(hash, 0)] + Moved(placeholders, SLOT), d)
            == [Placeholder(hash, d)] + Moved(placeholders, d + SLOT)
  {
  }

  lemma LinkPart(p: Part, rest: string, m: Assignment)
    requires IsPart(p) && p.hash in m
    ensures Link(p.code + Slot(p.hash) + rest, m) == p.code + m[p.hash] + Link(rest, m)
  {
    var slot, s := Slot(p.hash), Slot(p.hash) + rest;
    SlotOccurs(p.hash, rest);
    SubstituteHex(p.code, s, 0, m);
    SubstituteFurther(p.code, s, 0, m);
    SubstituteFurther(slot, rest, 0, m);
    assert p.code + slot + rest == p.code + s;
    assert p.code[0..] == p.code;
    assert Substitute(s, 0, m) == m[p.hash] + Substitute(s, SLOT, m);
  }

  // ---- The whole text ----

  lemma HexHasNoPlaceholder(tail: string, m: Assignment)
    requires IsHex(tail)
    ensures Scan(tail, 0) == [] && Link(tail, m) == tail
  {
    ScanHex(tail, "", 0);
    SubstituteHex(tail, "", 0, m);
    assert tail + "" == tail && tail[0..] == tail;
  }

  lemma {:induction false} MovedWritten(parts: seq<Part>, base: nat, d: nat)
    ensures Moved(Written(parts, base), d) == Written(parts, base + d)
  {
    if |parts| > 0 {
      MovedWritten(parts[1..], base + |parts[0].code| + SLOT, d);
      var at := base + |parts[0].code|;
      MovedCons(Placeholder(parts[0].hash, at), Written(parts[1..], at + SLOT), d);
    }
  }

  /** What was written is found: every placeholder with its hash, where it is. */
  lemma {:induction false} WrittenIsFound(parts: seq<Part>, tail: string)
    requires AreParts(parts) && IsHex(tail)
    ensures Scan(Compiled(parts, tail), 0) == Written(parts, 0)
  {
    if |parts| == 0 {
      HexHasNoPlaceholder(tail, map[]);
    } else {
      assert IsPart(parts[0]);
      RestAreParts(parts);
      WrittenIsFound(parts[1..], tail);
      ScanPart(parts[0], Compiled(parts[1..], tail));
      MovedWritten(parts[1..], 0, |parts[0].code| + SLOT);
    }
  }

  lemma RestAreParts(parts: seq<Part>)
    requires AreParts(parts) && |parts| > 0
    ensures AreParts(parts[1..])
  {
    forall i | 0 <= i < |parts[1..]|
      ensures IsPart(parts[1..][i])
    {
      assert IsPart(parts[i + 1]);
    }
  }

  ghost predicate HasAll(m: Assignment, parts: seq<Part>) {
    forall i :: 0 <= i < |parts| ==> parts[i].hash in m
  }

  /** `m` gives every part the address that was put in its place. */
  ghost predicate Gives(m: Assignment, parts: seq<Part>, addresses: seq<string>)
    requires |addresses| == |parts|
  {
    forall i :: 0 <= i < |parts| ==> parts[i].hash in m && m[parts[i].hash] == addresses[i]
  }

  lemma SameLengthsSplit(code: string, x: string, y: string, u: string, v: string)
    requires |x| == |y|
    ensures code + x + u == code + y + v <==> x == y && u == v
  {
    if code + x + u == code + y + v {
      assert (code + x + u)[|code|..|code| + |x|] == x && (code + y + v)[|code|..|code| + |y|] == y;
      assert (code + x + u)[|code| + |x|..] == u && (code + y + v)[|code| + |y|..] == v;
    }
  }

  /** Linking gives the deployed text exactly when every library is given the address in its place. */
  lemma {:induction false} LinksIffGives(parts: seq<Part>, addresses: seq<string>, tail: string, m: Assignment)
    requires AreParts(parts) && AddressesFor(parts, addresses) && IsHex(tail) && AreAddresses(m) && HasAll(m, parts)
    ensures Link(Compiled(parts, tail), m) == Deployed(parts, addresses, tail) <==> Gives(m, parts, addresses)
  {
    if |parts| == 0 {
      HexHasNoPlaceholder(tail, m);
    } else {
      var rest, others := parts[1..], addresses[1..];
      assert IsPart(parts[0]) && parts[0].hash in m && |addresses[0]| == SLOT;
      RestAreParts(parts);
      assert forall i :: 0 <= i < |rest| ==> rest[i].hash == parts[i + 1].hash && rest[i].hash in m;
      assert AddressesFor(rest, others);
      LinksIffGives(rest, others, tail, m);
      LinkPart(parts[0], Compiled(rest, tail), m);
      SameLengthsSplit(parts[0].code, m[parts[0].hash], addresses[0], Link(Compiled(rest, tail), m),
                       Deployed(rest, others, tail));
      GivesFirstAndRest(m, parts, addresses);
    }
  }

  lemma GivesFirstAndRest(m: Assignment, parts: seq<Part>, addresses: seq<string>)
    requires |addresses| == |parts| > 0 && parts[0].hash in m
    ensures Gives(m, parts, addresses) <==> m[parts[0].hash] == addresses[0] && Gives(m, parts[1..], addresses[1..])
  {
    if Gives(m, parts[1..], addresses[1..]) {
      assert forall i :: 1 <= i < |parts| ==> parts[i] == parts[1..][i - 1] && addresses[i] == addresses[1..][i - 1];
    }
  }

  /** Any two places of one library hold the same address. */
  ghost predicate Consistent(parts: seq<Part>, addresses: seq<string>)
    requires |addresses| == |parts|
  {
    forall i, j ::
      0 <= i < |parts| && 0 <= j < |parts| && parts[i].hash == parts[j].hash ==> addresses[i] == addresses[j]
  }

  function Assigning(parts: seq<Part>, addresses: seq<string>): Assignment
    requires |addresses| == |parts|
  {
    if |parts| == 0 then map[] else Assigning(parts[1..], addresses[1..])[parts[0].hash := addresses[0]]
  }

  lemma {:induction false} AssigningGives(parts: seq<Part>, addresses: seq<string>)
    requires AddressesFor(parts, addresses) && Consistent(parts, addresses)
    ensures AreAddresses(Assigning(parts, addresses)) && Gives(Assigning(parts, addresses), parts, addresses)
  {
    if |parts| > 0 {
      var rest, others := parts[1..], addresses[1..];
      assert AddressesFor(rest, others);
      assert Consistent(rest, others) by {
        assert forall i :: 0 <= i < |rest| ==> rest[i] == parts[i + 1] && others[i] == addresses[i + 1];
      }
      AssigningGives(rest, others);
      var m := Assigning(parts, addresses);
      forall i | 0 <= i < |parts|
        ensures parts[i].hash in m && m[parts[i].hash] == addresses[i]
      {
        assert i > 0 ==> parts[i] == rest[i - 1] && addresses[i] == others[i - 1];
      }
    }
  }

  lemma {:induction false} WrittenHashes(parts: seq<Part>, base: nat)
    ensures |Written(parts, base)| == |parts|
    ensures forall i :: 0 <= i < |parts| ==> Written(parts, base)[i].hash == parts[i].hash
  {
    if |parts| > 0 {
      WrittenHashes(parts[1..], base + |parts[0].code| + SLOT);
    }
  }

  lemma CoversIff(parts: seq<Part>, m: Assignment)
    ensures Covers(m, Written(parts, 0)) <==> AreAddresses(m) && HasAll(m, parts)
  {
    WrittenHashes(parts, 0);
    var placeholders := Written(parts, 0);
    if Covers(m, placeholders) {
      forall i | 0 <= i < |parts|
        ensures parts[i].hash in m
      {
        assert placeholders[i] in placeholders;
      }
    }
  }

  /** The code links to the deployed text exactly when no library would need two addresses. */
  lemma LinkableIff(parts: seq<Part>, addresses: seq<string>, tail: string)
    requires AreParts(parts) && AddressesFor(parts, addresses) && IsHex(tail)
    ensures Linkable(Compiled(parts, tail), Deployed(parts, addresses, tail)) <==> Consistent(parts, addresses)
  {
    var compiled, deployed := Compiled(parts, tail), Deployed(parts, addresses, tail);
    WrittenIsFound(parts, tail);
    if Linkable(compiled, deployed) {
      var m :| Covers(m, Scan(compiled, 0)) && Link(compiled, m) == deployed;
      CoversIff(parts, m);
      LinksIffGives(parts, addresses, tail, m);
    }
    if Consistent(parts, addresses) {
      var m := Assigning(parts, addresses);
      AssigningGives(parts, addresses);
      CoversIff(parts, m);
      LinksIffGives(parts, addresses, tail, m);
    }
  }

  /** What the comparison returns on a match: every library with the address in its place. */
  lemma MatchGives(parts: seq<Part>, addresses: seq<string>, tail: string, libs: Assignment)
    requires AreParts(parts) && AddressesFor(parts, addresses) && IsHex(tail)
    requires Covers(libs, Scan(Compiled(parts, tail), 0))
    requires Link(Compiled(parts, tail), libs) == Deployed(parts, addresses, tail)
    ensures Gives(libs, parts, addresses)
  {
    WrittenIsFound(parts, tail);
    CoversIff(parts, libs);
    LinksIffGives(parts, addresses, tail, libs);
  }

  lemma OnePart(code: string, hash: string, address: string, tail: string, base: nat)
    ensures Compiled([Part(code, hash)], tail) == code + Slot(hash) + tail
    ensures Deployed([Part(code, hash)], [address], tail) == code + address + tail
    ensures Written([Part(code, hash)], base) == [Placeholder(hash, base + |code|)]
  {
    assert [Part(code, hash)][1..] == [] && [address][1..] == [];
    assert Compiled([], tail) == tail && Deployed([], [], tail) == tail && Written([], base + |code| + SLOT) == [];
  }

  /** Two libraries in hex code: they may have two addresses, and one library may not. */
  lemma TwoLibraries(a: string, h: string, b: string, k: string, c: string, x: string, y: string)
    requires IsHex(a) && IsHex(b) && IsHex(c) && IsHex(h) && IsHex(k) && |h| == |k| == 34
    requires IsHex(x) && IsHex(y) && |x| == |y| == SLOT
    ensures var compiled := a + Slot(h) + (b + Slot(k) + c);
            && Scan(compiled, 0) == [Placeholder(h, |a|), Placeholder(k, |a| + SLOT + |b|)]
            && (Linkable(compiled, a + x + (b + y + c)) <==> h != k || x == y)
  {
    var parts, addresses := [Part(a, h), Part(b, k)], [x, y];
    assert parts[1..] == [Part(b, k)] && addresses[1..] == [y];
    assert IsPart(parts[0]) && IsPart(parts[1]);
    OnePart(b, k, y, c, |a| + SLOT);
    WrittenIsFound(parts, c);
    LinkableIff(parts, addresses, c);
    assert parts[0].hash == h && parts[1].hash == k && addresses[0] == x && addresses[1] == y;
  }
}
