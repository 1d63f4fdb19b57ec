/** Zero-padded chunk file names, and the string order that a directory listing is sorted by. */
module FileNames {

  /** JavaScript's default sort order on strings: by code units, a prefix first. */
  predicate LexLess(a: string, b: string) {
    if |b| == 0 then false
    else if |a| == 0 then true
    else if a[0] != b[0] then a[0] < b[0]
    else LexLess(a[1..], b[1..])
  }

  function Digit(d: nat): char
    requires d < 10
  {
    '0' + d as char
  }

  /** `String(n)`. */
  function Decimal(n: nat): string {
    if n < 10 then [Digit(n)] else Decimal(n / 10) + [Digit(n % 10)]
  }

  /** `s.padStart(width, "0")`. */
  function PadStart(s: string, width: nat): string
    decreases if |s| < width then width - |s| else 0
  {
    if |s| >= width then s else PadStart("0" + s, width)
  }

  /** The name of chunk `i` (counted from zero) of `n`. */
  function ChunkName(prefix: string, n: nat, i: nat): string {
    prefix + "-" + PadStart(Decimal(i + 1), |Decimal(n)|) + ".json"
  }

  /** The names of all `n` chunks, in chunk order. */
  function ChunkNames(prefix: string, n: nat): seq<string> {
    seq(n, i requires 0 <= i < n => ChunkName(prefix, n, i))
  }

  predicate Digits(s: string) {
    forall i :: 0 <= i < |s| ==> '0' <= s[i] <= '9'
  }

  /** The pattern the generator cleans up and the verifier collects: `prefix`, optionally `-` and digits, `.json`. */
  predicate Matches(prefix: string, name: string) {
    && |name| >= |prefix| + 5
    && name[..|prefix|] == prefix
    && var rest := name[|prefix|..];
       || rest == ".json"
       || (|rest| > 6 && rest[0] == '-' && rest[|rest| - 5..] == ".json" && Digits(rest[1..|rest| - 5]))
  }

  ghost predicate IsNumbered(prefix: string, name: string) {
    exists number :: number != "" && Digits(number) && name == prefix + "-" + number + ".json"
  }

  /** The names that match are the plain one and the numbered ones, and no other file of the directory. */
  lemma MatchesIff(prefix: string, name: string)
    ensures Matches(prefix, name) <==> name == prefix + ".json" || IsNumbered(prefix, name)
  {
    if Matches(prefix, name) {
      var rest := name[|prefix|..];
      assert name == prefix + rest;
      if rest != ".json" {
        var number := rest[1..|rest| - 5];
        assert rest == "-" + number + ".json";
        assert name == prefix + "-" + number + ".json";
      }
    }
    if name == prefix + ".json" {
      assert name[..|prefix|] == prefix && name[|prefix|..] == ".json";
    }
    if IsNumbered(prefix, name) {
      var number :| number != "" && Digits(number) && name == prefix + "-" + number + ".json";
      NumberedMatches(prefix, number);
    }
  }

  lemma NumberedMatches(prefix: string, number: string)
    requires number != "" && Digits(number)
    ensures Matches(prefix, prefix + "-" + number + ".json")
  {
    var name := prefix + "-" + number + ".json";
    var rest := name[|prefix|..];
    assert name[..|prefix|] == prefix;
    assert rest == "-" + number + ".json";
    assert rest[|rest| - 5..] == ".json" && rest[1..|rest| - 5] == number;
  }

  // ---- Numbers as digit strings ----

  function Value(s: string): nat
    requires Digits(s)
  {
    if |s| == 0 then 0 else 10 * Value(s[..|s| - 1]) + (s[|s| - 1] as nat - '0' as nat)
  }

  lemma {:induction false} DecimalValue(n: nat)
    ensures Decimal(n) != "" && Digits(Decimal(n)) && Value(Decimal(n)) == n
  {
    if n >= 10 {
      DecimalValue(n / 10);
      assert Decimal(n)[..|Decimal(n)| - 1] == Decimal(n / 10);
    }
  }

  lemma {:induction false} LeadingZero(s: string)
    requires Digits(s)
    ensures Digits("0" + s) && Value("0" + s) == Value(s)
    decreases |s|
  {
    var z := "0" + s;
    if |s| > 0 {
      assert z[..|z| - 1] == "0" + s[..|s| - 1];
      LeadingZero(s[..|s| - 1]);
    } else {
      assert z[..0] == "";
    }
  }

  lemma {:induction false} PaddedValue(s: string, width: nat)
    requires Digits(s)
    ensures Digits(PadStart(s, width)) && Value(PadStart(s, width)) == Value(s)
    ensures |PadStart(s, width)| == if |s| >= width then |s| else width
    decreases if |s| < width then width - |s| else 0
  {
    if |s| < width {
      LeadingZero(s);
      PaddedValue("0" + s, width);
    }
  }

  lemma {:induction false} DecimalLength(m: nat, n: nat)
    requires m <= n
    ensures |Decimal(m)| <= |Decimal(n)|
  {
    if m >= 10 {
      DecimalLength(m / 10, n / 10);
    }
  }

  lemma {:induction false} EqualValues(a: string, b: string)
    requires |a| == |b| && Digits(a) && Digits(b) && Value(a) == Value(b)
    ensures a == b
    decreases |a|
  {
    if |a| > 0 {
      var n := |a| - 1;
      EqualValues(a[..n], b[..n]);
      assert a == a[..n] + [a[n]] && b == b[..n] + [b[n]];
    }
  }

  lemma {:induction false} CommonPrefix(p: string, a: string, b: string)
    ensures LexLess(p + a, p + b) == LexLess(a, b)
  {
    if |p| == 0 {
      assert p + a == a && p + b == b;
    } else {
      assert (p + a)[1..] == p[1..] + a && (p + b)[1..] == p[1..] + b;
      CommonPrefix(p[1..], a, b);
    }
  }

  /** What follows does not matter once two strings of one length differ. */
  lemma {:induction false} Extended(a: string, b: string, x: string, y: string)
    requires |a| == |b| && LexLess(a, b)
    ensures LexLess(a + x, b + y)
  {
    assert (a + x)[1..] == a[1..] + x && (b + y)[1..] == b[1..] + y;
    if a[0] == b[0] {
      Extended(a[1..], b[1..], x, y);
    }
  }

  /** On digit strings of one length, string order is numeric order. */
  lemma {:induction false} NumericIsLexical(a: string, b: string)
    requires |a| == |b| && Digits(a) && Digits(b) && Value(a) < Value(b)
    ensures LexLess(a, b)
    decreases |a|
  {
    var n := |a| - 1;
    var a', b' := a[..n], b[..n];
    assert a == a' + [a[n]] && b == b' + [b[n]];
    if Value(a') < Value(b') {
      NumericIsLexical(a', b');
      Extended(a', b', [a[n]], [b[n]]);
    } else {
      EqualValues(a', b');
      CommonPrefix(a', [a[n]], [b[n]]);
    }
  }

  function PaddedIndex(n: nat, i: nat): string {
    PadStart(Decimal(i + 1), |Decimal(n)|)
  }

  lemma PaddedIndexProperties(n: nat, i: nat)
    requires i < n
    ensures |PaddedIndex(n, i)| == |Decimal(n)| && PaddedIndex(n, i) != ""
    ensures Digits(PaddedIndex(n, i)) && Value(PaddedIndex(n, i)) == i + 1
  {
    DecimalValue(i + 1);
    DecimalValue(n);
    DecimalLength(i + 1, n);
    PaddedValue(Decimal(i + 1), |Decimal(n)|);
  }

  lemma ChunkNamesAscend(prefix: string, n: nat, i: nat, j: nat)
    requires i < j < n
    ensures LexLess(ChunkName(prefix, n, i), ChunkName(prefix, n, j))
  {
    var a, b := PaddedIndex(n, i), PaddedIndex(n, j);
    PaddedIndexProperties(n, i);
    PaddedIndexProperties(n, j);
    NumericIsLexical(a, b);
    Extended(a, b, ".json", ".json");
    NamesFollowIndices(prefix, a, b);
  }

  lemma NamesFollowIndices(prefix: string, a: string, b: string)
    requires LexLess(a + ".json", b + ".json")
    ensures LexLess(prefix + "-" + a + ".json", prefix + "-" + b + ".json")
  {
    CommonPrefix(prefix + "-", a + ".json", b + ".json");
    assert prefix + "-" + a + ".json" == prefix + "-" + (a + ".json");
    assert prefix + "-" + b + ".json" == prefix + "-" + (b + ".json");
  }

  lemma ChunkNameMatches(prefix: string, n: nat, i: nat)
    requires i < n
    ensures Matches(prefix, ChunkName(prefix, n, i))
  {
    PaddedIndexProperties(n, i);
    var digits := PaddedIndex(n, i);
    var name := ChunkName(prefix, n, i);
    var rest := name[|prefix|..];
    assert name == prefix + (("-" + digits) + ".json");
    assert rest == ("-" + digits) + ".json";
    assert rest[|rest| - 5..] == ".json";
    assert rest[1..|rest| - 5] == digits;
  }

  // ---- Sorting ----

  lemma {:induction false} NotLessBothWays(a: string, b: string)
    ensures !(LexLess(a, b) && LexLess(b, a))
  {
    if |a| > 0 && |b| > 0 && a[0] == b[0] {
      NotLessBothWays(a[1..], b[1..]);
    }
  }

  /** `out` is what sorting `listing` gives. */
  ghost predicate SortOf(out: seq<string>, listing: seq<string>) {
    && multiset(out) == multiset(listing)
    && forall i, j :: 0 <= i < j < |out| ==> !LexLess(out[j], out[i])
  }

  lemma SameLeast(names: seq<string>, out: seq<string>)
    requires forall i, j :: 0 <= i < j < |names| ==> LexLess(names[i], names[j])
    requires SortOf(out, names) && |names| > 0
    ensures |out| > 0 && out[0] == names[0]
  {
    assert names[0] in multiset(names);
    assert names[0] in multiset(out);
    var k :| 0 <= k < |out| && out[k] == names[0];
    assert out[0] in multiset(out);
    assert out[0] in multiset(names);
    var m :| 0 <= m < |names| && names[m] == out[0];
    NotLessBothWays(names[0], names[m]);
  }

  lemma MultisetTail<T>(s: seq<T>)
    requires |s| > 0
    ensures multiset(s[1..]) == multiset(s) - multiset{s[0]}
  {
    assert s == [s[0]] + s[1..];
  }

  /** A strictly ascending sequence is the only sorted arrangement of its elements. */
  lemma {:induction false} SortIsUnique(names: seq<string>, out: seq<string>)
    requires forall i, j :: 0 <= i < j < |names| ==> LexLess(names[i], names[j])
    requires SortOf(out, names)
    ensures out == names
    decreases |names|
  {
    if |names| == 0 {
      assert |multiset(out)| == |out|;
    } else {
      SameLeast(names, out);
      MultisetTail(names);
      MultisetTail(out);
      SortIsUnique(names[1..], out[1..]);
      assert names == [names[0]] + names[1..];
      assert out == [out[0]] + out[1..];
    }
  }

  /** However the directory lists the chunk files, sorting the names puts them in chunk order. */
  lemma SortedListingIsChunkOrder(prefix: string, n: nat, listing: seq<string>, out: seq<string>)
    requires multiset(listing) == multiset(ChunkNames(prefix, n)) && SortOf(out, listing)
    ensures out == ChunkNames(prefix, n)
  {
    var names := ChunkNames(prefix, n);
    forall i, j | 0 <= i < j < |names|
      ensures LexLess(names[i], names[j])
    {
      ChunkNamesAscend(prefix, n, i, j);
    }
    SortIsUnique(names, out);
  }

  /** The name of chunk `i` without padding. */
  function PlainName(prefix: string, i: nat): string {
    prefix + "-" + Decimal(i + 1) + ".json"
  }

  ghost predicate PlainNamesAscend(prefix: string, n: nat) {
    forall i, j :: 0 <= i < j < n ==> LexLess(PlainName(prefix, i), PlainName(prefix, j))
  }

  lemma TenBeforeNine(prefix: string)
    ensures !LexLess(PlainName(prefix, 8), PlainName(prefix, 9))
  {
    assert Decimal(9) == "9" && Decimal(10) == "10";
    CommonPrefix(prefix + "-", "9.json", "10.json");
    assert prefix + "-" + "9" + ".json" == prefix + "-" + "9.json";
    assert prefix + "-" + "10" + ".json" == prefix + "-" + "10.json";
  }

  /** Without the padding the names are in chunk order exactly up to nine chunks. */
  lemma UnpaddedOrderIff(prefix: string, n: nat)
    ensures PlainNamesAscend(prefix, n) <==> n < 10
  {
    if n < 10 {
      forall i, j | 0 <= i < j < n
        ensures LexLess(PlainName(prefix, i), PlainName(prefix, j))
      {
        DecimalValue(i + 1);
        DecimalValue(j + 1);
        NumericIsLexical(Decimal(i + 1), Decimal(j + 1));
        Extended(Decimal(i + 1), Decimal(j + 1), ".json", ".json");
        NamesFollowIndices(prefix, Decimal(i + 1), Decimal(j + 1));
      }
    } else {
      TenBeforeNine(prefix);
    }
  }
}
