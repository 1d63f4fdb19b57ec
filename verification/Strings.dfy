/** Cutting strings at a separator and joining them again. */
module Strings {

  /** The first position of `c` at or after `from`, or -1. */
  function IndexOf(s: string, c: char, from: nat): (i: int)
    ensures i == -1 ==> forall k :: from <= k < |s| ==> s[k] != c
    ensures i != -1 ==> from <= i < |s| && s[i] == c && forall k :: from <= k < i ==> s[k] != c
    decreases |s| - from
  {
    if from >= |s| then -1 else if s[from] == c then from else IndexOf(s, c, from + 1)
  }

  function LastIndexOf(s: string, c: char): (i: int)
    ensures i == -1 ==> c !in s
    ensures i != -1 ==> 0 <= i < |s| && s[i] == c && c !in s[i + 1..]
  {
    if |s| == 0 then -1
    else if s[|s| - 1] == c then |s| - 1
    else LastIndexOf(s[..|s| - 1], c)
  }

  /** `slice(0, end)`: a negative end counts from the back. */
  function SliceTo(s: string, end: int): string {
    if end >= |s| then s else if end >= 0 then s[..end] else if |s| + end > 0 then s[..|s| + end] else ""
  }

  function Split(s: string, c: char): (parts: seq<string>)
    ensures |parts| > 0
    decreases |s|
  {
    var i := IndexOf(s, c, 0);
    if i == -1 then [s] else [s[..i]] + Split(s[i + 1..], c)
  }

  function Join(parts: seq<string>, c: char): string {
    if |parts| == 0 then "" else if |parts| == 1 then parts[0] else parts[0] + [c] + Join(parts[1..], c)
  }

  lemma JoinCons(first: string, rest: seq<string>, c: char)
    requires |rest| > 0
    ensures Join([first] + rest, c) == first + [c] + Join(rest, c)
  {
    assert ([first] + rest)[1..] == rest;
  }

  lemma {:induction false} JoinSplit(s: string, c: char)
    ensures Join(Split(s, c), c) == s
    decreases |s|
  {
    var i := IndexOf(s, c, 0);
    if i != -1 {
      var rest := Split(s[i + 1..], c);
      JoinSplit(s[i + 1..], c);
      JoinCons(s[..i], rest, c);
      assert s == s[..i] + [c] + s[i + 1..];
    }
  }

  lemma SplitFirst(a: string, b: string, c: char)
    requires c !in a
    ensures Split(a + [c] + b, c) == [a] + Split(b, c)
  {
    var s := a + [c] + b;
    var i := IndexOf(s, c, 0);
    assert s[|a|] == c;
    assert i == |a|;
    assert s[..i] == a && s[i + 1..] == b;
  }

  lemma SplitPlain(a: string, c: char)
    requires c !in a
    ensures Split(a, c) == [a]
  {
  }

  lemma CutAt<T>(s: seq<T>, i: nat, c: T)
    requires i < |s| && s[i] == c
    ensures s == s[..i] + [c] + s[i + 1..]
  {
  }

  lemma Reassociate<T>(a: seq<T>, c: T, b: seq<T>, d: seq<T>)
    ensures a + [c] + b + [c] + d == a + [c] + (b + [c] + d)
  {
  }

  lemma Rebracket(first: string, rest: seq<string>, more: seq<string>)
    ensures [first] + (rest + more) == [first] + rest + more
  {
  }

  /** Cutting at a separator cuts both sides. */
  lemma {:induction false} SplitConcat(a: string, b: string, c: char)
    ensures Split(a + [c] + b, c) == Split(a, c) + Split(b, c)
    decreases |a|
  {
    var i := IndexOf(a, c, 0);
    if i == -1 {
      SplitFirst(a, b, c);
    } else {
      SplitConcat(a[i + 1..], b, c);
      SplitFurther(a[..i], a[i + 1..], b, c);
      CutAt(a, i, c);
    }
  }

  lemma SplitFurther(first: string, rest: string, b: string, c: char)
    requires c !in first && Split(rest + [c] + b, c) == Split(rest, c) + Split(b, c)
    ensures Split(first + [c] + rest + [c] + b, c) == Split(first + [c] + rest, c) + Split(b, c)
  {
    Reassociate(first, c, rest, b);
    SplitFirst(first, rest + [c] + b, c);
    SplitFirst(first, rest, c);
    Rebracket(first, Split(rest, c), Split(b, c));
  }

  lemma {:induction false} JoinConcat(a: seq<string>, b: seq<string>, c: char)
    requires |a| > 0 && |b| > 0
    ensures Join(a + b, c) == Join(a, c) + [c] + Join(b, c)
  {
    if |a| == 1 {
      assert a == [a[0]];
      JoinCons(a[0], b, c);
    } else {
      JoinConcat(a[1..], b, c);
      JoinCons(a[0], a[1..] + b, c);
      assert a + b == [a[0]] + (a[1..] + b);
    }
  }

  ghost predicate NoneHolds(parts: seq<string>, c: char) {
    forall part | part in parts :: c !in part
  }

  lemma {:induction false} SplitParts(s: string, c: char)
    ensures NoneHolds(Split(s, c), c)
    decreases |s|
  {
    var i := IndexOf(s, c, 0);
    if i != -1 {
      SplitParts(s[i + 1..], c);
    }
  }

  lemma {:induction false} SplitJoin(parts: seq<string>, c: char)
    requires |parts| > 0 && NoneHolds(parts, c)
    ensures Split(Join(parts, c), c) == parts
  {
    var first, rest := parts[0], parts[1..];
    assert first in parts;
    if |parts| == 1 {
      SplitPlain(first, c);
    } else {
      SplitJoin(rest, c);
      SplitFirst(first, Join(rest, c), c);
      HeadAndTail(parts);
    }
  }

  lemma HeadAndTail<T>(s: seq<T>)
    requires |s| > 0
    ensures s == [s[0]] + s[1..]
  {
  }
}
