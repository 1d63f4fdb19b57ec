/** Value types and sequence facts shared by the other modules. */
module Collections {

  datatype Option<+T> = None | Some(value: T)

  /** No element occurs at two positions. */
  ghost predicate Distinct<T(!new)>(s: seq<T>) {
    forall i, j :: 0 <= i < j < |s| ==> s[i] != s[j]
  }

  lemma DistinctSnoc<T(!new)>(s: seq<T>, x: T)
    ensures Distinct(s + [x]) <==> Distinct(s) && x !in s
  {
    var longer := s + [x];
    assert longer[|s|] == x && forall i :: 0 <= i < |s| ==> longer[i] == s[i];
  }

  lemma CardinalitySubset<T>(a: set<T>, b: set<T>)
    requires a <= b
    ensures |a| <= |b|
  {
    assert b == a + (b - a);
  }

  /** The elements of `s`, each once, in order of first occurrence. */
  function Firsts<T(==)>(s: seq<T>): seq<T> {
    if |s| == 0 then []
    else
      var init, last := s[..|s| - 1], s[|s| - 1];
      Firsts(init) + if last in init then [] else [last]
  }

  lemma {:induction false} FirstsMembers<T(!new)>(s: seq<T>)
    ensures Distinct(Firsts(s)) && forall x :: x in Firsts(s) <==> x in s
  {
    if |s| > 0 {
      FirstsMembers(s[..|s| - 1]);
      ConcatSnoc([], s);
    }
  }

  lemma FirstsSnoc<T>(s: seq<T>, x: T)
    ensures Firsts(s + [x]) == Firsts(s) + if x in s then [] else [x]
  {
    assert (s + [x])[..|s|] == s;
  }

  /** An element that is there already changes nothing, wherever it comes again. */
  lemma {:induction false} FirstsAgain<T>(a: seq<T>, x: T, b: seq<T>)
    requires x in a
    ensures Firsts(a + [x] + b) == Firsts(a + b)
  {
    if |b| == 0 {
      FirstsSnoc(a, x);
      assert a + [x] + b == a + [x] && a + b == a;
    } else {
      var init, last := b[..|b| - 1], b[|b| - 1];
      FirstsAgain(a, x, init);
      ConcatSnoc(a + [x], b);
      ConcatSnoc(a, b);
      FirstsSnoc(a + [x] + init, last);
      FirstsSnoc(a + init, last);
    }
  }

  lemma {:induction false} FirstsGrow<T>(a: seq<T>, b: seq<T>)
    ensures Firsts(a) <= Firsts(a + b)
  {
    if |b| == 0 {
      assert a + b == a;
    } else {
      FirstsGrow(a, b[..|b| - 1]);
      ConcatSnoc(a, b);
      FirstsSnoc(a + b[..|b| - 1], b[|b| - 1]);
    }
  }

  /** Distinct elements that are all in `b` are no more than `b` has. */
  lemma {:induction false} DistinctSubset<T(!new)>(a: seq<T>, b: seq<T>)
    requires Distinct(a) && forall x | x in a :: x in b
    ensures |a| <= |b|
  {
    if |a| > 0 {
      var init, last := a[..|a| - 1], a[|a| - 1];
      ConcatSnoc([], a);
      DistinctSnoc(init, last);
      assert last in a;
      var i :| 0 <= i < |b| && b[i] == last;
      forall x | x in init
        ensures x in b[..i] + b[i + 1..]
      {
        assert x in a;
        var j :| 0 <= j < |b| && b[j] == x;
        assert (b[..i] + b[i + 1..])[if j < i then j else j - 1] == x;
      }
      DistinctSubset(init, b[..i] + b[i + 1..]);
    }
  }

  lemma ConcatSnoc<T>(a: seq<T>, b: seq<T>)
    requires |b| > 0
    ensures a + b == a + b[..|b| - 1] + [b[|b| - 1]]
  {
  }

  function Flatten<T>(parts: seq<seq<T>>): seq<T> {
    if |parts| == 0 then [] else parts[0] + Flatten(parts[1..])
  }

  lemma {:induction false} FlattenConcat<T>(a: seq<seq<T>>, b: seq<seq<T>>)
    ensures Flatten(a + b) == Flatten(a) + Flatten(b)
  {
    if |a| == 0 {
      assert a + b == b;
    } else {
      assert (a + b)[1..] == a[1..] + b;
      FlattenConcat(a[1..], b);
    }
  }

  /** The first `k` parts flatten to a prefix of what all parts flatten to. */
  lemma FlattenPrefix<T>(parts: seq<seq<T>>, k: nat)
    requires k <= |parts|
    ensures Flatten(parts) == Flatten(parts[..k]) + Flatten(parts[k..])
  {
    assert parts == parts[..k] + parts[k..];
    FlattenConcat(parts[..k], parts[k..]);
  }

  /** The consecutive pieces of `s`, each of `size` elements but the last, which has what is left. */
  function Chunks<T>(s: seq<T>, size: nat): seq<seq<T>>
    requires size > 0
    decreases |s|
  {
    if |s| == 0 then []
    else if |s| <= size then [s]
    else [s[..size]] + Chunks(s[size..], size)
  }

  /** Chunking loses nothing, repeats nothing and keeps the order. */
  lemma {:induction false} FlattenChunks<T>(s: seq<T>, size: nat)
    requires size > 0
    ensures Flatten(Chunks(s, size)) == s
    decreases |s|
  {
    if |s| > size {
      var rest := Chunks(s[size..], size);
      FlattenChunks(s[size..], size);
      assert ([s[..size]] + rest)[1..] == rest;
      assert s == s[..size] + s[size..];
    } else if |s| > 0 {
      assert Chunks(s, size)[1..] == [];
    }
  }

  /** No chunk is empty or longer than `size`, and only the last may be shorter. */
  lemma {:induction false} ChunkSizes<T>(s: seq<T>, size: nat)
    requires size > 0
    ensures forall i :: 0 <= i < |Chunks(s, size)| ==> 1 <= |Chunks(s, size)[i]| <= size
    ensures forall i :: 0 <= i < |Chunks(s, size)| - 1 ==> |Chunks(s, size)[i]| == size
    decreases |s|
  {
    if |s| > size {
      ChunkSizes(s[size..], size);
    }
  }

  lemma {:induction false} ChunkMembers<T>(s: seq<T>, size: nat, i: nat)
    requires size > 0 && i < |Chunks(s, size)|
    ensures forall x | x in Chunks(s, size)[i] :: x in s
    decreases |s|
  {
    if |s| > size && i > 0 {
      ChunkMembers(s[size..], size, i - 1);
    }
  }

  function Least(a: nat, b: nat): nat {
    if a < b then a else b
  }

  function Most(a: nat, b: nat): nat {
    if a < b then b else a
  }

  /** The first `k` chunks hold the first `k * size` elements. */
  lemma {:induction false} ChunkPrefix<T>(s: seq<T>, size: nat, k: nat)
    requires size > 0 && k <= |Chunks(s, size)|
    ensures Flatten(Chunks(s, size)[..k]) == s[..Least(k * size, |s|)]
    ensures k * size < |s| <==> k < |Chunks(s, size)|
    decreases |s|
  {
    var chunks := Chunks(s, size);
    if k == 0 {
      assert chunks[..0] == [];
    } else if |s| <= size {
      assert chunks[..k] == [s] && chunks[..k][1..] == [];
      assert k == 1;
    } else {
      ChunkPrefix(s[size..], size, k - 1);
      assert chunks[..k] == [s[..size]] + Chunks(s[size..], size)[..k - 1];
      assert chunks[..k][1..] == Chunks(s[size..], size)[..k - 1];
      OneMoreTime(k, size);
      var rest := s[size..];
      assert s[..size] + rest[..Least((k - 1) * size, |rest|)] == s[..Least(k * size, |s|)];
    }
  }

  lemma OneMoreTime(k: nat, size: nat)
    requires k > 0
    ensures k * size == (k - 1) * size + size
  {
  }

  /** The chunks of what is left from `i`, when something is. */
  function ChunksFrom<T>(s: seq<T>, size: nat, i: nat): seq<seq<T>>
    requires size > 0
  {
    if i < |s| then Chunks(s[i..], size) else []
  }

  lemma NextChunk<T>(s: seq<T>, size: nat, i: nat)
    requires size > 0 && i < |s|
    ensures var end := if i + size < |s| then i + size else |s|;
            ChunksFrom(s, size, i) == [s[i..end]] + ChunksFrom(s, size, i + size)
  {
    if i + size < |s| {
      assert s[i..][size..] == s[i + size..];
      assert s[i..][..size] == s[i..i + size];
    } else {
      assert s[i..] == s[i..|s|];
    }
  }

  lemma MoveAcross<T>(done: seq<T>, x: T, rest: seq<T>)
    ensures done + [x] + rest == done + ([x] + rest)
  {
  }

  lemma ChunkTaken<T>(items: seq<T>, size: nat, i: nat, chunks: seq<seq<T>>, all: seq<seq<T>>)
    requires size > 0 && i < |items| && chunks + ChunksFrom(items, size, i) == all
    ensures var end := if i + size < |items| then i + size else |items|;
            chunks + [items[i..end]] + ChunksFrom(items, size, i + size) == all
  {
    var end := if i + size < |items| then i + size else |items|;
    NextChunk(items, size, i);
    MoveAcross(chunks, items[i..end], ChunksFrom(items, size, i + size));
  }

  lemma NothingTaken<T>(items: seq<T>, size: nat)
    requires size > 0
    ensures [] + ChunksFrom(items, size, 0) == Chunks(items, size)
  {
    assert items[0..] == items;
  }

  /** The slicing loop that the upgrade and migration scripts share. */
  method ChunkArray<T>(items: seq<T>, size: nat) returns (chunks: seq<seq<T>>)
    requires size > 0
    ensures chunks == Chunks(items, size)
  {
    chunks := [];
    ghost var all := Chunks(items, size);
    var i := 0;
    NothingTaken(items, size);
    while i < |items|
      invariant 0 <= i
      invariant chunks + ChunksFrom(items, size, i) == all
    {
      ChunkTaken(items, size, i, chunks, all);
      var end := if i + size < |items| then i + size else |items|;
      chunks := chunks + [items[i..end]];
      i := i + size;
    }
  }

  /** A JavaScript Map: values by key, iterated in order of first insertion. */
  datatype JsMap<K(==, !new), V> = JsMap(order: seq<K>, at: map<K, V>) {
    ghost predicate Valid() {
      && Distinct(order)
      && (forall k | k in order :: k in at)
      && (forall k | k in at :: k in order)
    }

    function Set(k: K, v: V): (r: JsMap<K, V>)
      requires Valid()
      ensures r.Valid()
      ensures r.at == at[k := v]
      ensures r.order == if k in at then order else order + [k]
    {
      if k in at then JsMap(order, at[k := v]) else JsMap(order + [k], at[k := v])
    }

    function Delete(k: K): (r: JsMap<K, V>)
      requires Valid()
      ensures r.Valid()
      ensures r.at == at - {k}
    {
      WithoutKey(order, k);
      assert forall x | x in Without(order, k) :: x in at && x != k;
      JsMap(Without(order, k), at - {k})
    }
  }

  function Without<K(==)>(s: seq<K>, k: K): seq<K> {
    if |s| == 0 then []
    else (if s[0] == k then [] else [s[0]]) + Without(s[1..], k)
  }

  lemma {:induction false} WithoutKey<K(!new)>(s: seq<K>, k: K)
    ensures forall x | x in s && x != k :: x in Without(s, k)
    ensures forall x | x in Without(s, k) :: x in s && x != k
    ensures Distinct(s) ==> Distinct(Without(s, k))
  {
    if |s| > 0 {
      WithoutKey(s[1..], k);
      var rest := Without(s[1..], k);
      if Distinct(s) {
        assert Distinct(s[1..]);
        assert s[0] !in rest by {
          assert s[0] !in s[1..];
        }
      }
    }
  }
}
