/** Tracing a contract's imports and stubbing every source the contract does not need. */
module Imports {
  import opened Collections
  import opened FileNames
  import opened Strings

  // ---- Resolving one import ----

  /** Dots are dropped, and a double dot drops what precedes it. */
  function Normalize(parts: seq<string>): seq<string> {
    if |parts| == 0 then []
    else
      var before, last := Normalize(parts[..|parts| - 1]), parts[|parts| - 1];
      if last == ".." then (if |before| > 0 then before[..|before| - 1] else [])
      else if last == "." then before
      else before + [last]
  }

  function NormalPath(path: string): string {
    Join(Normalize(Split(path, '/')), '/')
  }

  /** A path whose every segment is a name. */
  ghost predicate DotFree(path: string) {
    NoDots(Split(path, '/'))
  }

  /** The result is the normal form of the path: free of dots, and the path itself if that already was. */
  method NormalizePath(path: string) returns (r: string)
    ensures r == NormalPath(path) == NormalPath(r)
    ensures DotFree(r) && (r == path <==> DotFree(path))
  {
    var parts, norm := Split(path, '/'), [];
    for i := 0 to |parts|
      invariant norm == Normalize(parts[..i])
    {
      assert parts[..i + 1][..i] == parts[..i];
      if parts[i] == ".." {
        norm := if |norm| > 0 then norm[..|norm| - 1] else [];
      } else if parts[i] != "." {
        norm := norm + [parts[i]];
      }
    }
    assert parts[..|parts|] == parts;
    r := Join(norm, '/');
    NormalPathIsNormal(path);
  }

  function Relative(imp: string, from: string): string {
    NormalPath(SliceTo(from, LastIndexOf(from, '/')) + "/" + imp)
  }

  /** What a remapping makes of an import: `context:prefix=target`, the context being ignored. */
  function Remap(remap: string, imp: string): Option<string> {
    var eq := IndexOf(remap, '=', 0);
    if eq == -1 then None
    else
      var prefix := remap[..eq];
      var colon := IndexOf(prefix, ':', 0);
      var match_ := if colon >= 0 then prefix[colon + 1..] else prefix;
      if match_ <= imp then Some(remap[eq + 1..] + imp[|match_|..]) else None
  }

  function Remapped(remappings: seq<string>, imp: string, allPaths: set<string>): Option<string>
  {
    if |remappings| == 0 then None
    else
      var r := Remap(remappings[0], imp);
      if r.Some? && r.value in allPaths then r else Remapped(remappings[1..], imp, allPaths)
  }

  /** The first remapping that names a source, else the import itself, else the path relative to the importer. */
  function Resolve(imp: string, from: string, remappings: seq<string>, allPaths: set<string>): Option<string> {
    var r := Remapped(remappings, imp, allPaths);
    if r.Some? then r
    else if imp in allPaths then Some(imp)
    else if Relative(imp, from) in allPaths then Some(Relative(imp, from))
    else None
  }

  method ResolveImport(imp: string, from: string, remappings: seq<string>, allPaths: set<string>)
      returns (r: Option<string>)
    ensures r == Resolve(imp, from, remappings, allPaths)
    ensures r.Some? ==> r.value in allPaths
  {
    for i := 0 to |remappings|
      invariant Remapped(remappings, imp, allPaths) == Remapped(remappings[i..], imp, allPaths)
    {
      var resolved := Remap(remappings[i], imp);
      if resolved.Some? && resolved.value in allPaths {
        return resolved;
      }
    }
    if imp in allPaths {
      return Some(imp);
    }
    var rel := NormalizePath(SliceTo(from, LastIndexOf(from, '/')) + "/" + imp);
    return if rel in allPaths then Some(rel) else None;
  }

  // ---- What a remapping's text says ----

  /** A remapping as it is meant: imports that start with `prefix` start with `target` instead. */
  datatype Remapping = Remapping(context: Option<string>, prefix: string, target: string) {
    /** The target may hold any character, the context no separator, the prefix none that would end it. */
    predicate Writable() {
      && '=' !in prefix && (context == None ==> ':' !in prefix)
      && (context.Some? ==> '=' !in context.value && ':' !in context.value)
    }

    function Text(): string {
      (if context.Some? then context.value + ":" else "") + prefix + "=" + target
    }
  }

  lemma CutAtFirst(head: string, c: char, tail: string)
    requires c !in head
    ensures var s := head + [c] + tail;
            IndexOf(s, c, 0) == |head| && s[..|head|] == head && s[|head| + 1..] == tail
  {
    var s := head + [c] + tail;
    assert s[|head|] == c && forall k | 0 <= k < |head| :: s[k] == head[k];
  }

  /** What stands before the equals sign, without its context. */
  function Pattern(head: string): string {
    var colon := IndexOf(head, ':', 0);
    if colon >= 0 then head[colon + 1..] else head
  }

  lemma RemapAt(head: string, target: string, imp: string)
    requires '=' !in head
    ensures Remap(head + "=" + target, imp) ==
            if Pattern(head) <= imp then Some(target + imp[|Pattern(head)|..]) else None
  {
    CutAtFirst(head, '=', target);
  }

  /** Any remapping, written as a text, rewrites exactly the imports that start with its prefix. */
  lemma RemapText(r: Remapping, imp: string)
    requires r.Writable()
    ensures r.prefix <= imp ==> Remap(r.Text(), imp) == Some(r.target + imp[|r.prefix|..])
    ensures !(r.prefix <= imp) ==> Remap(r.Text(), imp) == None
  {
    if r.context.Some? {
      CutAtFirst(r.context.value, ':', r.prefix);
      RemapAt(r.context.value + ":" + r.prefix, r.target, imp);
    } else {
      assert "" + r.prefix == r.prefix;
      RemapAt(r.prefix, r.target, imp);
    }
  }

  function Texts(rs: seq<Remapping>): seq<string> {
    seq(|rs|, i requires 0 <= i < |rs| => rs[i].Text())
  }

  /** The remapping's prefix begins the import, and the remapped path names a source. */
  ghost predicate Hits(r: Remapping, imp: string, allPaths: set<string>) {
    r.prefix <= imp && r.target + imp[|r.prefix|..] in allPaths
  }

  lemma {:induction false} FirstHitRemaps(rs: seq<Remapping>, imp: string, allPaths: set<string>, i: nat)
    requires forall r | r in rs :: r.Writable()
    requires i <= |rs| && forall j | 0 <= j < i :: !Hits(rs[j], imp, allPaths)
    requires i < |rs| ==> Hits(rs[i], imp, allPaths)
    ensures Remapped(Texts(rs), imp, allPaths) ==
            if i < |rs| then Some(rs[i].target + imp[|rs[i].prefix|..]) else None
  {
    if |rs| > 0 {
      RemapText(rs[0], imp);
      assert Texts(rs)[1..] == Texts(rs[1..]);
      if i > 0 {
        FirstHitRemaps(rs[1..], imp, allPaths, i - 1);
      }
    }
  }

  /** The import is resolved by the first remapping that hits (`i`), and without one as itself or relatively. */
  lemma ResolvesByFirstHit(rs: seq<Remapping>, imp: string, from: string, allPaths: set<string>, i: nat)
    requires forall r | r in rs :: r.Writable()
    requires i <= |rs| && forall j | 0 <= j < i :: !Hits(rs[j], imp, allPaths)
    requires i < |rs| ==> Hits(rs[i], imp, allPaths)
    ensures i < |rs| ==> Resolve(imp, from, Texts(rs), allPaths) == Some(rs[i].target + imp[|rs[i].prefix|..])
    ensures i == |rs| && imp in allPaths ==> Resolve(imp, from, Texts(rs), allPaths) == Some(imp)
    ensures i == |rs| && imp !in allPaths ==>
              Resolve(imp, from, Texts(rs), allPaths) ==
              if Relative(imp, from) in allPaths then Some(Relative(imp, from)) else None
  {
    FirstHitRemaps(rs, imp, allPaths, i);
  }

  // ---- Tracing ----

  /** The build's sources, how its imports are parsed, and its remappings. */
  datatype Build = Build(sources: JsMap<string, string>, parse: string -> seq<string>, remappings: seq<string>)

  /** `a` imports `b`; an import that resolves to the empty path is not followed. */
  ghost predicate Edge(g: Build, a: string, b: string) {
    && a in g.sources.at && b != ""
    && exists imp :: imp in g.parse(g.sources.at[a]) && Resolve(imp, a, g.remappings, g.sources.at.Keys) == Some(b)
  }

  ghost predicate IsPath(g: Build, p: seq<string>) {
    |p| > 0 && forall i :: 0 <= i < |p| - 1 ==> Edge(g, p[i], p[i + 1])
  }

  ghost predicate Reaches(g: Build, a: string, b: string) {
    exists p :: IsPath(g, p) && p[0] == a && p[|p| - 1] == b
  }

  lemma ReachesItself(g: Build, a: string)
    ensures Reaches(g, a, a)
  {
    assert IsPath(g, [a]);
  }

  lemma ReachesFurther(g: Build, a: string, b: string, c: string)
    requires Reaches(g, a, b) && Edge(g, b, c)
    ensures Reaches(g, a, c)
  {
    var p :| IsPath(g, p) && p[0] == a && p[|p| - 1] == b;
    assert IsPath(g, p + [c]);
  }

  ghost predicate Closed(g: Build, s: set<string>) {
    forall a, b :: a in s && Edge(g, a, b) ==> b in s
  }

  lemma {:induction false} ClosedHoldsPaths(g: Build, s: set<string>, p: seq<string>)
    requires Closed(g, s) && IsPath(g, p) && p[0] in s
    ensures p[|p| - 1] in s
  {
    if |p| > 1 {
      assert Edge(g, p[0], p[1]);
      assert IsPath(g, p[1..]) by {
        forall i | 0 <= i < |p[1..]| - 1
          ensures Edge(g, p[1..][i], p[1..][i + 1])
        {
          assert Edge(g, p[i + 1], p[i + 2]);
        }
      }
      ClosedHoldsPaths(g, s, p[1..]);
    }
  }

  lemma ImportIsEdge(g: Build, a: string, imp: string, b: string)
    requires a in g.sources.at && imp in g.parse(g.sources.at[a]) && b != ""
    requires Resolve(imp, a, g.remappings, g.sources.at.Keys) == Some(b)
    ensures Edge(g, a, b)
  {
  }

  /** Pushes the unvisited imports of one source. */
  method PushImports(g: Build, cur: string, visited: set<string>, queue: seq<string>) returns (more: seq<string>)
    requires cur in g.sources.at
    ensures forall b :: b in queue ==> b in more
    ensures forall b :: Edge(g, cur, b) ==> b in visited || b in more
    ensures forall b :: b in more ==> b in queue || Edge(g, cur, b)
    ensures forall b :: b in more ==> b in queue || b in g.sources.at
  {
    var imports, allPaths := g.parse(g.sources.at[cur]), g.sources.at.Keys;
    more := queue;
    for i := 0 to |imports|
      invariant forall b :: b in queue ==> b in more
      invariant forall j :: 0 <= j < i ==>
                  var r := Resolve(imports[j], cur, g.remappings, allPaths);
                  r.Some? && r.value != "" ==> r.value in visited || r.value in more
      invariant forall b :: b in more ==> b in queue || Edge(g, cur, b)
      invariant forall b :: b in more ==> b in queue || b in allPaths
    {
      var r := ResolveImport(imports[i], cur, g.remappings, allPaths);
      if r.Some? && r.value != "" && r.value !in visited {
        ImportIsEdge(g, cur, imports[i], r.value);
        more := more + [r.value];
      }
    }
  }

  /** The import resolves, seen from source `a`, to the source `b`. */
  ghost predicate Imported(g: Build, a: string, imp: string, b: string)
    requires a in g.sources.at
  {
    imp in g.parse(g.sources.at[a]) && Resolve(imp, a, g.remappings, g.sources.at.Keys) == Some(b)
  }

  /** No import of a visited source is missing, unless it resolves to the empty path, and none is there unasked. */
  ghost predicate IsClosure(g: Build, root: string, visited: set<string>) {
    && root in visited
    && (forall a, imp, b | a in visited && a in g.sources.at && Imported(g, a, imp, b) && b != "" :: b in visited)
    && (forall b | b in visited && b != root ::
          exists a, imp :: a in visited && a in g.sources.at && Imported(g, a, imp, b) && b != "")
  }

  lemma ReachIsClosure(g: Build, root: string, visited: set<string>)
    requires forall x :: x in visited <==> Reaches(g, root, x)
    ensures IsClosure(g, root, visited)
  {
    ReachesItself(g, root);
    forall a, imp, b | a in visited && a in g.sources.at && Imported(g, a, imp, b) && b != ""
      ensures b in visited
    {
      ReachesFurther(g, root, a, b);
    }
    forall b | b in visited && b != root
      ensures exists a, imp :: a in visited && a in g.sources.at && Imported(g, a, imp, b) && b != ""
    {
      var p :| IsPath(g, p) && p[0] == root && p[|p| - 1] == b;
      var n := |p| - 2;
      PathInReach(g, p, n);
      assert Edge(g, p[n], p[n + 1]);
      var imp :| imp in g.parse(g.sources.at[p[n]]) && Resolve(imp, p[n], g.remappings, g.sources.at.Keys) == Some(b);
      assert Imported(g, p[n], imp, b);
    }
  }

  /** For cyclic import graphs, too: exactly what the root reaches. */
  method TraceImports(root: string, g: Build) returns (visited: set<string>)
    ensures forall x :: x in visited <==> Reaches(g, root, x)
    ensures IsClosure(g, root, visited)
  {
    visited := {};
    var queue := [root];
    ghost var all := g.sources.at.Keys + {root};
    ReachesItself(g, root);
    while |queue| > 0
      invariant visited <= all && forall x :: x in queue ==> x in all
      invariant root in visited || root in queue
      invariant forall x :: x in visited || x in queue ==> Reaches(g, root, x)
      invariant forall a, b :: a in visited && Edge(g, a, b) ==> b in visited || b in queue
      decreases all - visited, |queue|
    {
      var cur := queue[|queue| - 1];
      assert queue == queue[..|queue| - 1] + [cur];
      queue := queue[..|queue| - 1];
      if cur in visited {
        continue;
      }
      visited := visited + {cur};
      if cur !in g.sources.at {
        continue;
      }
      var more := PushImports(g, cur, visited, queue);
      forall b | b in more
        ensures Reaches(g, root, b)
      {
        if b !in queue {
          ReachesFurther(g, root, cur, b);
        }
      }
      queue := more;
    }
    assert Closed(g, visited);
    forall x | Reaches(g, root, x)
      ensures x in visited
    {
      var p :| IsPath(g, p) && p[0] == root && p[|p| - 1] == x;
      ClosedHoldsPaths(g, visited, p);
    }
    ReachIsClosure(g, root, visited);
  }

  // ---- Stubbing ----

  function Stub(i: nat): string {
    "pragma solidity >=0.8.18; contract S" + Decimal(i) + " {}"
  }

  /** How many of the first `n` paths are stubbed. */
  function StubsBefore<P(==)>(order: seq<P>, needed: set<P>, n: nat): nat
    requires n <= |order|
  {
    if n == 0 then 0 else StubsBefore(order, needed, n - 1) + if order[n - 1] in needed then 0 else 1
  }

  function Content<P(==, !new), C>(sources: JsMap<P, C>, needed: set<P>, stub: nat -> C, i: nat): C
    requires i < |sources.order| && sources.order[i] in sources.at
  {
    if sources.order[i] in needed then sources.at[sources.order[i]] else stub(StubsBefore(sources.order, needed, i))
  }

  ghost predicate HasContent<P(!new), C>(sources: JsMap<P, C>, needed: set<P>, stub: nat -> C, out: map<P, C>, i: int)
    requires sources.Valid() && 0 <= i < |sources.order|
  {
    && sources.order[i] in sources.order && sources.order[i] in out
    && out[sources.order[i]] == Content(sources, needed, stub, i)
  }

  ghost predicate Stubbed<P(!new), C>(sources: JsMap<P, C>, needed: set<P>, stub: nat -> C, out: map<P, C>, n: nat)
    requires sources.Valid() && n <= |sources.order|
  {
    forall i :: 0 <= i < n ==> HasContent(sources, needed, stub, out, i)
  }

  lemma StubOneMore<P(!new), C>(sources: JsMap<P, C>, needed: set<P>, stub: nat -> C, out: JsMap<P, C>, i: nat)
    requires sources.Valid() && i < |sources.order| && out.Valid() && out.order == sources.order[..i]
    requires Stubbed(sources, needed, stub, out.at, i)
    ensures sources.order[i] in sources.order
    ensures var next := out.Set(sources.order[i], Content(sources, needed, stub, i));
            next.order == sources.order[..i + 1] && Stubbed(sources, needed, stub, next.at, i + 1)
  {
    var path := sources.order[i];
    assert path in sources.order && path !in sources.order[..i];
    assert sources.order[..i + 1] == sources.order[..i] + [path];
    var next := out.at[path := Content(sources, needed, stub, i)];
    forall j | 0 <= j < i + 1
      ensures HasContent(sources, needed, stub, next, j)
    {
      if j < i {
        assert HasContent(sources, needed, stub, out.at, j);
      }
    }
  }

  /** The loop over the sources, for any way to write a stub. */
  method StubSources<P(==, !new), C>(sources: JsMap<P, C>, needed: set<P>, stub: nat -> C) returns (out: JsMap<P, C>)
    requires sources.Valid()
    ensures out.Valid() && out.order == sources.order && Stubbed(sources, needed, stub, out.at, |sources.order|)
  {
    var order := sources.order;
    out := JsMap([], map[]);
    var stubIdx := 0;
    for i := 0 to |order|
      invariant out.Valid() && out.order == order[..i] && stubIdx == StubsBefore(order, needed, i)
      invariant Stubbed(sources, needed, stub, out.at, i)
    {
      StubOneMore(sources, needed, stub, out, i);
      var content := if order[i] in needed then sources.at[order[i]] else stub(stubIdx);
      assert content == Content(sources, needed, stub, i);
      out := out.Set(order[i], content);
      if order[i] !in needed {
        stubIdx := stubIdx + 1;
      }
    }
    assert order[..|order|] == order;
  }

  /** The same files in the same order: the needed ones as they are, each other one with a text of its own. */
  ghost predicate KeepsNeeded<P(!new), C>(sources: JsMap<P, C>, needed: set<P>, out: JsMap<P, C>) {
    && out.Valid() && out.order == sources.order && out.at.Keys == sources.at.Keys
    && (forall path | path in out.at && path in needed :: out.at[path] == sources.at[path])
    && (forall p, q | p in out.at && q in out.at && p != q && p !in needed && q !in needed :: out.at[p] != out.at[q])
  }

  lemma StubbedKeepsNeeded<P(!new), C>(sources: JsMap<P, C>, needed: set<P>, stub: nat -> C, out: JsMap<P, C>)
    requires sources.Valid() && out.Valid() && out.order == sources.order
    requires Stubbed(sources, needed, stub, out.at, |sources.order|)
    requires forall m: nat, n: nat :: m < n ==> stub(m) != stub(n)
    ensures KeepsNeeded(sources, needed, out)
  {
    var order := sources.order;
    forall path
      ensures path in out.at <==> path in sources.at
    {
      assert path in out.at <==> path in order;
    }
    forall path | path in out.at && path in needed
      ensures out.at[path] == sources.at[path]
    {
      var i :| 0 <= i < |order| && order[i] == path;
      assert HasContent(sources, needed, stub, out.at, i);
    }
    forall p, q | p in out.at && q in out.at && p != q && p !in needed && q !in needed
      ensures out.at[p] != out.at[q]
    {
      var i :| 0 <= i < |order| && order[i] == p;
      var j :| 0 <= j < |order| && order[j] == q;
      assert HasContent(sources, needed, stub, out.at, i) && HasContent(sources, needed, stub, out.at, j);
      StubsGrow(order, needed, if i < j then i else j, if i < j then j else i);
    }
  }

  lemma {:induction false} StubsGrow<P>(order: seq<P>, needed: set<P>, i: nat, j: nat)
    requires i < j <= |order| && order[i] !in needed
    ensures StubsBefore(order, needed, i) < StubsBefore(order, needed, j)
  {
    if i < j - 1 {
      StubsGrow(order, needed, i, j - 1);
    }
  }

  method BuildStubbedInput(g: Build, root: string) returns (out: JsMap<string, string>, needed: set<string>)
    requires g.sources.Valid()
    ensures forall x :: x in needed <==> Reaches(g, root, x)
    ensures KeepsNeeded(g.sources, needed, out)
    ensures Stubbed(g.sources, needed, Stub, out.at, |g.sources.order|)
    ensures forall path | path in out.at && path !in needed :: IsStub(out.at[path])
  {
    needed := TraceImports(root, g);
    out := StubSources(g.sources, needed, Stub);
    forall m: nat, n: nat | m < n
      ensures Stub(m) != Stub(n)
    {
      StubsDiffer(m, n);
    }
    StubbedKeepsNeeded(g.sources, needed, Stub, out);
    StubTexts(g.sources, needed, out);
  }

  /** A numbered contract without anything in it. */
  ghost predicate IsStub(text: string) {
    exists i: nat :: text == "pragma solidity >=0.8.18; contract S" + Decimal(i) + " {}"
  }

  lemma StubTexts(sources: JsMap<string, string>, needed: set<string>, out: JsMap<string, string>)
    requires sources.Valid() && out.Valid() && out.order == sources.order
    requires Stubbed(sources, needed, Stub, out.at, |sources.order|)
    ensures forall path | path in out.at && path !in needed :: IsStub(out.at[path])
  {
    forall path | path in out.at && path !in needed
      ensures IsStub(out.at[path])
    {
      assert path in out.order;
      var k :| 0 <= k < |sources.order| && sources.order[k] == path;
      assert HasContent(sources, needed, Stub, out.at, k);
    }
  }

  lemma StubsDiffer(m: nat, n: nat)
    requires m != n
    ensures Stub(m) != Stub(n)
  {
    DecimalValue(m);
    DecimalValue(n);
    SameStubSameDigits(m, n);
  }

  lemma SameStubSameDigits(m: nat, n: nat)
    ensures Stub(m) == Stub(n) ==> Decimal(m) == Decimal(n)
  {
    var head, tail := "pragma solidity >=0.8.18; contract S", " {}";
    assert Decimal(m) == (head + Decimal(m) + tail)[|head|..|Stub(m)| - |tail|];
    assert Decimal(n) == (head + Decimal(n) + tail)[|head|..|Stub(n)| - |tail|];
  }

  // ---- Stubbing keeps the import graph ----

  lemma {:induction false} PathInReach(g: Build, p: seq<string>, i: nat)
    requires IsPath(g, p) && i < |p|
    ensures Reaches(g, p[0], p[i])
  {
    assert IsPath(g, p[..i + 1]);
  }

  /** The stubbed build has the same contract closure: whoever is compiled with the root sees what it saw before. */
  lemma StubbingKeepsReach(g: Build, root: string, needed: set<string>, out: JsMap<string, string>, x: string)
    requires KeepsNeeded(g.sources, needed, out) && forall y :: y in needed <==> Reaches(g, root, y)
    ensures Reaches(g.(sources := out), root, x) <==> Reaches(g, root, x)
  {
    var h := g.(sources := out);
    forall a, b | a in needed
      ensures Edge(g, a, b) <==> Edge(h, a, b)
    {
    }
    if Reaches(g, root, x) {
      var p :| IsPath(g, p) && p[0] == root && p[|p| - 1] == x;
      forall i | 0 <= i < |p| - 1
        ensures Edge(h, p[i], p[i + 1])
      {
        PathInReach(g, p, i);
      }
      assert IsPath(h, p);
    }
    if Reaches(h, root, x) {
      ReachesItself(g, root);
      forall a, b | a in needed && Edge(h, a, b)
        ensures b in needed
      {
        ReachesFurther(g, root, a, b);
      }
      var p :| IsPath(h, p) && p[0] == root && p[|p| - 1] == x;
      ClosedHoldsPaths(h, needed, p);
    }
  }

  // ---- What a path's normal form is ----

  predicate IsName(part: string) {
    part != "." && part != ".."
  }

  ghost predicate NoDots(parts: seq<string>) {
    forall part | part in parts :: IsName(part)
  }

  lemma NormalizeSnoc(parts: seq<string>, last: string)
    ensures Normalize(parts + [last]) ==
            if last == ".." then Up(Normalize(parts))
            else if last == "." then Normalize(parts) else Normalize(parts) + [last]
  {
    assert (parts + [last])[..|parts|] == parts;
  }

  function Up(parts: seq<string>): seq<string> {
    if |parts| > 0 then parts[..|parts| - 1] else []
  }

  ghost predicate NamesFrom(names: seq<string>, parts: seq<string>) {
    forall part | part in names :: IsName(part) && part in parts
  }

  lemma UpNames(names: seq<string>, parts: seq<string>)
    requires NamesFrom(names, parts)
    ensures NamesFrom(Up(names), parts)
  {
    assert forall part | part in Up(names) :: part in names;
  }

  lemma MoreNames(names: seq<string>, parts: seq<string>, last: string)
    requires NamesFrom(names, parts)
    ensures NamesFrom(names, parts + [last])
    ensures IsName(last) ==> NamesFrom(names + [last], parts + [last])
  {
    assert forall part | part in names + [last] :: part in names || part == last;
    assert (parts + [last])[|parts|] == last;
  }

  /** A normal form has only names, all of them from the path. */
  lemma {:induction false} NormalizeNames(parts: seq<string>)
    ensures NamesFrom(Normalize(parts), parts)
  {
    if |parts| > 0 {
      var init, last := parts[..|parts| - 1], parts[|parts| - 1];
      NormalizeNames(init);
      assert parts == init + [last];
      NormalizeSnoc(init, last);
      if last == ".." {
        UpNames(Normalize(init), init);
        MoreNames(Up(Normalize(init)), init, last);
      } else {
        MoreNames(Normalize(init), init, last);
      }
    }
  }

  lemma NormalizeIsDotFree(parts: seq<string>)
    ensures NoDots(Normalize(parts)) && forall part | part in Normalize(parts) :: part in parts
  {
    NormalizeNames(parts);
  }

  lemma {:induction false} DotFreeIsNormal(parts: seq<string>)
    requires NoDots(parts)
    ensures Normalize(parts) == parts
  {
    if |parts| > 0 {
      var init := parts[..|parts| - 1];
      DotFreeIsNormal(init);
      assert parts == init + [parts[|parts| - 1]];
      assert parts[|parts| - 1] in parts && forall part | part in init :: part in parts;
    }
  }

  /** A path's beginning may be normalized first. */
  lemma {:induction false} NormalizeConcat(a: seq<string>, b: seq<string>)
    ensures Normalize(a + b) == Normalize(Normalize(a) + b)
  {
    if |b| == 0 {
      NormalizeIsDotFree(a);
      DotFreeIsNormal(Normalize(a));
      assert a + b == a && Normalize(a) + b == Normalize(a);
    } else {
      var init, last, norm := b[..|b| - 1], b[|b| - 1], Normalize(a);
      NormalizeConcat(a, init);
      NormalizeSnoc(a + init, last);
      NormalizeSnoc(norm + init, last);
      ConcatSnoc(a, b);
      ConcatSnoc(norm, b);
    }
  }

  /** Anywhere in a path, a dot means nothing and a double dot takes back the name before it, if there is one. */
  lemma DotsAnywhere(a: seq<string>, name: string, b: seq<string>)
    ensures Normalize(a + (["."] + b)) == Normalize(a + b)
    ensures IsName(name) ==> Normalize(a + ([name] + ([".."] + b))) == Normalize(a + b)
    ensures Normalize([".."] + b) == Normalize(b)
  {
    NormalizeSnoc(a, ".");
    NormalizeSnoc(a, name);
    NormalizeSnoc(a + [name], "..");
    NormalizeSnoc([], "..");
    SameStart(a + ["."], a, b);
    SameStart(a + [name] + [".."], a, b);
    SameStart([] + [".."], [], b);
    Regroup(a, ["."], [], b);
    Regroup(a, [name], [".."], b);
    Regroup([], [], [".."], b);
  }

  lemma SameStart(a: seq<string>, a': seq<string>, b: seq<string>)
    ensures Normalize(a) == Normalize(a') ==> Normalize(a + b) == Normalize(a' + b)
  {
    NormalizeConcat(a, b);
    NormalizeConcat(a', b);
  }

  lemma Regroup<T>(a: seq<T>, x: seq<T>, y: seq<T>, b: seq<T>)
    ensures a + x + y + b == a + (x + (y + b))
    ensures y == [] ==> a + x + b == a + (x + b)
    ensures a == [] ==> a + y + b == y + b && a + b == b
  {
  }

  /** The three rewritings: dropping a dot, a name with the double dot after it, and a double dot in front. */
  predicate KeepsForm(f: seq<string> -> seq<string>, a: seq<string>, name: string, b: seq<string>) {
    && f(a + (["."] + b)) == f(a + b)
    && (IsName(name) ==> f(a + ([name] + ([".."] + b))) == f(a + b))
    && f([".."] + b) == f(b)
  }

  /** The laws of dots: a path of names is its own normal form, and the rewritings keep the normal form. */
  ghost predicate DotLaws(f: seq<string> -> seq<string>) {
    && (forall parts :: NoDots(parts) ==> f(parts) == parts)
    && forall a, name, b :: KeepsForm(f, a, name, b)
  }

  lemma SplitLast(norm: seq<string>, b: seq<string>)
    requires |norm| > 0
    ensures norm + b == Up(norm) + ([norm[|norm| - 1]] + b)
  {
  }

  /** A beginning may be normalized first under any function that obeys the laws. */
  lemma {:induction false} LawsNormalize(f: seq<string> -> seq<string>, a: seq<string>, b: seq<string>)
    requires DotLaws(f)
    ensures f(a + b) == f(Normalize(a) + b)
  {
    if |a| > 0 {
      var init, last := a[..|a| - 1], a[|a| - 1];
      LawsNormalize(f, init, [last] + b);
      NormalizeIsDotFree(init);
      LawsOnLast(f, Normalize(init), last, b);
      NormalizeSnoc(init, last);
      assert a == init + [last];
      assert a + b == init + ([last] + b);
    } else {
      assert a == Normalize(a);
    }
  }

  /** One segment after a normal form. */
  lemma LawsOnLast(f: seq<string> -> seq<string>, norm: seq<string>, last: string, b: seq<string>)
    requires DotLaws(f) && NoDots(norm)
    ensures f(norm + ([last] + b)) ==
            f((if last == ".." then Up(norm) else if last == "." then norm else norm + [last]) + b)
  {
    assert KeepsForm(f, norm, "", b);
    if last == ".." && |norm| > 0 {
      SplitLast(norm, [".."] + b);
      assert KeepsForm(f, Up(norm), norm[|norm| - 1], b);
    } else if last == ".." {
      assert norm + ([".."] + b) == [".."] + b && Up(norm) + b == b;
    } else {
      assert norm + ([last] + b) == norm + [last] + b;
    }
  }

  ghost predicate SameAt(f: seq<string> -> seq<string>, parts: seq<string>) {
    f(parts) == Normalize(parts)
  }

  lemma NormalizeObeysLaws(f: seq<string> -> seq<string>)
    requires forall parts :: SameAt(f, parts)
    ensures DotLaws(f)
  {
    forall parts | NoDots(parts)
      ensures f(parts) == parts
    {
      DotFreeIsNormal(parts);
      assert SameAt(f, parts);
    }
    forall a, name, b
      ensures KeepsForm(f, a, name, b)
    {
      assert SameAt(f, a + b) && SameAt(f, b) && SameAt(f, [".."] + b);
      assert SameAt(f, a + (["."] + b)) && SameAt(f, a + ([name] + ([".."] + b)));
      NormalizeKeepsForm(f, a, name, b);
    }
  }

  lemma NormalizeKeepsForm(f: seq<string> -> seq<string>, a: seq<string>, name: string, b: seq<string>)
    requires SameAt(f, a + b) && SameAt(f, b) && SameAt(f, [".."] + b)
    requires SameAt(f, a + (["."] + b)) && SameAt(f, a + ([name] + ([".."] + b)))
    ensures KeepsForm(f, a, name, b)
  {
    DotsAnywhere(a, name, b);
  }

  /** The laws leave no choice: the loop computes the only normal form there is. */
  lemma NormalFormIsUnique(f: seq<string> -> seq<string>)
    ensures DotLaws(f) <==> forall parts :: SameAt(f, parts)
  {
    if DotLaws(f) {
      forall parts
        ensures SameAt(f, parts)
      {
        LawsNormalize(f, parts, []);
        NormalizeIsDotFree(parts);
        assert parts + [] == parts && Normalize(parts) + [] == Normalize(parts);
      }
    } else if forall parts :: SameAt(f, parts) {
      NormalizeObeysLaws(f);
    }
  }

  lemma SplitOfNormal(path: string)
    ensures var norm := Normalize(Split(path, '/'));
            Split(NormalPath(path), '/') == if norm == [] then [""] else norm
  {
    var parts := Split(path, '/');
    SplitParts(path, '/');
    NormalizeIsDotFree(parts);
    if Normalize(parts) != [] {
      SplitJoin(Normalize(parts), '/');
    }
  }

  lemma NormalPathIsNormal(path: string)
    ensures NormalPath(NormalPath(path)) == NormalPath(path)
    ensures DotFree(NormalPath(path)) && (NormalPath(path) == path <==> DotFree(path))
  {
    var parts := Split(path, '/');
    SplitOfNormal(path);
    NormalizeIsDotFree(parts);
    DotFreeIsNormal(Split(NormalPath(path), '/'));
    JoinSplit(NormalPath(path), '/');
    if DotFree(path) {
      DotFreeIsNormal(parts);
      JoinSplit(path, '/');
    }
  }

  // ---- Relative imports ----

  /** An import from a file in a directory goes on from the directory's segments. */
  lemma RelativeToDirectory(imp: string, dir: string, file: string)
    requires '/' !in file
    ensures Relative(imp, dir + "/" + file) == Join(Normalize(Split(dir, '/') + Split(imp, '/')), '/')
  {
    LastSlash(dir, file);
    SplitConcat(dir, imp, '/');
  }

  lemma LastSlash(dir: string, file: string)
    requires '/' !in file
    ensures SliceTo(dir + "/" + file, LastIndexOf(dir + "/" + file, '/')) == dir
  {
    var from := dir + "/" + file;
    assert from[|dir|] == '/';
    assert from[|dir| + 1..] == file;
    assert LastIndexOf(from, '/') == |dir|;
  }

  /** `./rest` means `rest` in the directory. */
  lemma DotSlash(dir: seq<string>, rest: string)
    ensures Normalize(dir + Split("./" + rest, '/')) == Normalize(dir + Split(rest, '/'))
  {
    SplitFirst(".", rest, '/');
    assert "./" + rest == "." + ['/'] + rest;
    DotsAnywhere(dir, "", Split(rest, '/'));
  }

  lemma DotDotSlash(dir: seq<string>, sub: string, rest: string)
    requires IsName(sub)
    ensures Normalize(dir + [sub] + Split("../" + rest, '/')) == Normalize(dir + Split(rest, '/'))
  {
    var more := Split(rest, '/');
    SplitFirst("..", rest, '/');
    assert "../" + rest == ".." + ['/'] + rest;
    DotsAnywhere(dir, sub, more);
    Regroup(dir, [sub], [], [".."] + more);
  }

  /** `../rest` from one directory further down is `./rest` from here. */
  lemma ParentImport(dir: string, sub: string, file: string, rest: string)
    requires '/' !in sub && IsName(sub) && '/' !in file
    ensures Relative("../" + rest, dir + "/" + sub + "/" + file) == Relative("./" + rest, dir + "/" + file)
  {
    RelativeToDirectory("../" + rest, dir + "/" + sub, file);
    RelativeToDirectory("./" + rest, dir, file);
    SplitConcat(dir, sub, '/');
    SplitPlain(sub, '/');
    DotDotSlash(Split(dir, '/'), sub, rest);
    DotSlash(Split(dir, '/'), rest);
  }

  /** The directory of a file, if it has one. */
  function Directory(from: string): Option<string> {
    if LastIndexOf(from, '/') == -1 then None else Some(from[..LastIndexOf(from, '/')])
  }

  /** The file `rest` beside, or below the directory of, the file `from`. */
  function Sibling(from: string, rest: string): string {
    if Directory(from).Some? then Directory(from).value + "/" + rest else rest
  }

  /** From a file in a directory of names, `./rest` is found in that directory. */
  lemma SiblingOfFile(dir: string, file: string, rest: string)
    requires DotFree(dir) && '/' !in file && DotFree(rest)
    ensures Relative("./" + rest, dir + "/" + file) == dir + "/" + rest
  {
    RelativeToDirectory("./" + rest, dir, file);
    BelowDirectory(dir, rest);
  }

  /** What `./rest` below a directory comes to: the directory's normal form and then `rest`. */
  lemma BelowNormal(dir: seq<string>, rest: string)
    requires DotFree(rest)
    ensures Normalize(dir + Split("./" + rest, '/')) == Normalize(dir) + Split(rest, '/')
  {
    var norm, more := Normalize(dir), Split(rest, '/');
    DotSlash(dir, rest);
    NormalizeConcat(dir, more);
    NormalizeIsDotFree(dir);
    BothDotFree(norm, more);
    DotFreeIsNormal(norm + more);
  }

  lemma BothDotFree(a: seq<string>, b: seq<string>)
    requires NoDots(a) && NoDots(b)
    ensures NoDots(a + b)
  {
  }

  function Below(norm: seq<string>, rest: string): string {
    if norm == [] then rest else Join(norm, '/') + "/" + rest
  }

  lemma JoinBelow(norm: seq<string>, rest: string)
    ensures Join(norm + Split(rest, '/'), '/') == Below(norm, rest)
  {
    JoinSplit(rest, '/');
    if norm == [] {
      assert norm + Split(rest, '/') == Split(rest, '/');
    } else {
      JoinConcat(norm, Split(rest, '/'), '/');
    }
  }

  lemma SameHead(a: string, b: string, rest: string)
    ensures a + "/" + rest == b + "/" + rest <==> a == b
    ensures a + "/" + rest != rest
  {
    if a + "/" + rest == b + "/" + rest {
      assert a == (a + "/" + rest)[..|a|] && b == (b + "/" + rest)[..|b|];
    }
    assert |a + "/" + rest| > |rest|;
  }

  lemma BelowIff(norm: seq<string>, dir: string, rest: string)
    ensures Below(norm, rest) == dir + "/" + rest <==> norm != [] && Join(norm, '/') == dir
    ensures Below(norm, rest) == rest <==> norm == []
  {
    SameHead(Join(norm, '/'), dir, rest);
    SameHead(dir, dir, rest);
  }

  /** `./rest` below a directory is the path one would expect exactly when the directory has no dots. */
  lemma BelowDirectory(dir: string, rest: string)
    requires DotFree(rest)
    ensures var path := Join(Normalize(Split(dir, '/') + Split("./" + rest, '/')), '/');
            && (path == dir + "/" + rest <==> DotFree(dir))
            && (path == rest <==> Normalize(Split(dir, '/')) == [])
  {
    var norm := Normalize(Split(dir, '/'));
    BelowNormal(Split(dir, '/'), rest);
    JoinBelow(norm, rest);
    BelowIff(norm, dir, rest);
    NormalPathIsNormal(dir);
    if DotFree(dir) {
      DotFreeIsNormal(Split(dir, '/'));
    }
  }

  /**
   A file outside any directory has no slash to cut at, and cutting at -1 drops its last letter instead: its
   siblings are looked for in a directory named like the file without that letter.
   */
  lemma SiblingOfRootFile(from: string, rest: string)
    requires '/' !in from && |from| > 3 && DotFree(rest)
    ensures Relative("./" + rest, from) == from[..|from| - 1] + "/" + rest
    ensures Relative("./" + rest, from) != rest
  {
    var dir := from[..|from| - 1];
    RelativeSplit("./" + rest, from);
    NoSlash(from);
    LongName(from);
    BelowDirectory(dir, rest);
    SameHead(dir, dir, rest);
  }

  /** What precedes the last slash, or all but the last letter without one. */
  function Cut(from: string): string {
    SliceTo(from, LastIndexOf(from, '/'))
  }

  lemma RelativeSplit(imp: string, from: string)
    ensures Relative(imp, from) == Join(Normalize(Split(Cut(from), '/') + Split(imp, '/')), '/')
  {
    SplitConcat(Cut(from), imp, '/');
  }

  lemma NoSlash(from: string)
    requires '/' !in from
    ensures Directory(from) == None && Cut(from) == SliceTo(from, -1) && '/' !in Cut(from)
  {
  }

  lemma LongName(from: string)
    requires '/' !in from && |from| > 3
    ensures DotFree(from[..|from| - 1]) && SliceTo(from, -1) == from[..|from| - 1]
  {
    var dir := from[..|from| - 1];
    SplitPlain(dir, '/');
    assert |dir| > 2 && IsName(dir);
  }

  lemma NormalOfOne(part: string)
    ensures Normalize([part]) == [] <==> part == "." || part == ".."
  {
    NormalizeSnoc([], part);
    assert [] + [part] == [part];
  }

  lemma SiblingInDirectory(from: string, rest: string)
    requires DotFree(rest) && Directory(from).Some?
    ensures Relative("./" + rest, from) == Sibling(from, rest) <==> DotFree(Directory(from).value)
  {
    RelativeSplit("./" + rest, from);
    BelowDirectory(Directory(from).value, rest);
  }

  lemma SiblingInNone(from: string, rest: string)
    requires DotFree(rest) && Directory(from).None?
    ensures Relative("./" + rest, from) == Sibling(from, rest) <==> Cut(from) == "." || Cut(from) == ".."
  {
    RelativeSplit("./" + rest, from);
    NoSlash(from);
    SplitPlain(Cut(from), '/');
    NormalOfOne(Cut(from));
    BelowDirectory(Cut(from), rest);
  }

  /**
   For any importing file: its sibling is looked for where it is exactly when the file is in a directory of
   names - or in none, and called a dot or two dots and one more letter.
   */
  lemma SiblingIff(from: string, rest: string)
    requires DotFree(rest)
    ensures Relative("./" + rest, from) == Sibling(from, rest) <==>
            match Directory(from)
            case Some(dir) => DotFree(dir)
            case None => SliceTo(from, -1) == "." || SliceTo(from, -1) == ".."
  {
    if Directory(from).Some? {
      SiblingInDirectory(from, rest);
    } else {
      NoSlash(from);
      SiblingInNone(from, rest);
    }
  }
}
